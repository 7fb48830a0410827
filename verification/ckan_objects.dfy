/** The CKAN core records the subscription engine reads: activities, and the
    package/group/member tables used to expand organization and group
    subscriptions. Only the columns the engine looks at are kept. */
module CkanObjects {
  import opened Common

  /** A row of CKAN's activity stream. `data` stands for the opaque payload. */
  datatype Activity = Activity(
    id: string,
    objectId: string,
    activityType: string,
    timestamp: Time,
    data: string)

  /** A dataset; `ownerOrg` is the id of the organization that owns it. */
  datatype Package = Package(id: string, ownerOrg: Option<string>)

  /** A group or an organization (CKAN stores both in one table). */
  datatype Group = Group(id: string, state: string, isOrganization: bool)

  /** A membership row: object `tableId` belongs to group `groupId`. */
  datatype Member = Member(groupId: string, tableId: string, state: string)

  const ACTIVE: string := "active"
}
