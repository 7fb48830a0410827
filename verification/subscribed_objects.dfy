/** `notification.get_objects_subscribed_to`: which object ids the engine
    listens to for one frequency, and which subscriptions each id feeds.
    The three ORM queries are joins over the site's tables, written here as
    nested iterations in table order. */
module SubscribedObjects {
  import opened Common
  import opened CkanObjects
  import opened SubscribeModel

  /** The tables the queries read. */
  datatype Site = Site(
    subscriptions: seq<Subscription>,
    groups: seq<Group>,
    packages: seq<Package>,
    members: seq<Member>)

  /** One result row of a query: activity on `objectId` is of interest to
      `subscription`. */
  datatype Link = Link(objectId: string, subscription: Subscription)

  /** The mapping the function returns: object id to subscriptions. */
  type Index = map<string, seq<Subscription>>

  /** `index[objectId]` on the source's `defaultdict(list)`. */
  function Subscribers(index: Index, objectId: string): seq<Subscription>
  {
    if objectId in index then index[objectId] else []
  }

  /** The rows produced for each element of `xs`, concatenated in order. */
  function FlatMap<A, B>(xs: seq<A>, f: A -> seq<B>): (r: seq<B>)
    ensures forall x, b :: x in xs && b in f(x) ==> b in r
    ensures forall b :: b in r ==> exists x :: x in xs && b in f(x)
  {
    if |xs| == 0 then [] else f(xs[0]) + FlatMap(xs[1..], f)
  }

  /** Both query filters on the subscription itself. */
  predicate Eligible(s: Subscription, frequency: int)
  {
    s.verified && s.frequency == Some(frequency)
  }

  /** The first query: every eligible subscription, on its own object. */
  function DirectLinks(subscriptions: seq<Subscription>, frequency: int): (r: seq<Link>)
    ensures forall k, s :: Link(k, s) in r <==> s in subscriptions && Eligible(s, frequency) && s.objectId == k
  {
    var rows := (x: Subscription) => if Eligible(x, frequency) then [Link(x.objectId, x)] else [];
    var r := FlatMap(subscriptions, rows);
    assert forall k, s :: Link(k, s) in r ==> s in subscriptions && Eligible(s, frequency) && s.objectId == k by {
      forall k, s | Link(k, s) in r
        ensures s in subscriptions && Eligible(s, frequency) && s.objectId == k
      {
        var x :| x in subscriptions && Link(k, s) in rows(x);
      }
    }
    assert forall s :: s in subscriptions && Eligible(s, frequency) ==> Link(s.objectId, s) in r by {
      forall s | s in subscriptions && Eligible(s, frequency)
        ensures Link(s.objectId, s) in r
      {
        assert Link(s.objectId, s) in rows(s);
      }
    }
    r
  }

  /** Some package has id `k`. */
  ghost predicate PackageExists(packages: seq<Package>, k: string)
  {
    exists p :: p in packages && p.id == k
  }

  /** Some package has id `k` and is owned by `orgId`. */
  ghost predicate OwnedPackageExists(packages: seq<Package>, orgId: string, k: string)
  {
    exists p :: p in packages && p.ownerOrg == Some(orgId) && p.id == k
  }

  /** The join of subscription `x` with the packages owned by `orgId`. */
  function OwnedPackageRows(x: Subscription, packages: seq<Package>, orgId: string): (r: seq<Link>)
    ensures forall k, s :: Link(k, s) in r <==> s == x && OwnedPackageExists(packages, orgId, k)
  {
    FlatMap(packages, (p: Package) => if p.ownerOrg == Some(orgId) then [Link(p.id, x)] else [])
  }

  /** The join of subscription `x` with the packages whose id is `id`. */
  function PackageRows(x: Subscription, packages: seq<Package>, id: string): (r: seq<Link>)
    ensures forall k, s :: Link(k, s) in r <==> s == x && k == id && PackageExists(packages, id)
  {
    FlatMap(packages, (p: Package) => if p.id == id then [Link(p.id, x)] else [])
  }

  /** An active membership of package `k` in group `groupId`. */
  ghost predicate ActiveMembership(members: seq<Member>, groupId: string, k: string)
  {
    exists m :: m in members && m.groupId == groupId && m.state == ACTIVE && m.tableId == k
  }

  /** The join of subscription `x` with the active memberships of `groupId`
      and their packages. */
  function MemberRows(x: Subscription, members: seq<Member>, packages: seq<Package>, groupId: string)
    : (r: seq<Link>)
    ensures forall k, s :: Link(k, s) in r <==>
              s == x && ActiveMembership(members, groupId, k) && PackageExists(packages, k)
  {
    var rows := (m: Member) => if m.groupId == groupId && m.state == ACTIVE then PackageRows(x, packages, m.tableId) else [];
    var r := FlatMap(members, rows);
    assert forall k, s :: Link(k, s) in r ==> s == x && ActiveMembership(members, groupId, k) && PackageExists(packages, k) by {
      forall k, s | Link(k, s) in r
        ensures s == x && ActiveMembership(members, groupId, k) && PackageExists(packages, k)
      {
        var m :| m in members && Link(k, s) in rows(m);
      }
    }
    assert forall k, s :: s == x && ActiveMembership(members, groupId, k) && PackageExists(packages, k) ==> Link(k, s) in r by {
      forall k, s | s == x && ActiveMembership(members, groupId, k) && PackageExists(packages, k)
        ensures Link(k, s) in r
      {
        var m :| m in members && m.groupId == groupId && m.state == ACTIVE && m.tableId == k;
        assert Link(k, s) in rows(m);
      }
    }
    r
  }

  /** A group with id `id`, state active, of the given kind. */
  predicate ActiveGroup(g: Group, id: string, isOrganization: bool)
  {
    g.id == id && g.state == ACTIVE && g.isOrganization == isOrganization
  }

  /** Package `k` is owned by an active organization whose id is `orgId`. */
  ghost predicate OwnedByActiveOrg(groups: seq<Group>, packages: seq<Package>, orgId: string, k: string)
  {
    exists g :: g in groups && ActiveGroup(g, orgId, true) && OwnedPackageExists(packages, g.id, k)
  }

  /** Package `k` exists and has an active membership in an active
      non-organization group whose id is `groupId`. */
  ghost predicate MemberOfActiveGroup(groups: seq<Group>, members: seq<Member>, packages: seq<Package>,
                                      groupId: string, k: string)
  {
    PackageExists(packages, k)
    && exists g :: g in groups && ActiveGroup(g, groupId, false) && ActiveMembership(members, g.id, k)
  }

  /** The packages an active organization with id `x.objectId` owns. */
  function OrgRows(x: Subscription, groups: seq<Group>, packages: seq<Package>): (r: seq<Link>)
    ensures forall k, s :: Link(k, s) in r <==> s == x && OwnedByActiveOrg(groups, packages, x.objectId, k)
  {
    var rows := (g: Group) => if ActiveGroup(g, x.objectId, true) then OwnedPackageRows(x, packages, g.id) else [];
    var r := FlatMap(groups, rows);
    assert forall k, s :: Link(k, s) in r ==> s == x && OwnedByActiveOrg(groups, packages, x.objectId, k) by {
      forall k, s | Link(k, s) in r
        ensures s == x && OwnedByActiveOrg(groups, packages, x.objectId, k)
      {
        var g :| g in groups && Link(k, s) in rows(g);
      }
    }
    assert forall k :: OwnedByActiveOrg(groups, packages, x.objectId, k) ==> Link(k, x) in r by {
      forall k | OwnedByActiveOrg(groups, packages, x.objectId, k)
        ensures Link(k, x) in r
      {
        var g :| g in groups && ActiveGroup(g, x.objectId, true) && OwnedPackageExists(packages, g.id, k);
        assert Link(k, x) in rows(g);
      }
    }
    r
  }

  /** The second query: eligible subscriptions joined to the active
      organization they name and the packages it owns. */
  function OrgLinks(subscriptions: seq<Subscription>, frequency: int, groups: seq<Group>, packages: seq<Package>)
    : (r: seq<Link>)
    ensures forall k, s :: Link(k, s) in r <==>
              s in subscriptions && Eligible(s, frequency) && OwnedByActiveOrg(groups, packages, s.objectId, k)
  {
    var rows := (x: Subscription) => if Eligible(x, frequency) then OrgRows(x, groups, packages) else [];
    var r := FlatMap(subscriptions, rows);
    assert forall k, s :: Link(k, s) in r ==>
        s in subscriptions && Eligible(s, frequency) && OwnedByActiveOrg(groups, packages, s.objectId, k) by {
      forall k, s | Link(k, s) in r
        ensures s in subscriptions && Eligible(s, frequency) && OwnedByActiveOrg(groups, packages, s.objectId, k)
      {
        var x :| x in subscriptions && Link(k, s) in rows(x);
      }
    }
    assert forall k, s ::
        (s in subscriptions && Eligible(s, frequency) && OwnedByActiveOrg(groups, packages, s.objectId, k)) ==>
        Link(k, s) in r by {
      forall k, s | s in subscriptions && Eligible(s, frequency) && OwnedByActiveOrg(groups, packages, s.objectId, k)
        ensures Link(k, s) in r
      {
        assert Link(k, s) in rows(s);
      }
    }
    r
  }

  /** The packages with an active membership in an active non-organization
      group with id `x.objectId`, once per membership row. */
  function GroupRows(x: Subscription, groups: seq<Group>, members: seq<Member>, packages: seq<Package>)
    : (r: seq<Link>)
    ensures forall k, s :: Link(k, s) in r <==> s == x && MemberOfActiveGroup(groups, members, packages, x.objectId, k)
  {
    var rows := (g: Group) => if ActiveGroup(g, x.objectId, false) then MemberRows(x, members, packages, g.id) else [];
    var r := FlatMap(groups, rows);
    assert forall k, s :: Link(k, s) in r ==> s == x && MemberOfActiveGroup(groups, members, packages, x.objectId, k) by {
      forall k, s | Link(k, s) in r
        ensures s == x && MemberOfActiveGroup(groups, members, packages, x.objectId, k)
      {
        var g :| g in groups && Link(k, s) in rows(g);
      }
    }
    assert forall k :: MemberOfActiveGroup(groups, members, packages, x.objectId, k) ==> Link(k, x) in r by {
      forall k | MemberOfActiveGroup(groups, members, packages, x.objectId, k)
        ensures Link(k, x) in r
      {
        var g :| g in groups && ActiveGroup(g, x.objectId, false) && ActiveMembership(members, g.id, k);
        assert Link(k, x) in rows(g);
      }
    }
    r
  }

  /** The third query: eligible subscriptions joined to the active group
      they name, its active memberships, and the member packages. */
  function GroupLinks(subscriptions: seq<Subscription>, frequency: int, groups: seq<Group>,
                      members: seq<Member>, packages: seq<Package>): (r: seq<Link>)
    ensures forall k, s :: Link(k, s) in r <==>
              s in subscriptions && Eligible(s, frequency)
              && MemberOfActiveGroup(groups, members, packages, s.objectId, k)
  {
    var rows := (x: Subscription) => if Eligible(x, frequency) then GroupRows(x, groups, members, packages) else [];
    var r := FlatMap(subscriptions, rows);
    assert forall k, s :: Link(k, s) in r ==>
        s in subscriptions && Eligible(s, frequency) && MemberOfActiveGroup(groups, members, packages, s.objectId, k) by {
      forall k, s | Link(k, s) in r
        ensures s in subscriptions && Eligible(s, frequency)
                && MemberOfActiveGroup(groups, members, packages, s.objectId, k)
      {
        var x :| x in subscriptions && Link(k, s) in rows(x);
      }
    }
    assert forall k, s ::
        (s in subscriptions && Eligible(s, frequency) && MemberOfActiveGroup(groups, members, packages, s.objectId, k)) ==>
        Link(k, s) in r by {
      forall k, s | s in subscriptions && Eligible(s, frequency)
          && MemberOfActiveGroup(groups, members, packages, s.objectId, k)
        ensures Link(k, s) in r
      {
        assert Link(k, s) in rows(s);
      }
    }
    r
  }

  /** All rows of the three queries, in the order the source appends them. */
  function Links(site: Site, frequency: int): seq<Link>
  {
    DirectLinks(site.subscriptions, frequency)
    + OrgLinks(site.subscriptions, frequency, site.groups, site.packages)
    + GroupLinks(site.subscriptions, frequency, site.groups, site.members, site.packages)
  }

  /** Appending each row's subscription to the list of its object id. */
  function BuildIndex(links: seq<Link>): (r: Index)
    ensures forall k :: k in r <==> exists l :: l in links && l.objectId == k
    ensures forall k, s :: k in r ==> (s in r[k] <==> Link(k, s) in links)
    ensures forall k :: k in r ==> |r[k]| > 0
  {
    if |links| == 0 then map[]
    else
      var prefix := links[..|links| - 1];
      var last := links[|links| - 1];
      assert links == prefix + [last];
      var index := BuildIndex(prefix);
      index[last.objectId := Subscribers(index, last.objectId) + [last.subscription]]
  }

  /** The mapping `get_objects_subscribed_to(frequency)` returns. */
  function ObjectsSubscribedTo(site: Site, frequency: int): Index
  {
    BuildIndex(Links(site, frequency))
  }

  /** Activity on `k` concerns `s`: directly, or because `k` is a package
      of the active organization or group that `s` names. */
  ghost predicate Covers(site: Site, s: Subscription, k: string)
  {
    || s.objectId == k
    || OwnedByActiveOrg(site.groups, site.packages, s.objectId, k)
    || MemberOfActiveGroup(site.groups, site.members, site.packages, s.objectId, k)
  }

  /** The mapping lists `s` under `k` exactly when `s` is a verified
      subscription of the requested frequency whose object is `k` or an
      active organization or group that `k` belongs to. */
  lemma ObjectsSubscribedToMember(site: Site, frequency: int, k: string, s: Subscription)
    ensures s in Subscribers(ObjectsSubscribedTo(site, frequency), k) <==>
              s in site.subscriptions && Eligible(s, frequency) && Covers(site, s, k)
  {
    var direct := DirectLinks(site.subscriptions, frequency);
    var org := OrgLinks(site.subscriptions, frequency, site.groups, site.packages);
    var group := GroupLinks(site.subscriptions, frequency, site.groups, site.members, site.packages);
    var links := Links(site, frequency);
    var index := BuildIndex(links);
    assert Link(k, s) in links <==> Link(k, s) in direct || Link(k, s) in org || Link(k, s) in group;
    if Link(k, s) in links {
      assert k in index;
    }
  }

  /** An object id is a key only if some listed subscription covers it, and
      every key's list is non-empty. */
  lemma ObjectsSubscribedToKeys(site: Site, frequency: int, k: string)
    ensures k in ObjectsSubscribedTo(site, frequency) <==> |Subscribers(ObjectsSubscribedTo(site, frequency), k)| > 0
    ensures k in ObjectsSubscribedTo(site, frequency) <==>
              exists s :: s in site.subscriptions && Eligible(s, frequency) && Covers(site, s, k)
  {
    var index := ObjectsSubscribedTo(site, frequency);
    if k in index {
      var s := index[k][0];
      ObjectsSubscribedToMember(site, frequency, k, s);
    }
    if exists s :: s in site.subscriptions && Eligible(s, frequency) && Covers(site, s, k) {
      var s :| s in site.subscriptions && Eligible(s, frequency) && Covers(site, s, k);
      ObjectsSubscribedToMember(site, frequency, k, s);
    }
  }
}
