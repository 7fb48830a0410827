# ckanext-subscribe notification engine, in Dafny

This project models the notification scheduling and batching engine of the
CKAN extension `ckanext-subscribe`, together with the pieces it depends on,
and proves properties of the model. The extension lets people subscribe by
email to a dataset, group or organization. A scheduler then sends them the
new activity on those objects, either immediately or as a daily or weekly
digest.

Modules, one per source concern:

- `Common` (`common.dfy`): time as an integer, `Option`, `Result`, `Outcome`.
- `CkanObjects` (`ckan_objects.dfy`): the CKAN rows the engine reads. These are activities, packages, groups and memberships.
- `SubscribeModel` (`subscribe_model.dfy`): the extension's tables from `model.py`:
  - the `Frequency` enum;
  - subscriptions;
  - login codes and `validate_code`;
  - the per-frequency "emails last sent" watermark store.
- `Schedule` (`schedule.dfy`): the calendar. It covers the most recent daily and weekly send instants and the "is it time to send" checks, both as written and corrected (see Findings).
- `ActivityFilter` (`activity_filter.dfy`): `utils.filter_activities`.
- `SubscribedObjects` (`subscribed_objects.dfy`): `get_objects_subscribed_to`. Its three SQL joins are nested loops over the tables.
- `Schema` (`schema.dfy`): the validators `one_package_or_group_or_org`, `frequency_name_to_int` and `subscription_id_exists`.
- `Dictization` (`dictization.dfy`): `dictize_subscription`.
- `Grouping` (`grouping.dfy`): `get_notifications_by_email` and `dictize_notifications`. The nested `defaultdict` keeps insertion order, so it is modelled as an association list.
- `Notification` (`notification.dfy`): three parts:
  - the look-back floor of each tier;
  - `get_immediate/daily/weekly_notifications`;
  - the three `send_*` functions that move the watermark, plus one scheduler cycle over all tiers.

Time is an `int` count of microseconds since 0001-01-01 00:00, which is
Python's `datetime.min` and a Monday. So the weekday is `(t / DAY) % 7`, and
`timedelta` arithmetic is plain addition. The settings cached by
`get_config` are an explicit `Config` record:

- the catch-up period;
- the weekly day, 0..6;
- the send hour and minute.

Each clock read becomes a `now` parameter. `send_emails` is not called: the
dispatch functions return the bundles they would hand to it.

The central facts:

- The subscribed-object map lists `s` under `k` exactly when three things hold:
  - `s` is verified;
  - `s` has the tier's frequency;
  - `k` is `s`'s own object, or a package of the active organization or group that `s` names.
- Each notification carries exactly what its subscription deserves. That is every activity that meets all of these:
  - it is in the feed;
  - it is strictly after the floor;
  - it is on a covered object;
  - it is not older than the subscription.
- Notifications keep feed order, one copy per listing.
- No address receives two bundles. No subscription appears twice in a bundle. Nothing empty is sent.
- A run records `now` as its watermark. With the corrected due check, a daily or weekly tier is due again exactly when a scheduled send instant has passed since then.

## Model

| member | source | states |
|---|---|---|
| SubscribeModel.FrequencyOf | ckanext/subscribe/model.py:82-85 | `Frequency(v)` exists exactly for v in 1..3 and gives back the member whose value is v |
| SubscribeModel.FrequencyValuesDistinct | ckanext/subscribe/model.py:82-85 | two members have the same value only if they are the same member; every member's value maps back to it |
| SubscribeModel.ValidateCode | ckanext/subscribe/model.py:108-117 | fails with "No code supplied" exactly when the code is empty; with "Code not recognized" exactly when it is non-empty and no record holds it; with "Code expired" exactly when the first record holding it has `now > expires`; succeeds exactly when that first record has `now <= expires`, and then returns that record |
| SubscribeModel.CodeValidUntilExpiry | ckanext/subscribe/model.py:115-116 | in any table, the first record holding a non-empty code is returned at exactly its expiry instant, and the code is refused as expired one microsecond later |
| SubscribeModel.GetEmailsLastSent | ckanext/subscribe/model.py:143-153 | None exactly when no row has the frequency, else the timestamp of a row with that frequency |
| SubscribeModel.SetEmailsLastSent | ckanext/subscribe/model.py:132-141 | a later get for the frequency returns the new time; every other frequency reads as before; an existing row is updated in place with no row added; at most one row is added; rows with distinct frequencies stay distinct |
| Schedule.MostRecentWeeklyAsWritten | ckanext/subscribe/notification.py:192-201 | the result lies in `(now - 7 days, now]` with the configured weekday, hour and minute, and it keeps now's seconds and microseconds |
| Schedule.MostRecentDailyAsWritten | ckanext/subscribe/notification.py:204-212 | the result lies in `(now - 1 day, now]` with the configured hour and minute, and it keeps now's seconds and microseconds |
| Schedule.MostRecentWeekly | ckanext/subscribe/notification.py:192-201 | corrected: the result lies in `(now - 7 days, now]`, is a weekly send instant (configured day, hh:mm:00), and no later send instant is at or before now |
| Schedule.MostRecentDaily | ckanext/subscribe/notification.py:204-212 | corrected: the result lies in `(now - 1 day, now]`, is a daily send instant, and no later one is at or before now |
| Schedule.IsWeeklyDue | ckanext/subscribe/notification.py:174-180 | corrected: due exactly when the tier never sent, or when a weekly send instant lies after the watermark and at or before now |
| Schedule.IsDailyDue | ckanext/subscribe/notification.py:183-189 | corrected: due exactly when the tier never sent, or when a daily send instant lies after the watermark and at or before now |
| Schedule.IsWeeklyDueAsWritten | ckanext/subscribe/notification.py:174-180 | as written: due exactly when never sent, or when some weekly send instant moved on by now's seconds and microseconds lies after the watermark and at or before now; never due while the watermark is at or after now |
| Schedule.AsWrittenWeeklyAfter | ckanext/subscribe/notification.py:174-180 | the as-written weekly instant is after a watermark exactly when a weekly send instant moved on by now's seconds and microseconds lies after it and at or before now |
| Schedule.AsWrittenDailyAfter | ckanext/subscribe/notification.py:183-189 | the as-written daily instant is after a watermark exactly when a daily send instant moved on by now's seconds and microseconds lies after it and at or before now |
| Schedule.IsDailyDueAsWritten | ckanext/subscribe/notification.py:183-189 | as written: due exactly when never sent, or when some daily send instant moved on by now's seconds and microseconds lies after the watermark and at or before now; never due while the watermark is at or after now |
| Schedule.WeeklyExamples | ckanext/subscribe/notification.py:192-201 | with Friday 09:00 configured: Thursday and Friday 08:00 give the previous Friday 09:00; Friday 10:00 and Saturday give that week's Friday 09:00 |
| Schedule.DailyDueBeforeSendTime | ckanext/subscribe/notification.py:204-212 | counterexample: last run 09:00:30 and a run the next day at 08:59:45 give due as written, but no 09:00 lies in between, and the corrected check says not due |
| Schedule.WeeklyDueBeforeSendTime | ckanext/subscribe/notification.py:192-201 | the same counterexample for the weekly tier |
| ActivityFilter.FilterActivities | ckanext/subscribe/utils.py:239-244 | an activity is returned exactly when it is in the feed, strictly after the floor, and on one of the keys; one at the floor itself is excluded; no keys give nothing |
| ActivityFilter.FilterConcat | ckanext/subscribe/utils.py:239-244 | filtering is row by row: filtering a concatenated feed gives the two filtered parts in order |
| ActivityFilter.FilterPastFeedIsEmpty | ckanext/subscribe/utils.py:241 | a floor at or after every timestamp selects nothing |
| Schema.OnePackageOrGroupOrOrg | ckanext/subscribe/schema.py:18-41 | passes exactly when one of the three fields is non-empty; the "more than one" error comes exactly when two or more are; the "must specify" error comes exactly when none is |
| Schema.FrequencyNameToInt | ckanext/subscribe/schema.py:44-54 | a name equal, ignoring case, to a member's name gives that member's value; success happens only then; any other name fails with the message listing the lower-case names |
| Schema.FrequencyChoicesText | ckanext/subscribe/schema.py:47-54 | the failure message is "Frequency must be one of: immediate daily weekly" |
| Schema.FrequencyNameAnyCase | ckanext/subscribe/schema.py:44-46 | every casing of "immediate", "daily" and "weekly" maps to 1, 2 and 3 |
| SubscribeModel.SubscriptionById | ckanext/subscribe/schema.py:104 | the primary-key lookup finds nothing exactly when no stored subscription has the id, and otherwise a stored subscription with that id |
| Schema.SubscriptionIdExists | ckanext/subscribe/schema.py:99-107 | branching on the primary-key lookup, it returns the id unchanged exactly when some stored subscription has that id, and otherwise fails with "That subscription ID does not exist." |
| Dictization.DictizeSubscription | ckanext/subscribe/dictization.py:19-37 | there is no `verification_code` key; every other column is copied unchanged except `frequency`, which becomes the member's name; `object_name` is added only with `include_name`, and it is the resolved object's id; the result fails exactly when the stored frequency is not 1..3 or the named object is missing |
| Dictization.FrequencyRoundTrip | ckanext/subscribe/dictization.py:34-35 | feeding the dictized frequency name to `frequency_name_to_int` gives back the stored integer |
| Dictization.DictizeValidFrequency | ckanext/subscribe/dictization.py:34-35 | a stored value of a member always dictizes without `include_name`, and its frequency becomes that member's name |
| SubscribedObjects.DirectLinks | ckanext/subscribe/notification.py:145-148 | the first query yields (k, s) exactly for verified subscriptions of the frequency, on their own object id |
| SubscribedObjects.OrgLinks | ckanext/subscribe/notification.py:150-158 | the second query yields (k, s) exactly when s is eligible, names an active organization, and k is a package owned by it |
| SubscribedObjects.GroupLinks | ckanext/subscribe/notification.py:160-170 | the third query yields (k, s) exactly when s is eligible, names an active non-organization group, and k is a package with an active membership in it |
| SubscribedObjects.BuildIndex | ckanext/subscribe/notification.py:143-171 | the keys are exactly the object ids of the rows; s is listed under k exactly when (k, s) is a row; no list is empty |
| SubscribedObjects.ObjectsSubscribedToMember | ckanext/subscribe/notification.py:137-171 | s is listed under k exactly when s is a verified subscription of the frequency that covers k directly or through its active organization or group |
| SubscribedObjects.ObjectsSubscribedToKeys | ckanext/subscribe/notification.py:137-171 | k is a key exactly when its list is non-empty, exactly when some eligible subscription covers k |
| Grouping.AddActivityLookup | ckanext/subscribe/notification.py:308 | `notifications[email][s].append(a)` extends s's list by a and leaves every other subscription's list alone |
| Grouping.AddActivityWellFormed | ckanext/subscribe/notification.py:301-308 | appending keeps each address in one group and each subscription in one entry, under its own address, with no empty entry |
| Grouping.FanOutLookup | ckanext/subscribe/notification.py:303-308 | the inner loop gives t one copy of the activity per time t is listed, and none when t was created after the activity |
| Grouping.GroupActivitiesLookup | ckanext/subscribe/notification.py:301-308 | after the loop, each subscription has gathered exactly its reference list: the feed's activities in order, each once per listing, skipping activities older than the subscription |
| Grouping.GroupActivitiesWellFormed | ckanext/subscribe/notification.py:301-308 | the grouping never has two groups for one address or two entries for one subscription, and no group or entry is empty |
| Grouping.MatchingMember | ckanext/subscribe/notification.py:302-308 | an activity reaches s exactly when it is in the feed, s is listed for its object, and s is not newer than it; unmapped objects reach nobody |
| Grouping.GroupedEntry | ckanext/subscribe/notification.py:301-308 | every entry holds exactly its subscription's reference list, which is non-empty, under the subscription's own address |
| Grouping.GroupedFind | ckanext/subscribe/notification.py:301-308 | every subscription with a non-empty reference list has an entry under its address |
| Grouping.DictizeNotifications | ckanext/subscribe/notification.py:319-339 | one notification per entry in entry order, each carrying the dictized subscription and its activities; it fails exactly when some subscription cannot be dictized |
| Grouping.DictizeGroups | ckanext/subscribe/notification.py:310-316 | one bundle per address in first-seen order; it fails exactly when some address's notifications fail |
| Grouping.DictizeEntryFits | ckanext/subscribe/notification.py:328-337 | an entry of a subscription of frequency f dictizes into a notification naming f and its address, with at least one activity |
| Grouping.NotificationsByEmailShape | ckanext/subscribe/notification.py:294-316 | when only frequency-f subscriptions are listed, the result is never an error; no address appears twice; no bundle is empty; every notification names f and the bundle's address and carries at least one activity |
| Grouping.NotificationsByEmailComplete | ckanext/subscribe/notification.py:294-316 | every subscription with something to report has, in its address's bundle, a notification carrying exactly its reference list |
| Grouping.NotificationsByEmailSound | ckanext/subscribe/notification.py:294-316 | every notification is the dictized form of a subscription of the bundle's address, with exactly that subscription's reference list |
| Notification.ImmediateFloor | ckanext/subscribe/notification.py:116-124 | with no watermark the floor is `now - catch_up`, otherwise `max(watermark, now - catch_up)`; it is never before `now - catch_up` |
| Notification.PeriodicFloor | ckanext/subscribe/notification.py:227-236 | with no watermark the floor is `now - period`, with no catch-up; otherwise it is `max(watermark, now - period - catch_up)` |
| Notification.FloorAfterRun | ckanext/subscribe/notification.py:116-270 | for every tier (the floors at 116-124, 227-236 and 261-270), a run within the period (plus catch-up) of the previous one reads from exactly the previous watermark: no activity stamped between the two runs falls below the second run's floor |
| Notification.IndexListsOnly | ckanext/subscribe/notification.py:145-147 | the map for a frequency lists only subscriptions of that frequency |
| Notification.GetNotifications | ckanext/subscribe/notification.py:104-134 | no address gets two bundles; no bundle is empty; every notification names the tier and its address and carries at least one activity; nothing is produced when no activity qualifies |
| Notification.GetNotificationsIs | ckanext/subscribe/notification.py:215-246 | with at least one candidate activity, the tier returns the grouping of the candidates, and that grouping cannot fail |
| Notification.CandidatesMatching | ckanext/subscribe/notification.py:249-279 | an activity reaches s in the tier exactly when s deserves it: s is verified with the tier's frequency, and the activity is in the feed, after the floor, on an object s covers, and not older than s |
| Notification.GetNotificationsSound | ckanext/subscribe/notification.py:104-134 | every notification is the dictized form of one verified subscription of the tier at the bundle's address, and carries exactly the activities that subscription deserves |
| Notification.GetNotificationsComplete | ckanext/subscribe/notification.py:249-279 | every activity a subscription deserves is in that subscription's notification, in its address's bundle |
| Notification.SendAnyImmediateNotifications | ckanext/subscribe/notification.py:47-61 | always records now as the immediate watermark, even when nothing is sent; other frequencies are unchanged; it sends the tier's notifications |
| Notification.SendDailyIfItsTimeTo | ckanext/subscribe/notification.py:84-101 | corrected: when not due, the store is untouched and nothing is sent; when due, it sends the tier's notifications and records now; other frequencies are unchanged |
| Notification.SendWeeklyIfItsTimeTo | ckanext/subscribe/notification.py:64-81 | corrected: when not due, the store is untouched and nothing is sent; when due, it sends the tier's notifications and records now; other frequencies are unchanged |
| Notification.DailyRunThenDue | ckanext/subscribe/notification.py:84-101 | corrected: after a daily run at now, the tier is due at a later time exactly when a daily send instant lies in between; a second run at the same now does nothing |
| Notification.WeeklyRunThenDue | ckanext/subscribe/notification.py:64-81 | corrected: after a weekly run at now, the tier is due at a later time exactly when a weekly send instant lies in between; a second run at the same now does nothing |
| Notification.ImmediateRerunSendsNothing | ckanext/subscribe/notification.py:47-61 | a second immediate run at the same now sends nothing when no activity is stamped after now |
| Notification.RunTier | ckanext/subscribe/notification.py:47-101 | corrected: each tier's dispatch moves only its own watermark, to now for the immediate tier and to now-if-due for the others, and sends its own notifications |
| Notification.RunAllTiers | ckanext/subscribe/notification.py:47-101 | corrected: running the immediate, daily and weekly dispatch in turn leaves each tier's watermark as its own run would and every other row unchanged; the emails sent are the three tiers' outputs in order |

## Left out

- Email rendering and transport (`send_emails`, templates, SMTP): the model returns the bundles instead of sending them.
- `send_emails` (notification.py:342-345) raises `AttributeError` as written. It calls `notification_email.send_notification_email`, and `notification_email.py` defines only `get_notification_email_contents` and `get_notification_email_vars`.
  - So every run with at least one bundle fails. By then `email_auth.create_code` has already committed a login code for the first address (email_auth.py:101-111).
  - The failure comes before `set_emails_last_sent` (notification.py:59, 79, 99), so the source records the watermark only on runs with nothing to send.
  - The source has no per-recipient failure handling at all.
- `SendAnyImmediateNotifications`, `SendDailyIfItsTimeTo` and `SendWeeklyIfItsTimeTo`: their "records now" ensures assume a delivery sink that returns normally. The model does not reproduce the `AttributeError` above, nor the code rows it leaves behind.
- Login-code creation (`create_code`): it uses randomness and a database commit.
- The activity hook loop (`get_subscribed_to_activities`, notification.py:282-291). As written it raises `AttributeError`: the extension's own `SubscribePlugin` implements `ISubscribe` (plugin.py:16), and `ISubscribe` (interfaces.py:18-45) defines no `get_activities`. When several plugins implement it, the last one wins. The feed parameter, filtered by `utils.filter_activities`, stands for what a third-party `get_activities` is assumed to return.
- Config parsing and caching (`get_config`: `string_to_timedelta`, `strptime`, the module-level cache): replaced by the `Config` record.
- The grace-period debounce named by the command-line tool: `notification.py` has no such behaviour.
- `SendDailyIfItsTimeTo` and `SendWeeklyIfItsTimeTo` merge two clock reads into one `now`: the source reads the clock once in the due check and again for `notification_datetime`.
- The source mixes naive local `now()` with activity timestamps; time zones and daylight saving are not modelled.
- The `OverflowError` that `timedelta` arithmetic raises near `datetime.min` and `datetime.max`: integers are unbounded here.
- `ValidateCode` assumes `expires` is set: a NULL expiry would raise `TypeError` in the source.
- `Schema.FrequencyNameToInt` models `str.upper` on ASCII only. Python also upper-cases characters such as 'ı' and 'ſ' to 'I' and 'S', so it would accept a few non-ASCII spellings that the model rejects.
- SQL row order is unspecified. The model fixes table order for the three joins and first-row order for `.first()`. All properties except the order of lists are about membership and multiplicity.
- `SendDailyIfItsTimeTo`, `SendWeeklyIfItsTimeTo`, `DailyRunThenDue`, `WeeklyRunThenDue`, `RunTier` and `RunAllTiers` use the corrected due checks `IsDailyDue` and `IsWeeklyDue`, not the as-written ones. So they do not reproduce the early send shown under Findings.
- Activities stamped after `now` are not excluded. `filter_activities` has no upper bound, so such an activity is delivered by the run at `now` and again by the next run. The model does not promise that consecutive runs never repeat an activity.
- `Subscription.created` is never NULL here. The column is nullable, and a NULL would make the `created > activity.timestamp` comparison raise `TypeError`.
- `activity_list_dictize` is the identity: notifications carry the activity records themselves.
- Subscription identity as a dictionary key is value equality of the record. The source uses ORM identity, which coincides because ids are primary keys.
- Session commits and ORM persistence: the watermark store is a list of rows.

## Findings

| source | as written | input that shows it | evidently intended | confidence | as-written member | corrected member |
|---|---|---|---|---|---|---|
| ckanext/subscribe/notification.py:204-212 | the daily instant replaces only hour and minute, so it keeps now's seconds and microseconds | 09:00 configured, last sent day 0 at 09:00:30, run on day 1 at 08:59:45: the computed instant is day 0 09:00:45, after the watermark, so the tier is due before 09:00; a run at 09:00:10 is due again | the instant is the configured hh:mm:00, the latest at or before now | high, not executed | Schedule.DailyDueBeforeSendTime | Schedule.MostRecentDaily |
| ckanext/subscribe/notification.py:192-201 | the weekly instant replaces only day, hour and minute, so it keeps now's seconds and microseconds | Friday 09:00 configured, last sent Friday 09:00:30, run the next Friday at 08:59:45: the computed instant is the earlier Friday 09:00:45, after the watermark, so the digest goes out before 09:00 | the instant is the configured weekday at hh:mm:00, the latest at or before now | high, not executed | Schedule.WeeklyDueBeforeSendTime | Schedule.MostRecentWeekly |
