/** `notification.get_notifications_by_email` and `dictize_notifications`:
    fan activities out to the subscriptions listening to their object and
    group the result by email address. The source's nested
    `defaultdict` (email -> subscription -> activities), which keeps keys in
    insertion order, is an association list here. */
module Grouping {
  import opened Common
  import opened CkanObjects
  import opened SubscribeModel
  import opened SubscribedObjects
  import Dictization

  /** The activities gathered for one subscription. */
  datatype Entry = Entry(subscription: Subscription, activities: seq<Activity>)

  /** Everything gathered for one email address. */
  datatype EmailGroup = EmailGroup(email: string, entries: seq<Entry>)

  type Grouped = seq<EmailGroup>

  /** The key of a group: its email address. */
  function GroupEmail(e: EmailGroup): string
  {
    e.email
  }

  /** The key of an entry: its subscription. */
  function EntrySubscription(e: Entry): Subscription
  {
    e.subscription
  }

  /** Position of the group for `email`, if there is one. */
  function EmailIndex(g: Grouped, email: string): Option<nat>
  {
    FirstIndex(g, GroupEmail, email)
  }

  /** Position of the entry for `s`, if there is one. */
  function EntryIndex(es: seq<Entry>, s: Subscription): Option<nat>
  {
    FirstIndex(es, EntrySubscription, s)
  }

  /** No subscription has two entries. */
  ghost predicate DistinctEntries(es: seq<Entry>)
  {
    forall j, k :: 0 <= j < k < |es| ==> es[j].subscription != es[k].subscription
  }

  /** A group holds at least one entry, each entry belongs to a subscription
      of the group's address and holds at least one activity, and no
      subscription has two entries. */
  ghost predicate GroupWellFormed(e: EmailGroup)
  {
    && |e.entries| > 0
    && (forall j :: 0 <= j < |e.entries| ==> e.entries[j].subscription.email == e.email)
    && (forall j :: 0 <= j < |e.entries| ==> |e.entries[j].activities| > 0)
    && DistinctEntries(e.entries)
  }

  /** No address has two groups, and every group is well formed. */
  ghost predicate WellFormed(g: Grouped)
  {
    && (forall i, j :: 0 <= i < j < |g| ==> g[i].email != g[j].email)
    && (forall i :: 0 <= i < |g| ==> GroupWellFormed(g[i]))
  }

  /** The activities gathered for `s` among `es` (none if it has no entry). */
  function EntryActivities(es: seq<Entry>, s: Subscription): seq<Activity>
  {
    match EntryIndex(es, s)
    case None => []
    case Some(j) => es[j].activities
  }

  /** The activities gathered for `s`, looked up under its address. */
  function Lookup(g: Grouped, s: Subscription): seq<Activity>
  {
    match EmailIndex(g, s.email)
    case None => []
    case Some(i) => EntryActivities(g[i].entries, s)
  }

  lemma EntryIndexIs(es: seq<Entry>, s: Subscription, j: nat)
    requires j < |es| && es[j].subscription == s
    requires forall k :: 0 <= k < j ==> es[k].subscription != s
    ensures EntryIndex(es, s) == Some(j)
  {
  }

  lemma EmailIndexIs(g: Grouped, email: string, i: nat)
    requires i < |g| && g[i].email == email
    requires forall k :: 0 <= k < i ==> g[k].email != email
    ensures EmailIndex(g, email) == Some(i)
  {
  }

  /** `notifications[email][s].append(a)` on the entries of one address. */
  function AppendEntry(es: seq<Entry>, s: Subscription, a: Activity): seq<Entry>
  {
    match EntryIndex(es, s)
    case None => es + [Entry(s, [a])]
    case Some(j) => es[j := Entry(s, es[j].activities + [a])]
  }

  lemma AppendEntryWellFormed(email: string, es: seq<Entry>, s: Subscription, a: Activity)
    requires s.email == email
    requires es == [] || GroupWellFormed(EmailGroup(email, es))
    ensures GroupWellFormed(EmailGroup(email, AppendEntry(es, s, a)))
  {
  }

  /** Appending for `s` extends what `s` has gathered by `a` and leaves
      every other subscription's activities alone. */
  lemma AppendEntryLookup(es: seq<Entry>, s: Subscription, a: Activity, t: Subscription)
    ensures EntryActivities(AppendEntry(es, s, a), t) == EntryActivities(es, t) + (if t == s then [a] else [])
  {
    var es' := AppendEntry(es, s, a);
    match EntryIndex(es, s)
    case None =>
      if t == s {
        EntryIndexIs(es', s, |es|);
      } else {
        match EntryIndex(es, t)
        case None =>
        case Some(k) => EntryIndexIs(es', t, k);
      }
    case Some(j) =>
      if t == s {
        EntryIndexIs(es', s, j);
      } else {
        match EntryIndex(es, t)
        case None =>
        case Some(k) => EntryIndexIs(es', t, k);
      }
  }

  /** `notifications[s.email][s].append(a)`: the group for the address is
      created at the end when missing, and so is the entry within it. */
  function AddActivity(g: Grouped, s: Subscription, a: Activity): Grouped
  {
    match EmailIndex(g, s.email)
    case None => g + [EmailGroup(s.email, [Entry(s, [a])])]
    case Some(i) => g[i := EmailGroup(s.email, AppendEntry(g[i].entries, s, a))]
  }

  /** Adding an activity keeps the grouping well formed. */
  lemma AddActivityWellFormed(g: Grouped, s: Subscription, a: Activity)
    requires WellFormed(g)
    ensures WellFormed(AddActivity(g, s, a))
  {
    match EmailIndex(g, s.email)
    case None =>
      AppendEntryWellFormed(s.email, [], s, a);
      assert AddActivity(g, s, a)[|g|] == EmailGroup(s.email, AppendEntry([], s, a));
    case Some(i) =>
      AppendEntryWellFormed(s.email, g[i].entries, s, a);
  }

  /** Adding `a` for `s` appends `a` to what `s` has gathered and changes
      nothing for subscription `t` when `t` is another one. */
  lemma AddActivityLookup(g: Grouped, s: Subscription, a: Activity, t: Subscription)
    ensures Lookup(AddActivity(g, s, a), t) == Lookup(g, t) + (if t == s then [a] else [])
  {
    var g' := AddActivity(g, s, a);
    match EmailIndex(g, s.email)
    case None =>
      if t.email == s.email {
        EmailIndexIs(g', s.email, |g|);
        AppendEntryLookup([], s, a, t);
        assert g'[|g|].entries == AppendEntry([], s, a);
      } else {
        match EmailIndex(g, t.email)
        case None =>
        case Some(k) => EmailIndexIs(g', t.email, k);
      }
    case Some(i) =>
      if t.email == s.email {
        EmailIndexIs(g', s.email, i);
        AppendEntryLookup(g[i].entries, s, a, t);
      } else {
        match EmailIndex(g, t.email)
        case None =>
        case Some(k) => EmailIndexIs(g', t.email, k);
      }
  }

  /** How often `x` occurs in `xs`. */
  function Occurrences<T(==)>(xs: seq<T>, x: T): nat
  {
    if |xs| == 0 then 0 else (if xs[0] == x then 1 else 0) + Occurrences(xs[1..], x)
  }

  /** `n` copies of `a`. */
  function Repeat<T>(a: T, n: nat): (r: seq<T>)
    ensures |r| == n
    ensures forall x :: x in r ==> x == a
  {
    if n == 0 then [] else [a] + Repeat(a, n - 1)
  }

  /** The inner loop over `subscriptions` for one activity, skipping the
      subscriptions created after the activity. */
  function FanOut(g: Grouped, subscriptions: seq<Subscription>, a: Activity): Grouped
    decreases |subscriptions|
  {
    if |subscriptions| == 0 then g
    else
      FanOut(Step(g, subscriptions[0], a), subscriptions[1..], a)
  }

  /** One turn of the inner loop: `s` is skipped when created after `a`. */
  function Step(g: Grouped, s: Subscription, a: Activity): Grouped
  {
    if s.created > a.timestamp then g else AddActivity(g, s, a)
  }

  lemma StepLookup(g: Grouped, s: Subscription, a: Activity, t: Subscription)
    ensures Lookup(Step(g, s, a), t) == Lookup(g, t) + (if s.created <= a.timestamp && t == s then [a] else [])
  {
    if s.created <= a.timestamp {
      AddActivityLookup(g, s, a, t);
    } else {
      assert Lookup(g, t) + [] == Lookup(g, t);
    }
  }

  /** What one activity contributes to what `s` is told: one copy per time
      `s` is listed for the activity's object, none if `s` is newer. */
  function Contribution(a: Activity, index: Index, s: Subscription): seq<Activity>
  {
    FanOutShare(Subscribers(index, a.objectId), a, s)
  }

  lemma {:induction false} FanOutWellFormed(g: Grouped, subscriptions: seq<Subscription>, a: Activity)
    requires WellFormed(g)
    ensures WellFormed(FanOut(g, subscriptions, a))
    decreases |subscriptions|
  {
    if |subscriptions| > 0 {
      if subscriptions[0].created <= a.timestamp {
        AddActivityWellFormed(g, subscriptions[0], a);
      }
      FanOutWellFormed(Step(g, subscriptions[0], a), subscriptions[1..], a);
    }
  }

  lemma RepeatOccurrences(a: Activity, subscriptions: seq<Subscription>, t: Subscription)
    requires |subscriptions| > 0
    ensures Repeat(a, Occurrences(subscriptions, t)) ==
            (if subscriptions[0] == t then [a] else []) + Repeat(a, Occurrences(subscriptions[1..], t))
  {
  }

  /** What the inner loop adds for `t` on top of what `g` holds. */
  function FanOutShare(subscriptions: seq<Subscription>, a: Activity, t: Subscription): seq<Activity>
  {
    if t.created <= a.timestamp then Repeat(a, Occurrences(subscriptions, t)) else []
  }

  lemma FanOutShareCons(subscriptions: seq<Subscription>, a: Activity, t: Subscription)
    requires |subscriptions| > 0
    ensures FanOutShare(subscriptions, a, t) ==
            (if subscriptions[0].created <= a.timestamp && t == subscriptions[0] then [a] else []) +
            FanOutShare(subscriptions[1..], a, t)
  {
    RepeatOccurrences(a, subscriptions, t);
  }

  lemma Regroup<T>(x: seq<T>, y: seq<T>, z: seq<T>, w: seq<T>)
    requires w == y + z
    ensures (x + y) + z == x + w
  {
  }

  lemma {:induction false} FanOutLookup(g: Grouped, subscriptions: seq<Subscription>, a: Activity, t: Subscription)
    ensures Lookup(FanOut(g, subscriptions, a), t) == Lookup(g, t) + FanOutShare(subscriptions, a, t)
    decreases |subscriptions|
  {
    if |subscriptions| > 0 {
      var s := subscriptions[0];
      var rest := subscriptions[1..];
      var g' := Step(g, s, a);
      var mine := if s.created <= a.timestamp && t == s then [a] else [];
      StepLookup(g, s, a, t);
      FanOutLookup(g', rest, a, t);
      FanOutShareCons(subscriptions, a, t);
      Regroup(Lookup(g, t), mine, FanOutShare(rest, a, t), FanOutShare(subscriptions, a, t));
    } else {
      assert Lookup(g, t) + [] == Lookup(g, t);
    }
  }

  /** The outer loop over the activities, in order. */
  function GroupActivities(activities: seq<Activity>, index: Index): Grouped
  {
    if |activities| == 0 then []
    else
      var last := activities[|activities| - 1];
      FanOut(GroupActivities(activities[..|activities| - 1], index), Subscribers(index, last.objectId), last)
  }

  /** What `s` should be told about `activities`, by definition: in feed
      order, each activity `s` is listed for and that is not older than `s`. */
  function Matching(activities: seq<Activity>, index: Index, s: Subscription): seq<Activity>
  {
    if |activities| == 0 then [] else Contribution(activities[0], index, s) + Matching(activities[1..], index, s)
  }

  lemma {:induction false} MatchingSnoc(activities: seq<Activity>, a: Activity, index: Index, s: Subscription)
    ensures Matching(activities + [a], index, s) == Matching(activities, index, s) + Contribution(a, index, s)
  {
    if |activities| == 0 {
      assert Matching([a], index, s) == Contribution(a, index, s) + Matching([], index, s);
    } else {
      assert (activities + [a])[1..] == activities[1..] + [a];
      MatchingSnoc(activities[1..], a, index, s);
    }
  }

  lemma {:induction false} GroupActivitiesWellFormed(activities: seq<Activity>, index: Index)
    ensures WellFormed(GroupActivities(activities, index))
  {
    if |activities| > 0 {
      var prefix := activities[..|activities| - 1];
      var last := activities[|activities| - 1];
      GroupActivitiesWellFormed(prefix, index);
      FanOutWellFormed(GroupActivities(prefix, index), Subscribers(index, last.objectId), last);
    }
  }

  /** The grouping gathers for subscription `t` exactly what `Matching`
      says. */
  lemma {:induction false} GroupActivitiesLookup(activities: seq<Activity>, index: Index, t: Subscription)
    ensures Lookup(GroupActivities(activities, index), t) == Matching(activities, index, t)
  {
    if |activities| > 0 {
      var prefix := activities[..|activities| - 1];
      var last := activities[|activities| - 1];
      var before := GroupActivities(prefix, index);
      var listed := Subscribers(index, last.objectId);
      assert Lookup(GroupActivities(activities, index), t) == Lookup(before, t) + Contribution(last, index, t) by {
        assert GroupActivities(activities, index) == FanOut(before, listed, last);
        FanOutLookup(before, listed, last, t);
      }
      assert Lookup(before, t) == Matching(prefix, index, t) by {
        GroupActivitiesLookup(prefix, index, t);
      }
      assert Matching(activities, index, t) == Matching(prefix, index, t) + Contribution(last, index, t) by {
        assert activities == prefix + [last];
        MatchingSnoc(prefix, last, index, t);
      }
    }
  }

  /** In a well-formed grouping every entry holds what `Lookup` finds for
      its subscription. */
  lemma LookupAt(g: Grouped, i: nat, j: nat)
    requires WellFormed(g)
    requires i < |g| && j < |g[i].entries|
    ensures Lookup(g, g[i].entries[j].subscription) == g[i].entries[j].activities
  {
    var s := g[i].entries[j].subscription;
    assert GroupWellFormed(g[i]);
    EmailIndexIs(g, s.email, i);
    EntryIndexIs(g[i].entries, s, j);
  }

  /** A subscription that has gathered something has an entry, filed under
      its own address. */
  lemma LookupPresent(g: Grouped, s: Subscription) returns (i: nat, j: nat)
    requires |Lookup(g, s)| > 0
    ensures i < |g| && j < |g[i].entries|
    ensures g[i].email == s.email && g[i].entries[j].subscription == s
  {
    i := EmailIndex(g, s.email).value;
    j := EntryIndex(g[i].entries, s).value;
  }

  /** An activity reaches `s` exactly when it is in the feed, `s` is listed
      for the activity's object, and `s` is not newer than the activity. */
  lemma {:induction false} MatchingMember(activities: seq<Activity>, index: Index, s: Subscription, a: Activity)
    ensures a in Matching(activities, index, s) <==>
              a in activities && s in Subscribers(index, a.objectId) && s.created <= a.timestamp
  {
    if |activities| > 0 {
      var b := activities[0];
      MatchingMember(activities[1..], index, s, a);
      assert activities == [b] + activities[1..];
      if s in Subscribers(index, b.objectId) && s.created <= b.timestamp {
        OccurrencesPositive(Subscribers(index, b.objectId), s);
        assert b in Contribution(b, index, s);
      }
      if a in Contribution(b, index, s) {
        OccurrencesPositive(Subscribers(index, b.objectId), s);
      }
    }
  }

  lemma {:induction false} OccurrencesPositive<T>(xs: seq<T>, x: T)
    ensures x in xs <==> Occurrences(xs, x) > 0
  {
    if |xs| > 0 {
      OccurrencesPositive(xs[1..], x);
      assert xs == [xs[0]] + xs[1..];
    }
  }

  /** Each entry of the grouping holds exactly the activities its
      subscription should be told, never none, and sits under the
      subscription's own address. */
  lemma GroupedEntry(activities: seq<Activity>, index: Index, i: nat, j: nat)
    requires i < |GroupActivities(activities, index)|
    requires j < |GroupActivities(activities, index)[i].entries|
    ensures var e := GroupActivities(activities, index)[i].entries[j];
      && e.activities == Matching(activities, index, e.subscription)
      && |e.activities| > 0
      && e.subscription.email == GroupActivities(activities, index)[i].email
  {
    var g := GroupActivities(activities, index);
    GroupActivitiesWellFormed(activities, index);
    assert GroupWellFormed(g[i]);
    LookupAt(g, i, j);
    GroupActivitiesLookup(activities, index, g[i].entries[j].subscription);
  }

  /** Every subscription that should be told something has an entry. */
  lemma GroupedFind(activities: seq<Activity>, index: Index, s: Subscription) returns (i: nat, j: nat)
    requires |Matching(activities, index, s)| > 0
    ensures i < |GroupActivities(activities, index)|
    ensures j < |GroupActivities(activities, index)[i].entries|
    ensures GroupActivities(activities, index)[i].entries[j].subscription == s
    ensures GroupActivities(activities, index)[i].email == s.email
  {
    GroupActivitiesLookup(activities, index, s);
    i, j := LookupPresent(GroupActivities(activities, index), s);
  }

  // Dictizing the grouping: `dictize_notifications` for each address, in
  // the order the addresses were first met. `activity_list_dictize` is the
  // identity here.

  /** One subscription with the activities it is told about. */
  datatype Notification = Notification(subscription: Dictization.Dict, activities: seq<Activity>)

  /** Everything one address is sent in one email. */
  datatype Bundle = Bundle(email: string, notifications: seq<Notification>)

  /** `dictize_subscription(subscription, context)`: no object name, so the
      package and group maps are never consulted. */
  function SubscriptionDict(s: Subscription): Result<Dictization.Dict>
  {
    Dictization.DictizeSubscription(s, false, map[], map[])
  }

  function DictizeEntry(e: Entry): Result<Notification>
  {
    match SubscriptionDict(e.subscription)
    case Failure(msg) => Failure(msg)
    case Success(d) => Success(Notification(d, e.activities))
  }

  /** `dictize_notifications`: one notification per entry, in entry order;
      the first subscription that cannot be dictized aborts the lot. */
  function DictizeNotifications(es: seq<Entry>): (r: Result<seq<Notification>>)
    ensures r.Success? <==> forall j :: 0 <= j < |es| ==> DictizeEntry(es[j]).Success?
    ensures r.Success? ==> |r.value| == |es|
    ensures r.Success? ==> forall j :: 0 <= j < |es| ==> r.value[j] == DictizeEntry(es[j]).value
  {
    if |es| == 0 then Success([])
    else
      var head := DictizeEntry(es[0]);
      var rest := DictizeNotifications(es[1..]);
      if head.Failure? then Failure(head.error)
      else if rest.Failure? then Failure(rest.error)
      else Success([head.value] + rest.value)
  }

  function DictizeGroup(e: EmailGroup): Result<Bundle>
  {
    match DictizeNotifications(e.entries)
    case Failure(msg) => Failure(msg)
    case Success(ns) => Success(Bundle(e.email, ns))
  }

  /** The dictizing loop of `get_notifications_by_email`, address by address. */
  function DictizeGroups(g: Grouped): (r: Result<seq<Bundle>>)
    ensures r.Success? <==> forall i :: 0 <= i < |g| ==> DictizeGroup(g[i]).Success?
    ensures r.Success? ==> |r.value| == |g|
    ensures r.Success? ==> forall i :: 0 <= i < |g| ==> r.value[i] == DictizeGroup(g[i]).value
  {
    if |g| == 0 then Success([])
    else
      var head := DictizeGroup(g[0]);
      var rest := DictizeGroups(g[1..]);
      if head.Failure? then Failure(head.error)
      else if rest.Failure? then Failure(rest.error)
      else Success([head.value] + rest.value)
  }

  /** `get_notifications_by_email`: fan out, group by address, dictize. */
  function NotificationsByEmail(activities: seq<Activity>, index: Index): Result<seq<Bundle>>
  {
    DictizeGroups(GroupActivities(activities, index))
  }

  /** Every subscription the mapping lists has frequency `f`. */
  ghost predicate ListsOnly(index: Index, f: Frequency)
  {
    forall k, t :: k in index && t in index[k] ==> t.frequency == Some(f.Value())
  }

  lemma EntryOfIndex(activities: seq<Activity>, index: Index, s: Subscription)
    requires |Matching(activities, index, s)| > 0
    ensures exists k :: k in index && s in index[k]
  {
    var a := Matching(activities, index, s)[0];
    MatchingMember(activities, index, s, a);
  }

  /** An entry of a subscription with frequency `f` dictizes into a
      notification for `f` and the subscription's address. */
  lemma DictizeEntryFits(e: Entry, f: Frequency)
    requires e.subscription.frequency == Some(f.Value())
    requires |e.activities| > 0
    ensures DictizeEntry(e).Success?
    ensures NotificationFits(DictizeEntry(e).value, e.subscription.email, f)
  {
    Dictization.DictizeValidFrequency(e.subscription, f, map[], map[]);
  }

  lemma EntryDictized(activities: seq<Activity>, index: Index, f: Frequency, i: nat, j: nat)
    requires ListsOnly(index, f)
    requires i < |GroupActivities(activities, index)|
    requires j < |GroupActivities(activities, index)[i].entries|
    ensures DictizeEntry(GroupActivities(activities, index)[i].entries[j]).Success?
    ensures NotificationFits(DictizeEntry(GroupActivities(activities, index)[i].entries[j]).value,
                             GroupActivities(activities, index)[i].email, f)
  {
    var e := GroupActivities(activities, index)[i].entries[j];
    GroupedEntry(activities, index, i, j);
    EntryOfIndex(activities, index, e.subscription);
    DictizeEntryFits(e, f);
  }

  /** When every entry dictizes, so does the grouping: address by address
      and entry by entry, in order. */
  lemma DictizeGroupsAll(g: Grouped)
    requires forall i, j :: 0 <= i < |g| && 0 <= j < |g[i].entries| ==> DictizeEntry(g[i].entries[j]).Success?
    ensures DictizeGroups(g).Success?
    ensures forall i :: 0 <= i < |g| ==> DictizeGroups(g).value[i].email == g[i].email
    ensures forall i :: 0 <= i < |g| ==> |DictizeGroups(g).value[i].notifications| == |g[i].entries|
    ensures forall i, j :: 0 <= i < |g| && 0 <= j < |g[i].entries| ==>
              DictizeGroups(g).value[i].notifications[j] == DictizeEntry(g[i].entries[j]).value
  {
    forall i | 0 <= i < |g| ensures DictizeGroup(g[i]).Success? {
      assert forall j :: 0 <= j < |g[i].entries| ==> DictizeEntry(g[i].entries[j]).Success?;
    }
  }

  /** When the mapping lists only subscriptions of frequency `f` (as the
      mapping for `f` does), dictizing cannot fail; the result has one bundle
      per address, no address twice, and in every bundle each notification
      names `f`, belongs to the bundle's address and carries at least one
      activity. */
  lemma NotificationsByEmailShape(activities: seq<Activity>, index: Index, f: Frequency)
    requires ListsOnly(index, f)
    ensures NotificationsByEmail(activities, index).Success?
    ensures var bs := NotificationsByEmail(activities, index).value;
      forall i, i' :: 0 <= i < i' < |bs| ==> bs[i].email != bs[i'].email
    ensures var bs := NotificationsByEmail(activities, index).value;
      forall i :: 0 <= i < |bs| ==> |bs[i].notifications| > 0
    ensures var bs := NotificationsByEmail(activities, index).value;
      forall i, j :: 0 <= i < |bs| && 0 <= j < |bs[i].notifications| ==>
        NotificationFits(bs[i].notifications[j], bs[i].email, f)
  {
    var g := GroupActivities(activities, index);
    EntriesDictized(activities, index, f, g);
    DictizeGroupsAll(g);
    GroupedAddresses(activities, index, g);
  }

  lemma EntriesDictized(activities: seq<Activity>, index: Index, f: Frequency, g: Grouped)
    requires ListsOnly(index, f)
    requires g == GroupActivities(activities, index)
    ensures forall i, j :: 0 <= i < |g| && 0 <= j < |g[i].entries| ==> DictizeEntry(g[i].entries[j]).Success?
    ensures forall i, j :: 0 <= i < |g| && 0 <= j < |g[i].entries| ==>
              NotificationFits(DictizeEntry(g[i].entries[j]).value, g[i].email, f)
  {
    forall i, j | 0 <= i < |g| && 0 <= j < |g[i].entries|
      ensures DictizeEntry(g[i].entries[j]).Success?
      ensures NotificationFits(DictizeEntry(g[i].entries[j]).value, g[i].email, f)
    {
      EntryDictized(activities, index, f, i, j);
    }
  }

  /** No address has two groups, and no group is empty. */
  lemma GroupedAddresses(activities: seq<Activity>, index: Index, g: Grouped)
    requires g == GroupActivities(activities, index)
    ensures forall i, i' :: 0 <= i < i' < |g| ==> g[i].email != g[i'].email
    ensures forall i :: 0 <= i < |g| ==> |g[i].entries| > 0
  {
    GroupActivitiesWellFormed(activities, index);
    forall i | 0 <= i < |g| ensures |g[i].entries| > 0 {
      assert GroupWellFormed(g[i]);
    }
  }

  /** A notification sent to `email` for frequency `f`. */
  ghost predicate NotificationFits(n: Notification, email: string, f: Frequency)
  {
    && "frequency" in n.subscription && n.subscription["frequency"] == Dictization.Str(f.Name())
    && "email" in n.subscription && n.subscription["email"] == Dictization.Str(email)
    && |n.activities| > 0
  }

  /** The dictized form of `t` with what `t` should be told. */
  ghost predicate Reports(n: Notification, activities: seq<Activity>, index: Index, t: Subscription)
  {
    SubscriptionDict(t).Success? && n == Notification(SubscriptionDict(t).value, Matching(activities, index, t))
  }

  /** What reaches an address, subscription by subscription: a subscription
      that should be told something has a notification in its address's
      bundle carrying exactly those activities. */
  lemma NotificationsByEmailComplete(activities: seq<Activity>, index: Index, s: Subscription) returns (i: nat, j: nat)
    requires NotificationsByEmail(activities, index).Success?
    requires |Matching(activities, index, s)| > 0
    ensures i < |NotificationsByEmail(activities, index).value|
    ensures j < |NotificationsByEmail(activities, index).value[i].notifications|
    ensures NotificationsByEmail(activities, index).value[i].email == s.email
    ensures Reports(NotificationsByEmail(activities, index).value[i].notifications[j], activities, index, s)
  {
    var g := GroupActivities(activities, index);
    i, j := GroupedFind(activities, index, s);
    GroupedEntry(activities, index, i, j);
    assert DictizeGroup(g[i]).Success?;
  }

  /** Every notification reports a subscription of the bundle's address
      with exactly what that subscription should be told. */
  lemma NotificationsByEmailSound(activities: seq<Activity>, index: Index, i: nat, j: nat) returns (t: Subscription)
    requires NotificationsByEmail(activities, index).Success?
    requires i < |NotificationsByEmail(activities, index).value|
    requires j < |NotificationsByEmail(activities, index).value[i].notifications|
    ensures t.email == NotificationsByEmail(activities, index).value[i].email
    ensures Reports(NotificationsByEmail(activities, index).value[i].notifications[j], activities, index, t)
  {
    var g := GroupActivities(activities, index);
    assert DictizeGroup(g[i]).Success?;
    t := g[i].entries[j].subscription;
    GroupedEntry(activities, index, i, j);
  }
}
