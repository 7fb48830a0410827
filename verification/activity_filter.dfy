/** `utils.filter_activities`: the activity query the engine reads its
    candidates from. */
module ActivityFilter {
  import opened Common
  import opened CkanObjects

  /** The query's condition on one row: strictly newer than the floor, on an
      object somebody is subscribed to. */
  predicate Selected(a: Activity, includeFrom: Time, objectIds: set<string>)
  {
    a.timestamp > includeFrom && a.objectId in objectIds
  }

  /** The rows of `feed` that are newer than `includeFrom` and concern one of
      `objectIds`, in feed order. */
  function FilterActivities(feed: seq<Activity>, includeFrom: Time, objectIds: set<string>): (r: seq<Activity>)
    ensures |r| <= |feed|
    ensures forall a :: a in r ==> a in feed && a.timestamp > includeFrom && a.objectId in objectIds
    ensures forall a :: a in feed && a.timestamp > includeFrom && a.objectId in objectIds ==> a in r
    ensures forall a :: a in feed && a.timestamp == includeFrom ==> a !in r
    ensures objectIds == {} ==> r == []
  {
    if |feed| == 0 then []
    else
      var rest := FilterActivities(feed[1..], includeFrom, objectIds);
      if Selected(feed[0], includeFrom, objectIds) then [feed[0]] + rest else rest
  }

  /** Filtering a concatenated feed filters each part and keeps their order. */
  lemma {:induction false} FilterConcat(f1: seq<Activity>, f2: seq<Activity>, includeFrom: Time, objectIds: set<string>)
    ensures FilterActivities(f1 + f2, includeFrom, objectIds)
         == FilterActivities(f1, includeFrom, objectIds) + FilterActivities(f2, includeFrom, objectIds)
  {
    if |f1| == 0 {
      assert f1 + f2 == f2;
    } else {
      assert (f1 + f2)[1..] == f1[1..] + f2;
      FilterConcat(f1[1..], f2, includeFrom, objectIds);
    }
  }

  /** A floor at or after every row's timestamp selects nothing. */
  lemma FilterPastFeedIsEmpty(feed: seq<Activity>, includeFrom: Time, objectIds: set<string>)
    requires forall a :: a in feed ==> a.timestamp <= includeFrom
    ensures FilterActivities(feed, includeFrom, objectIds) == []
  {
  }
}
