/** `notification.py`: the look-back floor of each tier, the selection of
    what to send, and the dispatch functions that send it and move the
    tier's watermark. Clock reads become the `now` parameter; the emails
    handed to `send_emails` are returned instead of sent. */
module Notification {
  import opened Common
  import opened CkanObjects
  import opened SubscribeModel
  import opened Schedule
  import opened ActivityFilter
  import opened SubscribedObjects
  import opened Grouping

  // ---------------------------------------------------------------------
  // Look-back floors

  /** `get_immediate_notifications`: read back over the catch-up period,
      but never before the watermark. */
  function ImmediateFloor(cfg: Config, now: Time, lastSent: Option<Time>): (floor: Time)
    ensures floor >= now - cfg.catchUp
    ensures lastSent.None? ==> floor == now - cfg.catchUp
    ensures lastSent.Some? ==> floor >= lastSent.value
    ensures lastSent.Some? ==> floor == lastSent.value || floor == now - cfg.catchUp
  {
    match lastSent
    case None => now - cfg.catchUp
    case Some(w) => Max(w, now - cfg.catchUp)
  }

  /** `get_daily_notifications` / `get_weekly_notifications`: one period back
      on the first run; afterwards from the watermark, but never more than a
      period plus the catch-up period back. */
  function PeriodicFloor(cfg: Config, now: Time, period: int, lastSent: Option<Time>): (floor: Time)
    ensures lastSent.None? ==> floor == now - period
    ensures lastSent.Some? ==> floor >= lastSent.value && floor >= now - period - cfg.catchUp
    ensures lastSent.Some? ==> floor == lastSent.value || floor == now - period - cfg.catchUp
  {
    match lastSent
    case None => now - period
    case Some(w) => Max(w, now - period - cfg.catchUp)
  }

  /** The floor of tier `f`. */
  function Floor(cfg: Config, f: Frequency, now: Time, lastSent: Option<Time>): Time
  {
    match f
    case Immediate => ImmediateFloor(cfg, now, lastSent)
    case Daily => PeriodicFloor(cfg, now, DAY, lastSent)
    case Weekly => PeriodicFloor(cfg, now, WEEK, lastSent)
  }

  /** After a run that set the watermark to `t1`, the next run at `t2` reads
      from exactly `t1` as long as it comes within a period (plus the
      catch-up period, for the daily and weekly tiers) of it. */
  lemma FloorAfterRun(cfg: Config, f: Frequency, t1: Time, t2: Time)
    requires t1 <= t2
    requires f == Immediate ==> t2 - t1 <= cfg.catchUp
    requires f == Daily ==> t2 - t1 <= DAY + cfg.catchUp
    requires f == Weekly ==> t2 - t1 <= WEEK + cfg.catchUp
    ensures Floor(cfg, f, t2, Some(t1)) == t1
  {
  }

  // ---------------------------------------------------------------------
  // Selecting what to send

  /** Every subscription the mapping for `f` lists has frequency `f`. */
  lemma IndexListsOnly(site: Site, f: Frequency)
    ensures ListsOnly(ObjectsSubscribedTo(site, f.Value()), f)
  {
    var index := ObjectsSubscribedTo(site, f.Value());
    forall k, t: Subscription | k in index && t in index[k] ensures t.frequency == Some(f.Value()) {
      ObjectsSubscribedToMember(site, f.Value(), k, t);
    }
  }

  /** The activities tier `f` reads: the feed after the floor, on objects
      somebody is subscribed to. */
  function Candidates(cfg: Config, site: Site, feed: seq<Activity>, lastSent: Option<Time>,
                      f: Frequency, now: Time): seq<Activity>
  {
    var index := ObjectsSubscribedTo(site, f.Value());
    FilterActivities(feed, Floor(cfg, f, now, lastSent), index.Keys)
  }

  /** `get_immediate_notifications`, `get_daily_notifications` and
      `get_weekly_notifications`: nothing when nobody is subscribed to
      anything or no activity qualifies, else the activities grouped by
      address. Dictizing cannot fail here, since the mapping only lists
      subscriptions of the tier's frequency. */
  function GetNotifications(cfg: Config, site: Site, feed: seq<Activity>, lastSent: Option<Time>,
                            f: Frequency, now: Time): (bundles: seq<Bundle>)
    ensures forall i, i' :: 0 <= i < i' < |bundles| ==> bundles[i].email != bundles[i'].email
    ensures forall i, j :: 0 <= i < |bundles| && 0 <= j < |bundles[i].notifications| ==>
              NotificationFits(bundles[i].notifications[j], bundles[i].email, f)
    ensures forall i :: 0 <= i < |bundles| ==> |bundles[i].notifications| > 0
    ensures Candidates(cfg, site, feed, lastSent, f, now) == [] ==> bundles == []
  {
    var index := ObjectsSubscribedTo(site, f.Value());
    if |index| == 0 then []
    else
      var activities := Candidates(cfg, site, feed, lastSent, f, now);
      if |activities| == 0 then []
      else
        IndexListsOnly(site, f);
        NotificationsByEmailShape(activities, index, f);
        NotificationsByEmail(activities, index).value
  }

  /** What subscription `s` of tier `f` should be told: each activity of the
      feed after the floor, on an object `s` covers, and not older than `s`. */
  ghost predicate Deserves(cfg: Config, site: Site, feed: seq<Activity>, lastSent: Option<Time>,
                           f: Frequency, now: Time, s: Subscription, a: Activity)
  {
    && s in site.subscriptions && Eligible(s, f.Value())
    && a in feed && a.timestamp > Floor(cfg, f, now, lastSent)
    && Covers(site, s, a.objectId)
    && s.created <= a.timestamp
  }

  lemma CandidatesMatching(cfg: Config, site: Site, feed: seq<Activity>, lastSent: Option<Time>,
                           f: Frequency, now: Time, s: Subscription, a: Activity)
    ensures a in Matching(Candidates(cfg, site, feed, lastSent, f, now), ObjectsSubscribedTo(site, f.Value()), s)
            <==> Deserves(cfg, site, feed, lastSent, f, now, s, a)
  {
    var index := ObjectsSubscribedTo(site, f.Value());
    var activities := Candidates(cfg, site, feed, lastSent, f, now);
    MatchingMember(activities, index, s, a);
    ObjectsSubscribedToMember(site, f.Value(), a.objectId, s);
    ObjectsSubscribedToKeys(site, f.Value(), a.objectId);
  }

  /** Every notification of tier `f` reports one verified subscription of
      frequency `f` at the bundle's address, with activities that all are
      in the feed, after the floor, on an object the subscription covers and
      not older than it; and nothing it deserves is missing from it. */
  lemma GetNotificationsSound(cfg: Config, site: Site, feed: seq<Activity>, lastSent: Option<Time>,
                              f: Frequency, now: Time, i: nat, j: nat) returns (t: Subscription)
    requires i < |GetNotifications(cfg, site, feed, lastSent, f, now)|
    requires j < |GetNotifications(cfg, site, feed, lastSent, f, now)[i].notifications|
    ensures t.email == GetNotifications(cfg, site, feed, lastSent, f, now)[i].email
    ensures t in site.subscriptions && Eligible(t, f.Value())
    ensures var n := GetNotifications(cfg, site, feed, lastSent, f, now)[i].notifications[j];
      && Grouping.SubscriptionDict(t).Success?
      && n.subscription == Grouping.SubscriptionDict(t).value
      && (forall a :: a in n.activities <==> Deserves(cfg, site, feed, lastSent, f, now, t, a))
  {
    var index := ObjectsSubscribedTo(site, f.Value());
    var activities := Candidates(cfg, site, feed, lastSent, f, now);
    GetNotificationsIs(cfg, site, feed, lastSent, f, now);
    t := NotificationsByEmailSound(activities, index, i, j);
    var a0 := Matching(activities, index, t)[0];
    MatchingMember(activities, index, t, a0);
    ObjectsSubscribedToMember(site, f.Value(), a0.objectId, t);
    forall a ensures a in Matching(activities, index, t) <==> Deserves(cfg, site, feed, lastSent, f, now, t, a) {
      CandidatesMatching(cfg, site, feed, lastSent, f, now, t, a);
    }
  }

  /** With any candidate activity, the tier sends what grouping the
      candidates by address gives. */
  lemma GetNotificationsIs(cfg: Config, site: Site, feed: seq<Activity>, lastSent: Option<Time>,
                           f: Frequency, now: Time)
    requires Candidates(cfg, site, feed, lastSent, f, now) != []
    ensures NotificationsByEmail(Candidates(cfg, site, feed, lastSent, f, now), ObjectsSubscribedTo(site, f.Value())).Success?
    ensures GetNotifications(cfg, site, feed, lastSent, f, now) ==
            NotificationsByEmail(Candidates(cfg, site, feed, lastSent, f, now), ObjectsSubscribedTo(site, f.Value())).value
  {
    var index := ObjectsSubscribedTo(site, f.Value());
    IndexListsOnly(site, f);
    NotificationsByEmailShape(Candidates(cfg, site, feed, lastSent, f, now), index, f);
  }

  /** Every activity a subscription deserves reaches its address, in a
      notification for that subscription that carries everything it
      deserves. */
  lemma GetNotificationsComplete(cfg: Config, site: Site, feed: seq<Activity>, lastSent: Option<Time>,
                                 f: Frequency, now: Time, s: Subscription, a: Activity) returns (i: nat, j: nat)
    requires Deserves(cfg, site, feed, lastSent, f, now, s, a)
    ensures i < |GetNotifications(cfg, site, feed, lastSent, f, now)|
    ensures j < |GetNotifications(cfg, site, feed, lastSent, f, now)[i].notifications|
    ensures GetNotifications(cfg, site, feed, lastSent, f, now)[i].email == s.email
    ensures var n := GetNotifications(cfg, site, feed, lastSent, f, now)[i].notifications[j];
      && Grouping.SubscriptionDict(s).Success?
      && n.subscription == Grouping.SubscriptionDict(s).value
      && a in n.activities
  {
    var index := ObjectsSubscribedTo(site, f.Value());
    var activities := Candidates(cfg, site, feed, lastSent, f, now);
    CandidatesMatching(cfg, site, feed, lastSent, f, now, s, a);
    MatchingMember(activities, index, s, a);
    GetNotificationsIs(cfg, site, feed, lastSent, f, now);
    i, j := NotificationsByEmailComplete(activities, index, s);
  }

  // ---------------------------------------------------------------------
  // Dispatch

  /** The watermark store after a run, and the emails the run hands to
      `send_emails` (none when there is nothing to send). */
  datatype Run = Run(watermarks: seq<WatermarkRow>, sent: seq<Bundle>)

  /** `send_any_immediate_notifications`: send what is pending and record
      `now` as the immediate watermark, whether or not anything was sent. */
  function SendAnyImmediateNotifications(cfg: Config, site: Site, feed: seq<Activity>,
                                         watermarks: seq<WatermarkRow>, now: Time): (r: Run)
    ensures GetEmailsLastSent(r.watermarks, Immediate.Value()) == Some(now)
    ensures forall g :: g != Immediate.Value() ==> GetEmailsLastSent(r.watermarks, g) == GetEmailsLastSent(watermarks, g)
    ensures r.sent == GetNotifications(cfg, site, feed, GetEmailsLastSent(watermarks, Immediate.Value()), Immediate, now)
  {
    Run(SetEmailsLastSent(watermarks, Immediate.Value(), now),
        GetNotifications(cfg, site, feed, GetEmailsLastSent(watermarks, Immediate.Value()), Immediate, now))
  }

  /** `send_daily_notifications_if_its_time_to`: when the daily tier is not
      due nothing happens; otherwise send and record `now`. */
  function SendDailyIfItsTimeTo(cfg: Config, site: Site, feed: seq<Activity>,
                                watermarks: seq<WatermarkRow>, now: Time): (r: Run)
    ensures !IsDailyDue(cfg, now, GetEmailsLastSent(watermarks, Daily.Value())) ==> r == Run(watermarks, [])
    ensures IsDailyDue(cfg, now, GetEmailsLastSent(watermarks, Daily.Value())) ==>
              && GetEmailsLastSent(r.watermarks, Daily.Value()) == Some(now)
              && r.sent == GetNotifications(cfg, site, feed, GetEmailsLastSent(watermarks, Daily.Value()), Daily, now)
    ensures forall g :: g != Daily.Value() ==> GetEmailsLastSent(r.watermarks, g) == GetEmailsLastSent(watermarks, g)
  {
    if !IsDailyDue(cfg, now, GetEmailsLastSent(watermarks, Daily.Value())) then Run(watermarks, [])
    else Run(SetEmailsLastSent(watermarks, Daily.Value(), now), GetNotifications(cfg, site, feed, GetEmailsLastSent(watermarks, Daily.Value()), Daily, now))
  }

  /** `send_weekly_notifications_if_its_time_to`. */
  function SendWeeklyIfItsTimeTo(cfg: Config, site: Site, feed: seq<Activity>,
                                 watermarks: seq<WatermarkRow>, now: Time): (r: Run)
    ensures !IsWeeklyDue(cfg, now, GetEmailsLastSent(watermarks, Weekly.Value())) ==> r == Run(watermarks, [])
    ensures IsWeeklyDue(cfg, now, GetEmailsLastSent(watermarks, Weekly.Value())) ==>
              && GetEmailsLastSent(r.watermarks, Weekly.Value()) == Some(now)
              && r.sent == GetNotifications(cfg, site, feed, GetEmailsLastSent(watermarks, Weekly.Value()), Weekly, now)
    ensures forall g :: g != Weekly.Value() ==> GetEmailsLastSent(r.watermarks, g) == GetEmailsLastSent(watermarks, g)
  {
    if !IsWeeklyDue(cfg, now, GetEmailsLastSent(watermarks, Weekly.Value())) then Run(watermarks, [])
    else Run(SetEmailsLastSent(watermarks, Weekly.Value(), now), GetNotifications(cfg, site, feed, GetEmailsLastSent(watermarks, Weekly.Value()), Weekly, now))
  }

  /** After a daily run at `now`, the tier is due again at a later `now'`
      exactly when a scheduled send instant lies in between; in particular
      a second run at the same instant does nothing. */
  lemma DailyRunThenDue(cfg: Config, site: Site, feed: seq<Activity>, watermarks: seq<WatermarkRow>,
                        now: Time, now': Time)
    requires IsDailyDue(cfg, now, GetEmailsLastSent(watermarks, Daily.Value()))
    ensures var w := SendDailyIfItsTimeTo(cfg, site, feed, watermarks, now).watermarks;
      IsDailyDue(cfg, now', GetEmailsLastSent(w, Daily.Value())) <==>
        exists x :: IsDailySendInstant(cfg, x) && now < x <= now'
    ensures var w := SendDailyIfItsTimeTo(cfg, site, feed, watermarks, now).watermarks;
      SendDailyIfItsTimeTo(cfg, site, feed, w, now) == Run(w, [])
  {
  }

  /** The weekly counterpart of `DailyRunThenDue`. */
  lemma WeeklyRunThenDue(cfg: Config, site: Site, feed: seq<Activity>, watermarks: seq<WatermarkRow>,
                         now: Time, now': Time)
    requires IsWeeklyDue(cfg, now, GetEmailsLastSent(watermarks, Weekly.Value()))
    ensures var w := SendWeeklyIfItsTimeTo(cfg, site, feed, watermarks, now).watermarks;
      IsWeeklyDue(cfg, now', GetEmailsLastSent(w, Weekly.Value())) <==>
        exists x :: IsWeeklySendInstant(cfg, x) && now < x <= now'
    ensures var w := SendWeeklyIfItsTimeTo(cfg, site, feed, watermarks, now).watermarks;
      SendWeeklyIfItsTimeTo(cfg, site, feed, w, now) == Run(w, [])
  {
  }

  /** A second immediate run at the same instant sends nothing, as long as
      the feed holds no activity stamped after that instant. */
  lemma ImmediateRerunSendsNothing(cfg: Config, site: Site, feed: seq<Activity>,
                                   watermarks: seq<WatermarkRow>, now: Time)
    requires forall a :: a in feed ==> a.timestamp <= now
    ensures var w := SendAnyImmediateNotifications(cfg, site, feed, watermarks, now).watermarks;
      SendAnyImmediateNotifications(cfg, site, feed, w, now).sent == []
  {
    var w := SendAnyImmediateNotifications(cfg, site, feed, watermarks, now).watermarks;
    var index := ObjectsSubscribedTo(site, Immediate.Value());
    FilterPastFeedIsEmpty(feed, Floor(cfg, Immediate, now, GetEmailsLastSent(w, Immediate.Value())), index.Keys);
  }

  /** What tier `f` sends in a cycle that finds `lastSent` in the store:
      the immediate tier always runs, the others only when due. */
  function TierOutput(cfg: Config, site: Site, feed: seq<Activity>, lastSent: Option<Time>,
                      f: Frequency, now: Time): seq<Bundle>
  {
    match f
    case Immediate => GetNotifications(cfg, site, feed, lastSent, f, now)
    case Daily => if IsDailyDue(cfg, now, lastSent) then GetNotifications(cfg, site, feed, lastSent, f, now) else []
    case Weekly => if IsWeeklyDue(cfg, now, lastSent) then GetNotifications(cfg, site, feed, lastSent, f, now) else []
  }

  /** The watermark tier `f` leaves behind in a cycle that finds `lastSent`. */
  function TierWatermark(cfg: Config, lastSent: Option<Time>, f: Frequency, now: Time): Option<Time>
  {
    match f
    case Immediate => Some(now)
    case Daily => if IsDailyDue(cfg, now, lastSent) then Some(now) else lastSent
    case Weekly => if IsWeeklyDue(cfg, now, lastSent) then Some(now) else lastSent
  }

  /** What the first `k` tiers of a cycle send, in order. */
  function CycleOutput(cfg: Config, site: Site, feed: seq<Activity>, watermarks: seq<WatermarkRow>,
                       now: Time, k: nat): seq<Bundle>
    requires k <= |AllFrequencies|
  {
    if k == 0 then []
    else
      var f := AllFrequencies[k - 1];
      CycleOutput(cfg, site, feed, watermarks, now, k - 1) +
      TierOutput(cfg, site, feed, GetEmailsLastSent(watermarks, f.Value()), f, now)
  }

  /** The dispatch function of tier `f`. */
  function RunTier(cfg: Config, site: Site, feed: seq<Activity>, store: seq<WatermarkRow>,
                   f: Frequency, now: Time): (r: Run)
    ensures GetEmailsLastSent(r.watermarks, f.Value()) == TierWatermark(cfg, GetEmailsLastSent(store, f.Value()), f, now)
    ensures forall v :: v != f.Value() ==> GetEmailsLastSent(r.watermarks, v) == GetEmailsLastSent(store, v)
    ensures r.sent == TierOutput(cfg, site, feed, GetEmailsLastSent(store, f.Value()), f, now)
  {
    match f
    case Immediate => SendAnyImmediateNotifications(cfg, site, feed, store, now)
    case Daily => SendDailyIfItsTimeTo(cfg, site, feed, store, now)
    case Weekly => SendWeeklyIfItsTimeTo(cfg, site, feed, store, now)
  }

  /** The watermark of frequency value `v` once the first `k` tiers of a
      cycle have run. */
  ghost function WatermarkAfter(cfg: Config, watermarks: seq<WatermarkRow>, v: int, now: Time, k: nat): Option<Time>
  {
    match FrequencyOf(v)
    case Some(f) => if v <= k then TierWatermark(cfg, GetEmailsLastSent(watermarks, v), f, now) else GetEmailsLastSent(watermarks, v)
    case None => GetEmailsLastSent(watermarks, v)
  }

  /** Running tier `k + 1` on the store the first `k` tiers left moves the
      cycle on by one tier. */
  lemma TierStep(cfg: Config, site: Site, feed: seq<Activity>, watermarks: seq<WatermarkRow>,
                 store: seq<WatermarkRow>, now: Time, k: nat)
    requires k < |AllFrequencies|
    requires forall v :: GetEmailsLastSent(store, v) == WatermarkAfter(cfg, watermarks, v, now, k)
    ensures var r := RunTier(cfg, site, feed, store, AllFrequencies[k], now);
      forall v :: GetEmailsLastSent(r.watermarks, v) == WatermarkAfter(cfg, watermarks, v, now, k + 1)
    ensures CycleOutput(cfg, site, feed, watermarks, now, k + 1) ==
            CycleOutput(cfg, site, feed, watermarks, now, k) + RunTier(cfg, site, feed, store, AllFrequencies[k], now).sent
  {
    var f := AllFrequencies[k];
    assert f.Value() == k + 1;
    FrequencyValuesDistinct(f, f);
    var r := RunTier(cfg, site, feed, store, f, now);
    assert GetEmailsLastSent(store, f.Value()) == GetEmailsLastSent(watermarks, f.Value());
    forall v ensures GetEmailsLastSent(r.watermarks, v) == WatermarkAfter(cfg, watermarks, v, now, k + 1) {
      if v != f.Value() {
        assert GetEmailsLastSent(r.watermarks, v) == GetEmailsLastSent(store, v);
      }
    }
  }

  /** One scheduler cycle: the immediate tier, then the daily and the weekly
      tier, each reading the store the previous one left. Each tier sends
      what it would send on its own and ends with its own watermark moved
      (the daily and weekly ones only when due); no other row changes. */
  method RunAllTiers(cfg: Config, site: Site, feed: seq<Activity>, watermarks: seq<WatermarkRow>, now: Time)
    returns (store: seq<WatermarkRow>, outbox: seq<Bundle>)
    ensures forall f: Frequency :: GetEmailsLastSent(store, f.Value()) ==
              TierWatermark(cfg, GetEmailsLastSent(watermarks, f.Value()), f, now)
    ensures forall v :: FrequencyOf(v).None? ==> GetEmailsLastSent(store, v) == GetEmailsLastSent(watermarks, v)
    ensures outbox == CycleOutput(cfg, site, feed, watermarks, now, |AllFrequencies|)
  {
    store := watermarks;
    outbox := [];
    var k := 0;
    while k < |AllFrequencies|
      invariant 0 <= k <= |AllFrequencies|
      invariant forall v :: GetEmailsLastSent(store, v) == WatermarkAfter(cfg, watermarks, v, now, k)
      invariant outbox == CycleOutput(cfg, site, feed, watermarks, now, k)
    {
      var f := AllFrequencies[k];
      var r := RunTier(cfg, site, feed, store, f, now);
      TierStep(cfg, site, feed, watermarks, store, now, k);
      store := r.watermarks;
      outbox := outbox + r.sent;
      k := k + 1;
    }
    forall f: Frequency ensures GetEmailsLastSent(store, f.Value()) ==
        TierWatermark(cfg, GetEmailsLastSent(watermarks, f.Value()), f, now)
    {
      FrequencyValuesDistinct(f, f);
    }
  }
}
