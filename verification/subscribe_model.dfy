/** The extension's own tables: subscriptions, login codes, and the
    per-frequency "emails last sent" rows, with the class methods that read
    and write them. */
module SubscribeModel {
  import opened Common

  /** How often a subscriber is emailed. */
  datatype Frequency = Immediate | Daily | Weekly {

    /** The integer stored in the `frequency` columns. */
    function Value(): (v: int)
      ensures 1 <= v <= 3
    {
      match this
      case Immediate => 1
      case Daily => 2
      case Weekly => 3
    }

    /** The enum member's name, as `Frequency(v).name` gives it. */
    function Name(): string
    {
      match this
      case Immediate => "IMMEDIATE"
      case Daily => "DAILY"
      case Weekly => "WEEKLY"
    }
  }

  /** The members in declaration order, as iterating the enum yields them. */
  const AllFrequencies: seq<Frequency> := [Immediate, Daily, Weekly]

  /** `Frequency(v)`: the member whose value is `v`, or None where Python
      raises ValueError. */
  function FrequencyOf(v: int): (r: Option<Frequency>)
    ensures r.Some? <==> 1 <= v <= 3
    ensures r.Some? ==> r.value.Value() == v
  {
    if v == 1 then Some(Immediate)
    else if v == 2 then Some(Daily)
    else if v == 3 then Some(Weekly)
    else None
  }

  /** The three values are pairwise distinct, so each stored integer names at
      most one member, and the enum's value round-trips. */
  lemma FrequencyValuesDistinct(f: Frequency, g: Frequency)
    ensures f.Value() == g.Value() <==> f == g
    ensures FrequencyOf(f.Value()) == Some(f)
  {
  }

  /** A row of the `subscription` table. `frequency` is a nullable integer
      column; `created` is set on insertion. */
  datatype Subscription = Subscription(
    id: string,
    email: string,
    objectType: string,
    objectId: string,
    verified: bool,
    verificationCode: Option<string>,
    verificationCodeExpires: Option<Time>,
    created: Time,
    frequency: Option<int>)

  /** The primary key of the `subscription` table. */
  function SubscriptionIdOf(s: Subscription): string
  {
    s.id
  }

  /** `Session.query(Subscription).get(id)`: the row whose primary key is
      `id`, or None when there is none. */
  function SubscriptionById(subscriptions: seq<Subscription>, id: string): (r: Option<Subscription>)
    ensures r.None? <==> forall s :: s in subscriptions ==> s.id != id
    ensures r.Some? ==> r.value in subscriptions && r.value.id == id
  {
    match FirstIndex(subscriptions, SubscriptionIdOf, id)
    case None => None
    case Some(i) => Some(subscriptions[i])
  }

  /** A row of the `subscribe_login_code` table. */
  datatype LoginCode = LoginCode(id: string, email: string, code: string, expires: Time)

  /** The key `filter_by(code=...)` compares. */
  function CodeOf(c: LoginCode): string
  {
    c.code
  }

  /** Index of the first login code row whose code is `code`, as
      `query(...).filter_by(code=code).first()` finds it. */
  function FirstCodeIndex(codes: seq<LoginCode>, code: string): Option<nat>
  {
    FirstIndex(codes, CodeOf, code)
  }

  /** Row `i` is the first row holding `code`: the record `.first()` returns. */
  ghost predicate FirstMatch(codes: seq<LoginCode>, code: string, i: int)
  {
    && 0 <= i < |codes|
    && codes[i].code == code
    && (forall j :: 0 <= j < i ==> codes[j].code != code)
  }

  /** Row `i` is the first row holding `code`, and it expired before `now`. */
  ghost predicate ExpiredFirstMatch(codes: seq<LoginCode>, code: string, now: Time, i: int)
  {
    FirstMatch(codes, code, i) && now > codes[i].expires
  }

  /** At most one row is the first one holding `code`. */
  lemma FirstMatchUnique(codes: seq<LoginCode>, code: string, i: int, j: int)
    requires FirstMatch(codes, code, i) && FirstMatch(codes, code, j)
    ensures i == j
  {
  }

  const NoCodeSupplied: string := "No code supplied"
  const CodeNotRecognized: string := "Code not recognized"
  const CodeExpired: string := "Code expired"

  /** `LoginCode.validate_code`: the three failures are checked in this order:
      an empty code, a code no row holds, a code whose first row expired
      strictly before `now`. Otherwise the first row holding the code is
      returned. */
  function ValidateCode(codes: seq<LoginCode>, code: string, now: Time): (r: Result<LoginCode>)
    ensures r == Failure(NoCodeSupplied) <==> code == ""
    ensures r == Failure(CodeNotRecognized) <==>
              code != "" && forall i :: 0 <= i < |codes| ==> codes[i].code != code
    ensures r == Failure(CodeExpired) <==>
              code != "" && exists i :: ExpiredFirstMatch(codes, code, now, i)
    ensures r.Success? <==>
              code != "" && exists i :: FirstMatch(codes, code, i) && now <= codes[i].expires
    ensures r.Success? ==> exists i :: FirstMatch(codes, code, i) && r.value == codes[i]
    ensures r.Success? ==> r.value in codes && r.value.code == code && now <= r.value.expires
    ensures r.Failure? ==> r.error in {NoCodeSupplied, CodeNotRecognized, CodeExpired}
  {
    if code == "" then Failure(NoCodeSupplied)
    else match FirstCodeIndex(codes, code)
      case None =>
        assert forall i :: !FirstMatch(codes, code, i);
        Failure(CodeNotRecognized)
      case Some(i) =>
        assert FirstMatch(codes, code, i);
        assert forall j :: FirstMatch(codes, code, j) ==> j == i;
        if now > codes[i].expires then
          assert ExpiredFirstMatch(codes, code, now, i);
          Failure(CodeExpired)
        else
          Success(codes[i])
  }

  /** Whatever else the table holds, the first row holding a code is still
      accepted at exactly its expiry instant and refused one microsecond
      later. */
  lemma CodeValidUntilExpiry(codes: seq<LoginCode>, code: string, i: nat)
    requires code != "" && FirstMatch(codes, code, i)
    ensures ValidateCode(codes, code, codes[i].expires) == Success(codes[i])
    ensures ValidateCode(codes, code, codes[i].expires + 1) == Failure(CodeExpired)
  {
    var k := FirstCodeIndex(codes, code);
    assert k.Some? && FirstMatch(codes, code, k.value);
    FirstMatchUnique(codes, code, i, k.value);
  }

  /** A row of the `subscribe` table: when emails of one frequency were last
      sent. The frequency column is a plain integer. */
  datatype WatermarkRow = WatermarkRow(frequency: int, emailsLastSent: Time)

  /** The key the `subscribe` table is filtered on. */
  function RowFrequency(row: WatermarkRow): int
  {
    row.frequency
  }

  /** Index of the first row for `frequency`. */
  function FirstRowIndex(rows: seq<WatermarkRow>, frequency: int): Option<nat>
  {
    FirstIndex(rows, RowFrequency, frequency)
  }

  /** The first row for `frequency` is at index `i`. */
  lemma FirstRowIndexIs(rows: seq<WatermarkRow>, frequency: int, i: nat)
    requires i < |rows| && rows[i].frequency == frequency
    requires forall j :: 0 <= j < i ==> rows[j].frequency != frequency
    ensures FirstRowIndex(rows, frequency) == Some(i)
  {
    match FirstRowIndex(rows, frequency)
    case None =>
    case Some(k) =>
  }

  /** Two tables whose rows agree on which ones hold `frequency` have their
      first row for it at the same index. */
  lemma FirstRowIndexSamePattern(a: seq<WatermarkRow>, b: seq<WatermarkRow>, frequency: int)
    requires |a| == |b|
    requires forall k :: 0 <= k < |a| ==> (a[k].frequency == frequency <==> b[k].frequency == frequency)
    ensures FirstRowIndex(a, frequency) == FirstRowIndex(b, frequency)
  {
    match FirstRowIndex(a, frequency)
    case None =>
    case Some(i) => FirstRowIndexIs(b, frequency, i);
  }

  /** Appending a row does not change where any other frequency's first row is. */
  lemma AppendKeepsOtherRows(rows: seq<WatermarkRow>, row: WatermarkRow)
    ensures forall g :: g != row.frequency ==> FirstRowIndex(rows + [row], g) == FirstRowIndex(rows, g)
  {
    forall g | g != row.frequency
      ensures FirstRowIndex(rows + [row], g) == FirstRowIndex(rows, g)
    {
      match FirstRowIndex(rows, g)
      case None =>
      case Some(k) => FirstRowIndexIs(rows + [row], g, k);
    }
  }

  /** Overwriting row `i` with a row of the same frequency does not change
      where any other frequency's first row is. */
  lemma OverwriteKeepsOtherRows(rows: seq<WatermarkRow>, i: nat, t: Time)
    requires i < |rows|
    ensures forall g :: g != rows[i].frequency ==>
      FirstRowIndex(rows[i := WatermarkRow(rows[i].frequency, t)], g) == FirstRowIndex(rows, g)
  {
    forall g | g != rows[i].frequency
      ensures FirstRowIndex(rows[i := WatermarkRow(rows[i].frequency, t)], g) == FirstRowIndex(rows, g)
    {
      FirstRowIndexSamePattern(rows[i := WatermarkRow(rows[i].frequency, t)], rows, g);
    }
  }

  /** No frequency has two rows. */
  ghost predicate UniqueFrequencies(rows: seq<WatermarkRow>)
  {
    forall i, j :: 0 <= i < j < |rows| ==> rows[i].frequency != rows[j].frequency
  }

  /** `Subscribe.get_emails_last_sent`: the time stored in the first row for
      `frequency`, or None when there is no such row. */
  function GetEmailsLastSent(rows: seq<WatermarkRow>, frequency: int): (r: Option<Time>)
    ensures r.None? <==> forall i :: 0 <= i < |rows| ==> rows[i].frequency != frequency
    ensures r.Some? ==> exists i :: 0 <= i < |rows| && rows[i] == WatermarkRow(frequency, r.value)
  {
    match FirstRowIndex(rows, frequency)
    case None => None
    case Some(i) => Some(rows[i].emailsLastSent)
  }

  /** `Subscribe.set_emails_last_sent`: overwrite the first row for
      `frequency` in place, or append a new row when there is none. */
  function SetEmailsLastSent(rows: seq<WatermarkRow>, frequency: int, t: Time): (r: seq<WatermarkRow>)
    ensures GetEmailsLastSent(r, frequency) == Some(t)
    ensures forall g :: g != frequency ==> GetEmailsLastSent(r, g) == GetEmailsLastSent(rows, g)
    ensures |r| == if GetEmailsLastSent(rows, frequency).Some? then |rows| else |rows| + 1
    ensures UniqueFrequencies(rows) ==> UniqueFrequencies(r)
  {
    match FirstRowIndex(rows, frequency)
    case None =>
      var r := rows + [WatermarkRow(frequency, t)];
      FirstRowIndexIs(r, frequency, |rows|);
      AppendKeepsOtherRows(rows, WatermarkRow(frequency, t));
      r
    case Some(i) =>
      var r := rows[i := WatermarkRow(frequency, t)];
      FirstRowIndexIs(r, frequency, i);
      OverwriteKeepsOtherRows(rows, i, t);
      r
  }
}
