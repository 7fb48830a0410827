/** The validators of `schema.py` that carry logic of their own. */
module Schema {
  import opened Common
  import opened SubscribeModel

  // ---------------------------------------------------------------------
  // one_package_or_group_or_org
  // ---------------------------------------------------------------------

  /** A form field as the validator sees it: missing, or a submitted string. */
  type Field = Option<string>

  /** Python truthiness of a field: present and non-empty. */
  predicate Given(v: Field)
  {
    v.Some? && v.value != ""
  }

  /** How many of the three object fields are given. */
  function CountGiven(datasetId: Field, groupId: Field, organizationId: Field): (n: nat)
    ensures n <= 3
  {
    (if Given(datasetId) then 1 else 0)
    + (if Given(groupId) then 1 else 0)
    + (if Given(organizationId) then 1 else 0)
  }

  const MoreThanOneObject: string :=
    "Must not specify more than one of: \"dataset_id\", \"group_id\" or \"organization_id\""
  const NoObject: string :=
    "Must specify one of: \"dataset_id\", \"group_id\" or \"organization_id\""

  /** Exactly one of dataset, group and organization must be named. More
      than one is checked first. */
  function OnePackageOrGroupOrOrg(datasetId: Field, groupId: Field, organizationId: Field): (r: Outcome)
    ensures r == Pass <==>
      || (Given(datasetId) && !Given(groupId) && !Given(organizationId))
      || (!Given(datasetId) && Given(groupId) && !Given(organizationId))
      || (!Given(datasetId) && !Given(groupId) && Given(organizationId))
    ensures r == Fail(MoreThanOneObject) <==>
      || (Given(datasetId) && Given(groupId))
      || (Given(datasetId) && Given(organizationId))
      || (Given(groupId) && Given(organizationId))
    ensures r == Fail(NoObject) <==> !Given(datasetId) && !Given(groupId) && !Given(organizationId)
  {
    var n := CountGiven(datasetId, groupId, organizationId);
    if n > 1 then Fail(MoreThanOneObject)
    else if n < 1 then Fail(NoObject)
    else Pass
  }

  // ---------------------------------------------------------------------
  // frequency_name_to_int
  // ---------------------------------------------------------------------

  predicate IsAsciiLower(c: char) { 'a' <= c <= 'z' }
  predicate IsAsciiUpper(c: char) { 'A' <= c <= 'Z' }

  /** `str.upper` on one character, for the ASCII letters. */
  function UpperChar(c: char): char
  {
    if IsAsciiLower(c) then (c as int - 32) as char else c
  }

  /** `str.lower` on one character, for the ASCII letters. */
  function LowerChar(c: char): char
  {
    if IsAsciiUpper(c) then (c as int + 32) as char else c
  }

  function Upper(s: string): (u: string)
    ensures |u| == |s|
  {
    seq(|s|, i requires 0 <= i < |s| => UpperChar(s[i]))
  }

  function Lower(s: string): (l: string)
    ensures |l| == |s|
  {
    seq(|s|, i requires 0 <= i < |s| => LowerChar(s[i]))
  }

  /** Two characters are the same letter in either case, or equal. */
  predicate CharsEqualIgnoringCase(c: char, d: char)
  {
    c == d
    || (IsAsciiLower(c) && IsAsciiUpper(d) && c as int == d as int + 32)
    || (IsAsciiUpper(c) && IsAsciiLower(d) && d as int == c as int + 32)
  }

  /** Two strings spell the same word up to the case of ASCII letters. */
  predicate EqualIgnoringCase(a: string, b: string)
  {
    |a| == |b| && forall i :: 0 <= i < |a| ==> CharsEqualIgnoringCase(a[i], b[i])
  }

  /** No lower-case ASCII letter occurs in `s`. */
  predicate HasNoLower(s: string)
  {
    forall i :: 0 <= i < |s| ==> !IsAsciiLower(s[i])
  }

  /** Against a word with no lower-case letters, upper-casing and then
      comparing is the same as comparing ignoring case. */
  lemma UpperMatchesIgnoringCase(a: string, b: string)
    requires HasNoLower(b)
    ensures Upper(a) == b <==> EqualIgnoringCase(a, b)
  {
    if Upper(a) == b {
      forall i | 0 <= i < |a|
        ensures CharsEqualIgnoringCase(a[i], b[i])
      {
        assert UpperChar(a[i]) == b[i];
      }
    }
    if EqualIgnoringCase(a, b) {
      forall i | 0 <= i < |a|
        ensures Upper(a)[i] == b[i]
      {
        assert CharsEqualIgnoringCase(a[i], b[i]);
      }
    }
  }

  /** The member whose name is `upper`, as `Frequency[upper]` finds it. */
  function FrequencyNamed(upper: string): (r: Option<Frequency>)
    ensures r.Some? ==> r.value.Name() == upper
    ensures r.None? ==> forall f: Frequency :: f.Name() != upper
  {
    if upper == Immediate.Name() then Some(Immediate)
    else if upper == Daily.Name() then Some(Daily)
    else if upper == Weekly.Name() then Some(Weekly)
    else None
  }

  /** The member names in lower case, separated by spaces. */
  function JoinLowerNames(fs: seq<Frequency>): string
  {
    if |fs| == 0 then ""
    else if |fs| == 1 then Lower(fs[0].Name())
    else Lower(fs[0].Name()) + " " + JoinLowerNames(fs[1..])
  }

  const FrequencyChoicesPrefix: string := "Frequency must be one of: "
  const FrequencyChoices: string := FrequencyChoicesPrefix + JoinLowerNames(AllFrequencies)

  /** The lower-case names, joined. */
  lemma LowerNamesJoined()
    ensures JoinLowerNames(AllFrequencies) == "immediate daily weekly"
  {
    var tail := [Daily, Weekly];
    assert JoinLowerNames([Weekly]) == "weekly" by {
      assert Lower("WEEKLY") == "weekly";
    }
    assert JoinLowerNames(tail) == "daily weekly" by {
      assert tail[1..] == [Weekly];
      assert Lower("DAILY") == "daily";
    }
    assert JoinLowerNames(AllFrequencies) == "immediate " + JoinLowerNames(tail) by {
      assert AllFrequencies[1..] == tail;
      assert Lower("IMMEDIATE") == "immediate";
    }
  }

  /** The message lists every frequency, in lower case, in declaration order. */
  lemma FrequencyChoicesText()
    ensures FrequencyChoices == FrequencyChoicesPrefix + "immediate daily weekly"
  {
    LowerNamesJoined();
  }

  /** A frequency name in any letter case gives the member's value; anything
      else is rejected with the list of names. */
  function FrequencyNameToInt(name: string): (r: Result<int>)
    ensures forall f: Frequency :: EqualIgnoringCase(name, f.Name()) ==> r == Success(f.Value())
    ensures r.Success? <==> exists f: Frequency :: EqualIgnoringCase(name, f.Name())
    ensures r.Failure? ==> r.error == FrequencyChoices
  {
    UpperMatchesIgnoringCase(name, Immediate.Name());
    UpperMatchesIgnoringCase(name, Daily.Name());
    UpperMatchesIgnoringCase(name, Weekly.Name());
    match FrequencyNamed(Upper(name))
    case Some(f) => Success(f.Value())
    case None => Failure(FrequencyChoices)
  }

  /** Any casing of a lower-case frequency name is accepted. */
  lemma FrequencyNameAnyCase(name: string, f: Frequency)
    requires EqualIgnoringCase(name, Lower(f.Name()))
    ensures FrequencyNameToInt(name) == Success(f.Value())
  {
    assert Lower("IMMEDIATE") == "immediate";
    assert Lower("DAILY") == "daily";
    assert Lower("WEEKLY") == "weekly";
    forall i | 0 <= i < |name|
      ensures CharsEqualIgnoringCase(name[i], f.Name()[i])
    {
      assert CharsEqualIgnoringCase(name[i], Lower(f.Name())[i]);
    }
  }

  // ---------------------------------------------------------------------
  // subscription_id_exists
  // ---------------------------------------------------------------------

  const NoSuchSubscription: string := "That subscription ID does not exist."

  /** The id is looked up by primary key; it is passed through when a row
      is found, and rejected otherwise. */
  function SubscriptionIdExists(subscriptions: seq<Subscription>, id: string): (r: Result<string>)
    ensures r == Success(id) <==> exists s :: s in subscriptions && s.id == id
    ensures r.Failure? <==> r == Failure(NoSuchSubscription)
    ensures r.Success? ==> r.value == id
  {
    match SubscriptionById(subscriptions, id)
    case None => Failure(NoSuchSubscription)
    case Some(_) => Success(id)
  }
}
