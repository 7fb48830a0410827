/** `dictization.dictize_subscription`: the dictionary form of a
    subscription that actions return and that notification emails carry. */
module Dictization {
  import opened Common
  import opened SubscribeModel
  import Schema

  /** A dictionary value. `Instant` stands for the ISO-format string CKAN's
      `table_dictize` writes for a datetime column. */
  datatype Value = Str(s: string) | Bool(b: bool) | Int(i: int) | Instant(t: Time) | Null

  type Dict = map<string, Value>

  function OptStr(v: Option<string>): Value
  {
    match v
    case None => Null
    case Some(s) => Str(s)
  }

  function OptInstant(v: Option<Time>): Value
  {
    match v
    case None => Null
    case Some(t) => Instant(t)
  }

  function OptInt(v: Option<int>): Value
  {
    match v
    case None => Null
    case Some(i) => Int(i)
  }

  /** `table_dictize`: one entry per column of the `subscription` table. */
  function TableDictize(s: Subscription): (d: Dict)
    ensures d.Keys == {"id", "email", "object_type", "object_id", "verified", "verification_code",
                       "verification_code_expires", "created", "frequency"}
    ensures d["verification_code"] == OptStr(s.verificationCode)
    ensures d["frequency"] == OptInt(s.frequency)
  {
    map[
      "id" := Str(s.id),
      "email" := Str(s.email),
      "object_type" := Str(s.objectType),
      "object_id" := Str(s.objectId),
      "verified" := Bool(s.verified),
      "verification_code" := OptStr(s.verificationCode),
      "verification_code_expires" := OptInstant(s.verificationCodeExpires),
      "created" := Instant(s.created),
      "frequency" := OptInt(s.frequency)]
  }

  /** `Package.get` / `Group.get`: a reference (id or name) resolved to the
      id of the object it finds. A reference not in the map finds nothing. */
  type Resolver = map<string, string>

  const NoSuchObject: string := "'NoneType' object has no attribute 'id'"
  const NotAFrequency: string := "is not a valid Frequency"

  /** The resolver `include_name` consults for this subscription: packages
      for a dataset, groups for anything else. */
  function ResolverFor(s: Subscription, packages: Resolver, groups: Resolver): Resolver
  {
    if s.objectType == "dataset" then packages else groups
  }

  /** Keys the dictized subscription has. */
  function DictizedKeys(s: Subscription, includeName: bool): set<string>
  {
    TableDictize(s).Keys - {"verification_code"} + (if includeName then {"object_name"} else {})
  }

  /** The subscription's columns without the secret verification code, with
      the frequency integer replaced by the member's name and, when asked,
      `object_name` set to the resolved object's id. The name lookup comes
      first; a stored frequency outside 1..3 fails. */
  function DictizeSubscription(s: Subscription, includeName: bool, packages: Resolver, groups: Resolver)
    : (r: Result<Dict>)
    ensures r.Success? <==>
      && s.frequency.Some? && FrequencyOf(s.frequency.value).Some?
      && (includeName ==> s.objectId in ResolverFor(s, packages, groups))
    ensures r.Success? ==> "verification_code" !in r.value
    ensures r.Success? ==> r.value.Keys == DictizedKeys(s, includeName)
    ensures r.Success? ==>
              FrequencyOf(s.frequency.value).Some? &&
              r.value["frequency"] == Str(FrequencyOf(s.frequency.value).value.Name())
    ensures r.Success? ==>
              forall k :: k in TableDictize(s) && k != "verification_code" && k != "frequency" ==>
                k in r.value && r.value[k] == TableDictize(s)[k]
    ensures r.Success? && includeName ==> r.value["object_name"] == Str(ResolverFor(s, packages, groups)[s.objectId])
    ensures r.Failure? && includeName && s.objectId !in ResolverFor(s, packages, groups) ==> r.error == NoSuchObject
  {
    var table := TableDictize(s);
    var withoutCode := table - {"verification_code"};
    var resolver := ResolverFor(s, packages, groups);
    if includeName && s.objectId !in resolver then Failure(NoSuchObject)
    else
      var named := if includeName then withoutCode["object_name" := Str(resolver[s.objectId])] else withoutCode;
      match s.frequency
      case None => Failure(NotAFrequency)
      case Some(v) =>
        match FrequencyOf(v)
        case None => Failure(NotAFrequency)
        case Some(f) => Success(named["frequency" := Str(f.Name())])
  }

  /** Feeding the dictized frequency name back through the schema's
      validator gives the stored integer. */
  lemma FrequencyRoundTrip(s: Subscription, includeName: bool, packages: Resolver, groups: Resolver)
    requires DictizeSubscription(s, includeName, packages, groups).Success?
    ensures var d := DictizeSubscription(s, includeName, packages, groups).value;
      d["frequency"].Str? && Schema.FrequencyNameToInt(d["frequency"].s) == Success(s.frequency.value)
  {
    var f := FrequencyOf(s.frequency.value).value;
    assert Schema.EqualIgnoringCase(f.Name(), f.Name());
  }

  /** Every subscription whose stored frequency is a member's value can be
      dictized without its name. */
  lemma DictizeValidFrequency(s: Subscription, f: Frequency, packages: Resolver, groups: Resolver)
    requires s.frequency == Some(f.Value())
    ensures DictizeSubscription(s, false, packages, groups).Success?
    ensures DictizeSubscription(s, false, packages, groups).value["frequency"] == Str(f.Name())
  {
    FrequencyValuesDistinct(f, f);
  }
}
