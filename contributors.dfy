/** `get_contributors`: the `name` of every contributor record, joined with
    ';' in input order, or the sentinel "N/A" when any step raises. */
module Contributors {
  import opened Payload
  import opened Text

  /** What the exporter writes when the names cannot be extracted. */
  const Sentinel: string := "N/A"

  const Separator: char := ';'

  /** `contributor['name']`: the member of a dict, None for the KeyError of a
      dict without it and for the TypeError of subscripting any other value
      with a string. */
  function NameOf(contributor: Json): Option<Json> {
    match contributor
    case JObject(fields) => Lookup(fields, "name")
    case _ => None
  }

  /** `[c['name'] for c in contributors]`: every name in order, or None as
      soon as one element raises. */
  function NameList(contributors: seq<Json>): (r: Option<seq<Json>>)
    ensures r.Some? <==> forall k :: 0 <= k < |contributors| ==> NameOf(contributors[k]).Some?
    ensures r.Some? ==> (|r.value| == |contributors| &&
      forall k :: 0 <= k < |contributors| ==> Some(r.value[k]) == NameOf(contributors[k]))
  {
    if |contributors| == 0 then Some([])
    else
      match NameOf(contributors[0])
      case None => None
      case Some(n) =>
        match NameList(contributors[1..])
        case None => None
        case Some(ns) => Some([n] + ns)
  }

  /** The texts of a list of strings. */
  function Texts(items: seq<Json>): seq<string>
    requires forall k :: 0 <= k < |items| ==> items[k].JString?
  {
    seq(|items|, k requires 0 <= k < |items| => items[k].s)
  }

  /** `sep.join(items)`: the joined text, or None for the TypeError raised
      when an item is not a str. */
  function JoinStrings(sep: char, items: seq<Json>): (r: Option<string>)
    ensures r.Some? <==> forall k :: 0 <= k < |items| ==> items[k].JString?
    ensures r.Some? ==> r.value == Join(sep, Texts(items))
  {
    if |items| == 0 then Some("")
    else if !items[0].JString? then None
    else if |items| == 1 then Some(items[0].s)
    else
      match JoinStrings(sep, items[1..])
      case None => None
      case Some(rest) =>
        assert Texts(items)[1..] == Texts(items[1..]);
        Some(items[0].s + [sep] + rest)
  }

  /** A contributor record whose `name` is a string. */
  predicate IsNamed(contributor: Json) {
    NameOf(contributor).Some? && NameOf(contributor).value.JString?
  }

  /** The value iterates, and every element it yields is a named contributor:
      the condition under which no step of `get_contributors` raises. */
  predicate Extractable(contributors: Json) {
    && Iterate(contributors).Some?
    && forall k :: 0 <= k < |Iterate(contributors).value| ==> IsNamed(Iterate(contributors).value[k])
  }

  /** The names of the contributors, in input order. */
  function Names(contributors: Json): (r: seq<string>)
    requires Extractable(contributors)
    ensures |r| == |Iterate(contributors).value|
  {
    var cs := Iterate(contributors).value;
    seq(|cs|, k requires 0 <= k < |cs| => NameOf(cs[k]).value.s)
  }

  /** `get_contributors(contributors)`: the names of the contributors joined
      with ';', with every raised TypeError or KeyError turned into "N/A". */
  function GetContributors(contributors: Json): string {
    match Iterate(contributors)
    case None => Sentinel
    case Some(cs) =>
      match NameList(cs)
      case None => Sentinel
      case Some(names) =>
        match JoinStrings(Separator, names)
        case None => Sentinel
        case Some(text) => text
  }

  /** All or nothing: the names joined with ';' in input order when every
      step succeeds, and "N/A" when the value is not iterable, an element has
      no `name`, or a name is not a string. */
  lemma AllOrNothing(contributors: Json)
    ensures Extractable(contributors) ==>
      GetContributors(contributors) == Join(Separator, Names(contributors))
    ensures !Extractable(contributors) ==> GetContributors(contributors) == Sentinel
  {
    match Iterate(contributors)
    case None =>
    case Some(cs) =>
      match NameList(cs)
      case None =>
      case Some(names) =>
        match JoinStrings(Separator, names)
        case None =>
          var k :| 0 <= k < |names| && !names[k].JString?;
          assert !IsNamed(cs[k]);
        case Some(text) =>
          assert Texts(names) == Names(contributors);
  }

  /** One malformed element anywhere discards every other name. */
  lemma OneMalformedDiscardsAll(before: seq<Json>, bad: Json, after: seq<Json>)
    requires !IsNamed(bad)
    ensures GetContributors(JArray(before + [bad] + after)) == Sentinel
  {
    var cs := before + [bad] + after;
    assert cs[|before|] == bad;
    AllOrNothing(JArray(cs));
  }

  /** The written text gives back every name, in order, when there is at
      least one and none contains ';'. */
  lemma NamesRecoverable(contributors: Json)
    requires Extractable(contributors)
    requires |Names(contributors)| >= 1
    requires forall k :: 0 <= k < |Names(contributors)| ==> Separator !in Names(contributors)[k]
    ensures Split(Separator, GetContributors(contributors)) == Names(contributors)
  {
    AllOrNothing(contributors);
    SplitJoin(Separator, Names(contributors));
  }

  /** A missing contributor list defaults to [], which gives "" and not "N/A";
      so do an empty dict and an empty str, which iterate nothing. */
  lemma EmptyList()
    ensures GetContributors(JArray([])) == ""
    ensures GetContributors(JObject([])) == ""
    ensures GetContributors(JString("")) == ""
  {
    assert Extractable(JArray([]));
    AllOrNothing(JArray([]));
    assert Extractable(JObject([]));
    AllOrNothing(JObject([]));
    assert Extractable(JString(""));
    AllOrNothing(JString(""));
  }

  /** A contributor record holding only a name. */
  function Contributor(name: string): Json {
    JObject([("name", JString(name))])
  }

  /** `[{"name": "A"}, {"name": "B"}]` gives "A;B". */
  lemma JoinedExample()
    ensures GetContributors(JArray([Contributor("A"), Contributor("B")])) == "A;B"
  {
    var ab := JArray([Contributor("A"), Contributor("B")]);
    assert IsNamed(Contributor("A")) && IsNamed(Contributor("B"));
    assert Names(ab) == ["A", "B"];
    AllOrNothing(ab);
  }

  /** Each way of failing gives the sentinel: None, an element without
      `name`, a name that is not a str, and a single record that is not in a
      list (iterating a dict yields its keys, and a str has no `name`). */
  lemma SentinelExamples()
    ensures GetContributors(JNull) == Sentinel
    ensures GetContributors(JArray([Contributor("A"), JObject([("asin", JString("B"))])])) == Sentinel
    ensures GetContributors(JArray([Contributor("A"), JObject([("name", JInt(7))])])) == Sentinel
    ensures GetContributors(Contributor("A")) == Sentinel
  {
    var missing := JArray([Contributor("A"), JObject([("asin", JString("B"))])]);
    assert !IsNamed(missing.elems[1]);
    AllOrNothing(missing);
    var nonString := JArray([Contributor("A"), JObject([("name", JInt(7))])]);
    assert !IsNamed(nonString.elems[1]);
    AllOrNothing(nonString);
    assert !IsNamed(Iterate(Contributor("A")).value[0]);
    AllOrNothing(Contributor("A"));
  }
}
