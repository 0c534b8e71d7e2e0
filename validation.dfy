/** Validation of the pull-request details read from the event payload:
    every named value must be truthy, and all missing names are reported
    together, in input order. */
module Validation {
  import opened Wrappers
  import opened JsBuiltins

  /** One `{ name, value }` entry handed to `validateGithubDetails`. */
  datatype Property = Property(name: string, value: JsValue)

  const MissingPrefix := "Cannot find the following properties: "
  const NameSeparator := ", "

  /** The names of the falsy entries, in input order: the names the
      `forEach` loop pushes. `FalsyPositionsExact` and
      `FalsyNamesAtFalsyPositions` state what it holds. */
  function FalsyNames(properties: seq<Property>): (names: seq<string>)
    ensures |names| <= |properties|
  {
    if |properties| == 0 then []
    else
      var last := properties[|properties| - 1];
      FalsyNames(properties[..|properties| - 1]) + (if IsFalsy(last.value) then [last.name] else [])
  }

  /** The positions of the falsy entries, in increasing order: the reference
      against which `FalsyNames` is checked. */
  function FalsyPositions(properties: seq<Property>): (positions: seq<nat>)
    ensures forall k :: 0 <= k < |positions| ==> positions[k] < |properties|
    ensures forall k, l :: 0 <= k < l < |positions| ==> positions[k] < positions[l]
  {
    if |properties| == 0 then []
    else
      var n := |properties| - 1;
      FalsyPositions(properties[..n]) + (if IsFalsy(properties[n].value) then [n] else [])
  }

  /** A position is listed exactly when the entry there is falsy. */
  lemma {:induction false} FalsyPositionsExact(properties: seq<Property>, i: int)
    requires 0 <= i < |properties|
    ensures i in FalsyPositions(properties) <==> IsFalsy(properties[i].value)
  {
    var n := |properties| - 1;
    if i < n {
      FalsyPositionsExact(properties[..n], i);
    }
  }

  /** `FalsyNames` lists the name of every falsy entry and nothing else, in
      input order: its k-th name belongs to the k-th falsy position. */
  lemma {:induction false} FalsyNamesAtFalsyPositions(properties: seq<Property>)
    ensures |FalsyNames(properties)| == |FalsyPositions(properties)|
    ensures forall k :: 0 <= k < |FalsyNames(properties)| ==>
      FalsyNames(properties)[k] == properties[FalsyPositions(properties)[k]].name
  {
    if |properties| > 0 {
      var n := |properties| - 1;
      FalsyNamesAtFalsyPositions(properties[..n]);
    }
  }

  /** No name is reported exactly when no entry is falsy. */
  lemma FalsyNamesEmpty(properties: seq<Property>)
    ensures FalsyNames(properties) == [] <==> forall i :: 0 <= i < |properties| ==> !IsFalsy(properties[i].value)
  {
    FalsyNamesAtFalsyPositions(properties);
    forall i | 0 <= i < |properties| {
      FalsyPositionsExact(properties, i);
    }
  }

  /** What `validateGithubDetails` does: nothing when every value is truthy,
      otherwise an error naming all falsy entries. */
  function ValidationOutcome(properties: seq<Property>): (r: Outcome<string>)
    ensures r.Pass? <==> forall i :: 0 <= i < |properties| ==> !IsFalsy(properties[i].value)
    ensures r.Fail? ==> r.error == MissingPrefix + Join(FalsyNames(properties), NameSeparator)
  {
    FalsyNamesEmpty(properties);
    var names := FalsyNames(properties);
    if |names| > 0 then Fail(MissingPrefix + Join(names, NameSeparator)) else Pass
  }

  /** `validateGithubDetails`: walks the entries, collecting the names of the
      falsy ones, then fails if any were collected. */
  method ValidateGithubDetails(properties: seq<Property>) returns (r: Outcome<string>)
    ensures r == ValidationOutcome(properties)
  {
    var undefinedProperties: seq<string> := [];
    for i := 0 to |properties|
      invariant undefinedProperties == FalsyNames(properties[..i])
    {
      assert properties[..i + 1][..i] == properties[..i];
      if IsFalsy(properties[i].value) {
        undefinedProperties := undefinedProperties + [properties[i].name];
      }
    }
    assert properties[..|properties|] == properties;
    if |undefinedProperties| > 0 {
      return Fail(MissingPrefix + Join(undefinedProperties, NameSeparator));
    }
    return Pass;
  }

  /** The fields of the `pull_request` event payload the action reads; `None`
      stands for a field that is `undefined`. */
  datatype Payload = Payload(
    headRef: Option<string>,
    htmlUrl: Option<string>,
    number: Option<int>,
    repositoryFullName: Option<string>)

  /** The validated details handed on to the rest of the run. */
  datatype GithubDetails = GithubDetails(ref: string, prUrl: string, issueNumber: int, fullName: string)

  /** The four entries `getGithubDetails` validates, in its order. */
  function GithubProperties(payload: Payload): seq<Property> {
    [ Property("pr ref", StringValue(payload.headRef)),
      Property("pr url", StringValue(payload.htmlUrl)),
      Property("issue number", NumberValue(payload.number)),
      Property("repo name", StringValue(payload.repositoryFullName)) ]
  }

  /** A string field that is present and not empty. */
  predicate Given(s: Option<string>) {
    s.Some? && s.value != ""
  }

  /** A string field is given exactly when JavaScript finds it truthy. */
  lemma GivenIsTruthy(s: Option<string>)
    ensures Given(s) <==> !IsFalsy(StringValue(s))
  {
  }

  /** What `getGithubDetails` returns: the details when all four are truthy,
      the validation error otherwise. */
  function DetailsOf(payload: Payload): (r: Result<GithubDetails, string>)
    ensures r.Success? <==>
      && Given(payload.headRef) && Given(payload.htmlUrl)
      && payload.number.Some? && payload.number.value != 0
      && Given(payload.repositoryFullName)
    ensures r.Success? ==> r.value == GithubDetails(
      payload.headRef.value, payload.htmlUrl.value, payload.number.value, payload.repositoryFullName.value)
    ensures r.Failure? ==> r.error == MissingPrefix + Join(FalsyNames(GithubProperties(payload)), NameSeparator)
  {
    var properties := GithubProperties(payload);
    match ValidationOutcome(properties)
    case Fail(message) => Failure(message)
    case Pass =>
      assert !IsFalsy(properties[0].value) && !IsFalsy(properties[1].value);
      assert !IsFalsy(properties[2].value) && !IsFalsy(properties[3].value);
      Success(GithubDetails(
        payload.headRef.value, payload.htmlUrl.value, payload.number.value, payload.repositoryFullName.value))
  }

  /** `getGithubDetails`: validates the four fields, then returns them. */
  method GetGithubDetails(payload: Payload) returns (r: Result<GithubDetails, string>)
    ensures r == DetailsOf(payload)
  {
    var properties := GithubProperties(payload);
    var validation := ValidateGithubDetails(properties);
    if validation.Fail? {
      return Failure(validation.error);
    }
    assert !IsFalsy(properties[0].value) && !IsFalsy(properties[1].value);
    assert !IsFalsy(properties[2].value) && !IsFalsy(properties[3].value);
    return Success(GithubDetails(
      payload.headRef.value, payload.htmlUrl.value, payload.number.value, payload.repositoryFullName.value));
  }

  /** The worked example: a truthy, an empty string and a zero report `b, c`. */
  lemma ValidationExample()
    ensures ValidationOutcome([Property("a", Str("x")), Property("b", Str("")), Property("c", Num(0))])
      == Fail("Cannot find the following properties: b, c")
  {
    var properties := [Property("a", Str("x")), Property("b", Str("")), Property("c", Num(0))];
    assert properties[..2][..1] == [Property("a", Str("x"))];
    assert properties[..2] == [Property("a", Str("x")), Property("b", Str(""))];
    assert FalsyNames(properties) == ["b", "c"];
    assert MissingPrefix + Join(["b", "c"], NameSeparator) == "Cannot find the following properties: b, c";
  }
}
