/**
  The two structural matchers (both overloads of jsParameterCompare): whether
  the shape of the supplied parameters fits a method descriptor.
*/
module Matching {
  import opened Json
  import opened Descriptors

  /** A declared tag accepts an actual tag when it is the wildcard or the same tag. */
  predicate Accepts(declared: Tag, actual: Tag) {
    declared == UndefinedTag || declared == actual
  }

  // ----- Positional (array) matching -----

  /**
    The positional walk from declared position `i` and supplied position `j`.
    A compatible declared parameter consumes the current value; an
    incompatible out-parameter is skipped without consuming it; an
    incompatible ordinary parameter rejects. The walk stops when either list
    runs out, and it matches exactly when every supplied value was consumed.
  */
  function Walk(ps: seq<ParameterInfo>, i: nat, values: seq<Json>, j: nat): bool
    requires i <= |ps| && j <= |values|
    decreases |ps| - i
  {
    if i < |ps| && j < |values| then
      if !Accepts(ps[i].jsType, TagOf(values[j])) then
        if !ps[i].isOut then false else Walk(ps, i + 1, values, j)
      else Walk(ps, i + 1, values, j + 1)
    else j == |values|
  }

  predicate PositionalMatch(values: seq<Json>, ps: seq<ParameterInfo>) {
    Walk(ps, 0, values, 0)
  }

  /** The positional jsParameterCompare loop; the value cursor advances only on a match. */
  method PositionalCompare(values: seq<Json>, ps: seq<ParameterInfo>) returns (matched: bool)
    ensures matched == PositionalMatch(values, ps)
    ensures matched ==> |values| <= |ps|
  {
    var j := 0;
    var i := 0;
    while i < |ps| && j < |values|
      invariant 0 <= j <= i <= |ps|
      invariant j <= |values|
      invariant Walk(ps, i, values, j) == PositionalMatch(values, ps)
    {
      if ps[i].jsType != UndefinedTag && ps[i].jsType != TagOf(values[j]) {
        if !ps[i].isOut {
          return false;
        }
      } else {
        j := j + 1;
      }
      i := i + 1;
    }
    return j == |values|;
  }

  /** Surplus supplied values are rejected: a match never has more values than declared parameters. */
  lemma {:induction false} WalkNoSurplus(ps: seq<ParameterInfo>, i: nat, values: seq<Json>, j: nat)
    requires i <= |ps| && j <= |values|
    requires Walk(ps, i, values, j)
    ensures |values| - j <= |ps| - i
    decreases |ps| - i
  {
    if i < |ps| && j < |values| {
      if !Accepts(ps[i].jsType, TagOf(values[j])) {
        WalkNoSurplus(ps, i + 1, values, j);
      } else {
        WalkNoSurplus(ps, i + 1, values, j + 1);
      }
    }
  }

  lemma PositionalNoSurplus(values: seq<Json>, ps: seq<ParameterInfo>)
    requires |values| > |ps|
    ensures !PositionalMatch(values, ps)
  {
    if PositionalMatch(values, ps) {
      WalkNoSurplus(ps, 0, values, 0);
    }
  }

  /** No supplied values: every descriptor matches, whatever it declares. */
  lemma PositionalEmptyMatches(ps: seq<ParameterInfo>)
    ensures PositionalMatch([], ps)
  {
  }

  predicate NoOutParameters(ps: seq<ParameterInfo>) {
    forall i :: 0 <= i < |ps| ==> !ps[i].isOut
  }

  lemma {:induction false} WalkWithoutOut(ps: seq<ParameterInfo>, i: nat, values: seq<Json>)
    requires NoOutParameters(ps)
    requires i <= |ps| && i <= |values|
    ensures Walk(ps, i, values, i) <==>
      |values| <= |ps| && forall k :: i <= k < |values| ==> Accepts(ps[k].jsType, TagOf(values[k]))
    decreases |ps| - i
  {
    if i < |ps| && i < |values| {
      WalkWithoutOut(ps, i + 1, values);
    }
  }

  /**
    Without out-parameters, positional matching is a prefix test: the supplied
    values are no more than the declared parameters, and each value is
    accepted by the parameter at the same position. Declared parameters
    beyond the supplied values are not checked.
  */
  lemma PositionalWithoutOut(values: seq<Json>, ps: seq<ParameterInfo>)
    requires NoOutParameters(ps)
    ensures PositionalMatch(values, ps) <==>
      |values| <= |ps| && forall k :: 0 <= k < |values| ==> Accepts(ps[k].jsType, TagOf(values[k]))
  {
    WalkWithoutOut(ps, 0, values);
  }

  /** A mismatching out-parameter is skipped: the walk continues with the same value. */
  lemma OutParameterSkipped(ps: seq<ParameterInfo>, values: seq<Json>)
    requires |ps| > 0 && |values| > 0 && ps[0].isOut && !Accepts(ps[0].jsType, TagOf(values[0]))
    ensures PositionalMatch(values, ps) == Walk(ps, 1, values, 0)
  {
  }

  // ----- Named (object) matching -----

  /**
    One declared parameter against the value the object holds under its
    name: an absent value is acceptable only for an out-parameter; a present
    value must be accepted by the declared tag, out-parameter or not.
  */
  predicate NamedAccepts(p: ParameterInfo, v: Json) {
    if v == JUndefined then p.isOut
    else Accepts(p.jsType, TagOf(v))
  }

  /** Named matching: every declared parameter accepts the object's value under its name. */
  predicate NamedMatch(obj: map<string, Json>, ps: seq<ParameterInfo>) {
    forall i :: 0 <= i < |ps| ==> NamedAccepts(ps[i], Lookup(obj, ps[i].name))
  }

  /** The named jsParameterCompare loop, with its early rejections. */
  method NamedCompare(obj: map<string, Json>, ps: seq<ParameterInfo>) returns (matched: bool)
    ensures matched <==> NamedMatch(obj, ps)
  {
    var i := 0;
    while i < |ps|
      invariant 0 <= i <= |ps|
      invariant forall k :: 0 <= k < i ==> NamedAccepts(ps[k], Lookup(obj, ps[k].name))
    {
      var jsType := ps[i].jsType;
      var value := Lookup(obj, ps[i].name);
      if value == JUndefined {
        if !ps[i].isOut {
          return false;
        }
      } else if jsType == UndefinedTag {
        i := i + 1;
        continue;
      } else if jsType != TagOf(value) {
        return false;
      }
      i := i + 1;
    }
    return true;
  }

  /** Keys of the object that name no declared parameter do not affect named matching. */
  lemma NamedIgnoresExtraKeys(obj: map<string, Json>, ps: seq<ParameterInfo>, key: string, v: Json)
    requires forall i :: 0 <= i < |ps| ==> ps[i].name != key
    ensures NamedMatch(obj[key := v], ps) <==> NamedMatch(obj, ps)
  {
    assert forall i :: 0 <= i < |ps| ==> Lookup(obj[key := v], ps[i].name) == Lookup(obj, ps[i].name);
  }

  /** The facts about positional matching the dispatcher relies on, for any input. */
  lemma PositionalFacts(values: seq<Json>, ps: seq<ParameterInfo>)
    ensures PositionalMatch(values, ps) ==> |values| <= |ps|
    ensures PositionalMatch([], ps)
    ensures NoOutParameters(ps) ==> (PositionalMatch(values, ps) <==>
      |values| <= |ps| && forall k :: 0 <= k < |values| ==> Accepts(ps[k].jsType, TagOf(values[k])))
  {
    if PositionalMatch(values, ps) {
      WalkNoSurplus(ps, 0, values, 0);
    }
    if NoOutParameters(ps) {
      PositionalWithoutOut(values, ps);
    }
  }

  /**
    The matcher the dispatcher applies: an object of parameters is matched
    by name, parameter by parameter; anything else is read as an array and
    matched by position, where a match never has surplus values, an empty
    array always matches, and without out-parameters a match is a
    per-position tag test of a prefix.
  */
  predicate Matches(params: Json, info: MethodInfo)
    ensures params.JObject? ==> (Matches(params, info) <==>
      forall i :: 0 <= i < |info.parameters| ==>
        NamedAccepts(info.parameters[i], Lookup(params.fields, info.parameters[i].name)))
    ensures !params.JObject? && Matches(params, info) ==> |AsArray(params)| <= |info.parameters|
    ensures !params.JObject? && AsArray(params) == [] ==> Matches(params, info)
    ensures !params.JObject? && NoOutParameters(info.parameters) ==> (Matches(params, info) <==>
      |AsArray(params)| <= |info.parameters| &&
      forall k :: 0 <= k < |AsArray(params)| ==> Accepts(info.parameters[k].jsType, TagOf(AsArray(params)[k])))
  {
    if params.JObject? then NamedMatch(params.fields, info.parameters)
    else
      PositionalFacts(AsArray(params), info.parameters);
      PositionalMatch(AsArray(params), info.parameters)
  }
}
