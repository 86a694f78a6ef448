/**
  Invoking one resolved candidate: argument conversion, the native call,
  result conversion and the folding of out-parameters into the result
  (invokeMethod, callGetter, callSetter). The backing object is reached only
  through the `Backend` oracles.
*/
module Invocation {
  import opened Wrappers
  import opened Json
  import opened MetaTypes
  import opened Descriptors
  import opened Messages

  /** The identity of a backing object. */
  type Handle = nat

  /**
    What the model needs from the native side:
    - `metacall`: invoke method `index` of an object with converted arguments;
      None when the call mechanism reports failure, otherwise the return slot;
    - `argumentAfterCall`: the value of argument slot `i` after that call;
    - `readProperty`: read property `index` of an object;
    - `convertArgument`: build a native value of a type from a JSON value
      (InvalidVariant when impossible);
    - `convertResult`: the JSON form of a native value, if one applies.
  */
  datatype Backend = Backend(
    metacall: (Handle, int, seq<Variant>) -> Option<Variant>,
    argumentAfterCall: (Handle, int, seq<Variant>, int) -> Variant,
    readProperty: (Handle, int) -> Variant,
    convertArgument: (Json, MetaType) -> Variant,
    convertResult: Variant -> Option<Json>)

  /** The native effect a dispatch caused on a backing object. */
  datatype Call =
    | NoCall
    | Invoked(target: Handle, methodIndex: int, args: seq<Variant>)
    | ReadProperty(target: Handle, propertyIndex: int)
    | WriteProperty(target: Handle, propertyIndex: int, value: Variant)

  datatype Outcome = Outcome(reply: Message, call: Call)

  /**
    convertReturnValue: a value the converter gives a JSON form is answered
    as that form; an invalid value, or one with no JSON form, becomes null
    (never undefined).
  */
  function ResultToJson(be: Backend, v: Variant): (j: Json)
    ensures v != InvalidVariant && be.convertResult(v).Some? ==> j == be.convertResult(v).value
    ensures v == InvalidVariant || be.convertResult(v).None? ==> j == JNull
    ensures j != JNull ==> v != InvalidVariant && be.convertResult(v) == Some(j)
  {
    if v == InvalidVariant then JNull
    else match be.convertResult(v)
      case Some(j) => j
      case None => JNull
  }

  /**
    The incoming value for declared parameter `p` at declared position `i`:
    looked up by name in named style, and taken from the array at the
    DECLARED position `i` in positional style.
  */
  function Incoming(params: Json, p: ParameterInfo, i: int): Json {
    if params.JObject? then Lookup(params.fields, p.name) else ArrayAt(AsArray(params), i)
  }

  function ArgumentAt(be: Backend, ps: seq<ParameterInfo>, params: Json, k: int): Variant
    requires 0 <= k < |ps|
  {
    be.convertArgument(Incoming(params, ps[k], k), ps[k].metaType)
  }

  /** The InvalidParams text for a parameter whose value could not be converted. */
  function FailureText(incoming: Json, name: string): string {
    if incoming == JUndefined then "failed to construct default object for '" + name + "'"
    else "failed to convert from JSON for '" + name + "'"
  }

  datatype Conversion = Converted(args: seq<Variant>) | Failed(text: string)

  /** `k` is the first position from `from` on whose argument cannot be converted. */
  predicate FirstFailureAt(be: Backend, ps: seq<ParameterInfo>, params: Json, from: int, k: int) {
    && 0 <= from <= k < |ps|
    && ArgumentAt(be, ps, params, k) == InvalidVariant
    && forall m :: from <= m < k ==> ArgumentAt(be, ps, params, m) != InvalidVariant
  }

  /** A first failure from `from + 1` on is also the first from `from` on when position `from` converts. */
  lemma FirstFailureExtends(be: Backend, ps: seq<ParameterInfo>, params: Json, from: int, k: int)
    requires 0 <= from < |ps| && ArgumentAt(be, ps, params, from) != InvalidVariant
    requires FirstFailureAt(be, ps, params, from + 1, k)
    ensures FirstFailureAt(be, ps, params, from, k)
  {
    forall m | from <= m < k
      ensures ArgumentAt(be, ps, params, m) != InvalidVariant
    {
      if m > from {
        assert from + 1 <= m < k;
      }
    }
  }

  predicate AllConvertible(be: Backend, ps: seq<ParameterInfo>, params: Json) {
    forall k :: 0 <= k < |ps| ==> ArgumentAt(be, ps, params, k) != InvalidVariant
  }

  /**
    The argument loop of invokeMethod from position `i` on. It succeeds
    exactly when every remaining argument converts, yielding them in order;
    otherwise it fails at the first one that does not, with a text naming that
    parameter and saying whether its value was absent or unconvertible.
  */
  function ConvertArguments(be: Backend, ps: seq<ParameterInfo>, params: Json, i: nat): (r: Conversion)
    requires i <= |ps|
    decreases |ps| - i
    ensures r.Converted? <==> forall k :: i <= k < |ps| ==> ArgumentAt(be, ps, params, k) != InvalidVariant
    ensures r.Converted? ==>
      |r.args| == |ps| - i && forall k :: 0 <= k < |r.args| ==> r.args[k] == ArgumentAt(be, ps, params, i + k)
    ensures r.Failed? ==>
      exists k :: FirstFailureAt(be, ps, params, i, k) && r.text == FailureText(Incoming(params, ps[k], k), ps[k].name)
  {
    if i == |ps| then Converted([])
    else
      var arg := ArgumentAt(be, ps, params, i);
      if arg == InvalidVariant then
        assert FirstFailureAt(be, ps, params, i, i);
        Failed(FailureText(Incoming(params, ps[i], i), ps[i].name))
      else
        var rest := ConvertArguments(be, ps, params, i + 1);
        if rest.Failed? then
          assert exists k :: FirstFailureAt(be, ps, params, i, k) && rest.text == FailureText(Incoming(params, ps[k], k), ps[k].name) by {
            var k :| FirstFailureAt(be, ps, params, i + 1, k) && rest.text == FailureText(Incoming(params, ps[k], k), ps[k].name);
            FirstFailureExtends(be, ps, params, i, k);
          }
          rest
        else
          var args := [arg] + rest.args;
          assert forall k :: 0 <= k < |args| ==> args[k] == ArgumentAt(be, ps, params, i + k) by {
            forall k | 0 <= k < |args|
              ensures args[k] == ArgumentAt(be, ps, params, i + k)
            {
              if k > 0 {
                assert args[k] == rest.args[k - 1];
              }
            }
          }
          Converted(args)
  }

  // ----- Folding out-parameters into the result -----

  /** The converted post-call values of the out-parameters from position `i` on, in declaration order. */
  function OutValues(be: Backend, ps: seq<ParameterInfo>, after: int -> Variant, i: nat): seq<Json>
    requires i <= |ps|
    decreases |ps| - i
  {
    if i == |ps| then []
    else (if ps[i].isOut then [ResultToJson(be, after(i))] else []) + OutValues(be, ps, after, i + 1)
  }

  /** The positions of the out-parameters from `i` on: increasing, all out, and none missed. */
  function OutPositions(ps: seq<ParameterInfo>, i: nat): (r: seq<int>)
    requires i <= |ps|
    decreases |ps| - i
    ensures forall k :: 0 <= k < |r| ==> i <= r[k] < |ps| && ps[r[k]].isOut
    ensures forall k, l :: 0 <= k < l < |r| ==> r[k] < r[l]
    ensures forall n :: i <= n < |ps| && ps[n].isOut ==> n in r
  {
    if i == |ps| then []
    else (if ps[i].isOut then [i] else []) + OutPositions(ps, i + 1)
  }

  lemma {:induction false} OutValuesInOrder(be: Backend, ps: seq<ParameterInfo>, after: int -> Variant, i: nat)
    requires i <= |ps|
    ensures |OutValues(be, ps, after, i)| == |OutPositions(ps, i)|
    ensures forall k :: 0 <= k < |OutPositions(ps, i)| ==>
      OutValues(be, ps, after, i)[k] == ResultToJson(be, after(OutPositions(ps, i)[k]))
    decreases |ps| - i
  {
    if i < |ps| {
      OutValuesInOrder(be, ps, after, i + 1);
      var vs, os := OutValues(be, ps, after, i), OutPositions(ps, i);
      var vs', os' := OutValues(be, ps, after, i + 1), OutPositions(ps, i + 1);
      if ps[i].isOut {
        assert vs == [ResultToJson(be, after(i))] + vs' && os == [i] + os';
        forall k | 0 <= k < |os|
          ensures vs[k] == ResultToJson(be, after(os[k]))
        {
          if k > 0 {
            assert vs[k] == vs'[k - 1] && os[k] == os'[k - 1];
          }
        }
      } else {
        assert vs == vs' && os == os';
      }
    }
  }

  /** The elements of the folded result: the return value unless void, then the out values. */
  function ResultValues(be: Backend, info: MethodInfo, returned: Variant, after: int -> Variant): seq<Json> {
    (if info.returnType != Void then [ResultToJson(be, returned)] else []) + OutValues(be, info.parameters, after, 0)
  }

  /** A single element is returned bare; several are returned as an array. */
  function FoldResult(be: Backend, info: MethodInfo, returned: Variant, after: int -> Variant): Json {
    var values := ResultValues(be, info, returned, after);
    if |values| > 1 then JArray(values) else ArrayAt(values, 0)
  }

  /**
    The shape of a result of a method with out-parameters: one element for the return
    value (unless void) followed by one per out-parameter in declaration
    order; there is at least one element; exactly one is returned bare,
    otherwise the array is returned.
  */
  lemma FoldShape(be: Backend, info: MethodInfo, returned: Variant, after: int -> Variant)
    requires exists n :: 0 <= n < |info.parameters| && info.parameters[n].isOut
    ensures var values := ResultValues(be, info, returned, after);
      var outs := OutPositions(info.parameters, 0);
      && |values| >= 1
      && (info.returnType != Void ==>
            && |values| == 1 + |outs|
            && values[0] == ResultToJson(be, returned)
            && forall k :: 0 <= k < |outs| ==> values[k + 1] == ResultToJson(be, after(outs[k])))
      && (info.returnType == Void ==>
            && |values| == |outs|
            && forall k :: 0 <= k < |outs| ==> values[k] == ResultToJson(be, after(outs[k])))
      && (|values| == 1 ==> FoldResult(be, info, returned, after) == values[0])
      && (|values| > 1 ==> FoldResult(be, info, returned, after) == JArray(values))
  {
    OutsNonEmpty(info.parameters);
    if info.returnType != Void {
      FoldWithReturn(be, info, returned, after);
    } else {
      FoldWithoutReturn(be, info, returned, after);
    }
  }

  lemma OutsNonEmpty(ps: seq<ParameterInfo>)
    requires exists n :: 0 <= n < |ps| && ps[n].isOut
    ensures |OutPositions(ps, 0)| >= 1
  {
    var n :| 0 <= n < |ps| && ps[n].isOut;
    assert n in OutPositions(ps, 0);
  }

  lemma FoldWithReturn(be: Backend, info: MethodInfo, returned: Variant, after: int -> Variant)
    requires info.returnType != Void
    ensures var values := ResultValues(be, info, returned, after);
      var outs := OutPositions(info.parameters, 0);
      && |values| == 1 + |outs|
      && values[0] == ResultToJson(be, returned)
      && (forall k :: 0 <= k < |outs| ==> values[k + 1] == ResultToJson(be, after(outs[k])))
      && (|values| == 1 ==> FoldResult(be, info, returned, after) == values[0])
      && (|values| > 1 ==> FoldResult(be, info, returned, after) == JArray(values))
  {
    var tail := OutValues(be, info.parameters, after, 0);
    OutValuesInOrder(be, info.parameters, after, 0);
    LeadingElement(ResultToJson(be, returned), tail);
  }

  lemma FoldWithoutReturn(be: Backend, info: MethodInfo, returned: Variant, after: int -> Variant)
    requires info.returnType == Void
    ensures var values := ResultValues(be, info, returned, after);
      var outs := OutPositions(info.parameters, 0);
      && |values| == |outs|
      && (forall k :: 0 <= k < |outs| ==> values[k] == ResultToJson(be, after(outs[k])))
      && (|values| == 1 ==> FoldResult(be, info, returned, after) == values[0])
      && (|values| > 1 ==> FoldResult(be, info, returned, after) == JArray(values))
  {
    var tail := OutValues(be, info.parameters, after, 0);
    OutValuesInOrder(be, info.parameters, after, 0);
    assert ResultValues(be, info, returned, after) == tail;
  }

  lemma LeadingElement<T>(x: T, tail: seq<T>)
    ensures |[x] + tail| == 1 + |tail| && ([x] + tail)[0] == x
    ensures forall k :: 0 <= k < |tail| ==> ([x] + tail)[k + 1] == tail[k]
  {
  }

  // ----- Invocation of the three candidate kinds -----

  /** The post-call value of each argument slot of one native call. */
  function AfterCall(be: Backend, target: Handle, index: int, args: seq<Variant>): int -> Variant {
    (k: int) => be.argumentAfterCall(target, index, args, k)
  }

  /**
    invokeMethod. Conversion failure answers InvalidParams without touching
    the object; otherwise the method is called with the converted arguments
    in declaration order. A failed call answers InvalidRequest naming the
    method; a successful one answers a Response with the converted return
    value, or with the folded result when the method has out-parameters.
  */
  function InvokeMethod(target: Handle, be: Backend, index: int, info: MethodInfo, request: Message): (r: Outcome)
    ensures IsReplyTo(r.reply, request)
    ensures var ps := info.parameters; var params := Params(request);
      && (r.call == NoCall <==> !AllConvertible(be, ps, params))
      && (!AllConvertible(be, ps, params) ==>
            r.reply.ErrorMessage? && r.reply.code == InvalidParams &&
            exists k :: FirstFailureAt(be, ps, params, 0, k) && r.reply.text == FailureText(Incoming(params, ps[k], k), ps[k].name))
      && (AllConvertible(be, ps, params) ==>
            r.call.Invoked? && r.call.target == target && r.call.methodIndex == index &&
            |r.call.args| == |ps| && (forall k :: 0 <= k < |ps| ==> r.call.args[k] == ArgumentAt(be, ps, params, k)) &&
            (be.metacall(target, index, r.call.args).None? <==> r.reply.ErrorMessage?) &&
            (r.reply.ErrorMessage? ==> r.reply.code == InvalidRequest && r.reply.text == "dispatch for method '" + info.name + "' failed"))
      && (AllConvertible(be, ps, params) && be.metacall(target, index, r.call.args).Some? ==>
            var slot := be.metacall(target, index, r.call.args).value;
            && r.reply.ResponseMessage?
            && (info.hasOut ==>
                  r.reply.result == FoldResult(be, info, slot, AfterCall(be, target, index, r.call.args)))
            && (!info.hasOut && info.returnType == Void ==> r.reply.result == JNull)
            && (!info.hasOut && info.returnType != Void ==> r.reply.result == ResultToJson(be, slot)))
  {
    var params := Params(request);
    match ConvertArguments(be, info.parameters, params, 0)
    case Failed(text) => Outcome(CreateErrorResponse(request, InvalidParams, text), NoCall)
    case Converted(args) =>
      var call := Invoked(target, index, args);
      match be.metacall(target, index, args)
      case None =>
        Outcome(CreateErrorResponse(request, InvalidRequest, "dispatch for method '" + info.name + "' failed"), call)
      case Some(slot) =>
        var returned := if info.returnType == Void then InvalidVariant else slot;
        var after := AfterCall(be, target, index, args);
        if info.hasOut then Outcome(CreateResponse(request, FoldResult(be, info, returned, after)), call)
        else Outcome(CreateResponse(request, ResultToJson(be, returned)), call)
  }

  /**
    A successful call of a method with out-parameters answers the fold:
    the converted return value (unless void) and then the converted
    post-call value of every out-parameter in declaration order, bare when
    there is one element and as an array otherwise.
  */
  lemma InvokeMethodAnswersFold(target: Handle, be: Backend, index: int, info: MethodInfo, request: Message)
    requires info.hasOut && exists n :: 0 <= n < |info.parameters| && info.parameters[n].isOut
    requires AllConvertible(be, info.parameters, Params(request))
    requires be.metacall(target, index, InvokeMethod(target, be, index, info, request).call.args).Some?
    ensures var r := InvokeMethod(target, be, index, info, request);
      var slot := be.metacall(target, index, r.call.args).value;
      var after := AfterCall(be, target, index, r.call.args);
      var values := ResultValues(be, info, slot, after);
      var outs := OutPositions(info.parameters, 0);
      && r.reply.ResponseMessage?
      && (info.returnType != Void ==>
            |values| == 1 + |outs| && values[0] == ResultToJson(be, slot) &&
            forall k :: 0 <= k < |outs| ==> values[k + 1] == ResultToJson(be, after(outs[k])))
      && (info.returnType == Void ==>
            |values| == |outs| && forall k :: 0 <= k < |outs| ==> values[k] == ResultToJson(be, after(outs[k])))
      && (|values| == 1 ==> r.reply.result == values[0])
      && (|values| > 1 ==> r.reply.result == JArray(values))
  {
    var r := InvokeMethod(target, be, index, info, request);
    var slot := be.metacall(target, index, r.call.args).value;
    FoldShape(be, info, slot, AfterCall(be, target, index, r.call.args));
  }

  /** A successful call of a void method without out-parameters answers null. */
  lemma VoidMethodAnswersNull(target: Handle, be: Backend, index: int, info: MethodInfo, request: Message)
    requires info.returnType == Void && !info.hasOut
    requires InvokeMethod(target, be, index, info, request).reply.ResponseMessage?
    ensures InvokeMethod(target, be, index, info, request).reply.result == JNull
  {
  }

  /**
    callGetter. A getter takes no parameters: a non-empty array answers
    InvalidRequest without reading; otherwise the property is read and its
    converted value answered.
  */
  function CallGetter(target: Handle, be: Backend, index: int, request: Message): (r: Outcome)
    ensures IsReplyTo(r.reply, request)
    ensures |AsArray(Params(request))| != 0 <==> r.reply.ErrorMessage?
    ensures r.reply.ErrorMessage? ==>
      r.reply.code == InvalidRequest && r.reply.text == "getter shouldn't have parameters" && r.call == NoCall
    ensures r.reply.ResponseMessage? ==>
      r.call == ReadProperty(target, index) && r.reply.result == ResultToJson(be, be.readProperty(target, index))
  {
    if |AsArray(Params(request))| != 0 then
      Outcome(CreateErrorResponse(request, InvalidRequest, "getter shouldn't have parameters"), NoCall)
    else
      Outcome(CreateResponse(request, ResultToJson(be, be.readProperty(target, index))), ReadProperty(target, index))
  }

  /**
    callSetter. A setter takes exactly one parameter: any other array length
    answers InvalidRequest without writing. Otherwise the value, converted to
    the property's type, is written (even when that conversion fails) and the
    answer is a null result.
  */
  function CallSetter(target: Handle, be: Backend, index: int, prop: PropInfo, request: Message): (r: Outcome)
    ensures IsReplyTo(r.reply, request)
    ensures |AsArray(Params(request))| != 1 <==> r.reply.ErrorMessage?
    ensures r.reply.ErrorMessage? ==>
      r.reply.code == InvalidRequest && r.reply.text == "setter should have one parameter" && r.call == NoCall
    ensures r.reply.ResponseMessage? ==>
      r.reply.result == JNull &&
      r.call == WriteProperty(target, index, be.convertArgument(AsArray(Params(request))[0], prop.metaType))
  {
    var arr := AsArray(Params(request));
    if |arr| != 1 then
      Outcome(CreateErrorResponse(request, InvalidRequest, "setter should have one parameter"), NoCall)
    else
      var arg := be.convertArgument(arr[0], prop.metaType);
      Outcome(CreateResponse(request, ResultToJson(be, InvalidVariant)), WriteProperty(target, index, arg))
  }
}
