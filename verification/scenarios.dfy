/**
  End-to-end scenarios of the router on a `Calculator` service exposing
  `add(double, double): double` and a readable, writable `value` property of
  type double.
*/
module Scenarios {
  import opened Wrappers
  import opened Json
  import opened MetaTypes
  import opened Descriptors
  import opened Registry
  import opened Messages
  import opened Matching
  import opened Invocation
  import opened Dispatcher
  import opened Repository

  function ResolveCalculatorType(typeName: string): MetaType {
    if typeName == "double" then Double else UnknownType
  }

  const AddSlot := MetaMethod(5, "add", Public, Slot, Double, [RawParameter("double", "a"), RawParameter("double", "b")])
  const ValueProperty := MetaProperty(1, "value", "double", true, true)

  function Calculator(target: Handle): Service {
    NewService("Calculator", "1.0", "calculator", target, false, [AddSlot], [ValueProperty], ResolveCalculatorType, JNull)
  }

  lemma AddSignature()
    ensures Signature(AddSlot) == "add(double,double)"
  {
    var types := seq(|AddSlot.parameters|, i requires 0 <= i < |AddSlot.parameters| => AddSlot.parameters[i].typeName);
    assert types == ["double", "double"];
    assert Text.JoinComma(types) == "double" + "," + Text.JoinComma(["double"]);
  }

  lemma DoubleResolves()
    ensures !IsOutType("double") && BaseTypeName("double") == "double" && ResolveCalculatorType("double") == Double
  {
    assert "double"[|"double"| - 1] == 'e';
  }

  lemma AddIsValid()
    ensures MakeMethodInfo(AddSlot, ResolveCalculatorType).valid
  {
    DoubleResolves();
    assert Resolvable(AddSlot.parameters[0], ResolveCalculatorType);
    assert Resolvable(AddSlot.parameters[1], ResolveCalculatorType);
  }

  /** `add` is registered, and as a strict overload: its signature does not mention QVariant. */
  lemma AddIsStrict()
    ensures Registered(AddSlot, ResolveCalculatorType) && !IsLoose(AddSlot)
  {
    AddIsValid();
    AddSignature();
    Text.NotContainedWithoutFirstChar("add(double,double)", "QVariant");
  }

  lemma ValueAccessors()
    ensures MakePropInfo(ValueProperty, ResolveCalculatorType).getterName == "getValue"
    ensures MakePropInfo(ValueProperty, ResolveCalculatorType).setterName == "setValue"
  {
    assert Text.Capitalize("value") == "Value";
  }

  function CalculatorRegistry(): Registry {
    BuildRegistry([AddSlot], [ValueProperty], ResolveCalculatorType)
  }

  lemma GetValueEntry()
    ensures Entry(CalculatorRegistry(), "getValue") == [GetterCandidate(1, MakePropInfo(ValueProperty, ResolveCalculatorType))]
  {
    ValueAccessors();
    RegistryOrder([AddSlot], [ValueProperty], ResolveCalculatorType, "getValue");
    assert StrictNamed([AddSlot], "getValue", ResolveCalculatorType) == [];
    assert LooseNamed([AddSlot], "getValue", ResolveCalculatorType) == [];
    assert AccessorsOf(ValueProperty, "getValue", ResolveCalculatorType) == [GetterCandidate(1, MakePropInfo(ValueProperty, ResolveCalculatorType))];
    assert AccessorsNamed([ValueProperty], "getValue", ResolveCalculatorType) == AccessorsOf(ValueProperty, "getValue", ResolveCalculatorType);
  }

  lemma SetValueEntry()
    ensures Entry(CalculatorRegistry(), "setValue") == [SetterCandidate(1, MakePropInfo(ValueProperty, ResolveCalculatorType))]
  {
    ValueAccessors();
    RegistryOrder([AddSlot], [ValueProperty], ResolveCalculatorType, "setValue");
    assert StrictNamed([AddSlot], "setValue", ResolveCalculatorType) == [];
    assert LooseNamed([AddSlot], "setValue", ResolveCalculatorType) == [];
    assert AccessorsOf(ValueProperty, "setValue", ResolveCalculatorType) == [SetterCandidate(1, MakePropInfo(ValueProperty, ResolveCalculatorType))];
    assert AccessorsNamed([ValueProperty], "setValue", ResolveCalculatorType) == AccessorsOf(ValueProperty, "setValue", ResolveCalculatorType);
  }

  lemma AddEntry()
    ensures Entry(CalculatorRegistry(), "add") == [MethodCandidate(5, MakeMethodInfo(AddSlot, ResolveCalculatorType))]
  {
    ValueAccessors();
    AddIsStrict();
    RegistryOrder([AddSlot], [ValueProperty], ResolveCalculatorType, "add");
    assert StrictNamed([AddSlot], "add", ResolveCalculatorType) == [MethodCandidate(5, MakeMethodInfo(AddSlot, ResolveCalculatorType))];
    assert LooseNamed([AddSlot], "add", ResolveCalculatorType) == [];
    assert AccessorsOf(ValueProperty, "add", ResolveCalculatorType) == [];
    assert AccessorsNamed([ValueProperty], "add", ResolveCalculatorType) == [];
  }

  lemma CalculatorRegistryIs(target: Handle)
    ensures Calculator(target).registry == CalculatorRegistry()
    ensures Calculator(target).target == target
  {
  }

  lemma DotAtTen(path: string)
    requires |path| > 10 && path[10] == '.'
    requires forall k :: 10 < k < |path| ==> path[k] != '.'
    ensures Text.LastIndexOf(path, '.') == 10
  {
  }

  lemma InvocationNames()
    ensures InvocationName("Calculator.getValue") == "getValue"
    ensures InvocationName("Calculator.setValue") == "setValue"
    ensures InvocationName("Calculator.add") == "add"
  {
    DotAtTen("Calculator.getValue");
    DotAtTen("Calculator.setValue");
    DotAtTen("Calculator.add");
    assert "Calculator.getValue"[11..] == "getValue";
    assert "Calculator.setValue"[11..] == "setValue";
    assert "Calculator.add"[11..] == "add";
  }

  /** A positional request for `Calculator.getValue` reaches the getter of property 1 and nothing else. */
  lemma GetValueRoutes(target: Handle, be: Backend, request: Message)
    requires request.RequestMessage? && request.methodPath == "Calculator.getValue"
    requires !request.params.JObject?
    ensures Dispatch(Calculator(target), be, request) == CallGetter(target, be, 1, request)
  {
    CalculatorRegistryIs(target);
    InvocationNames();
    GetValueEntry();
    var c := GetterCandidate(1, MakePropInfo(ValueProperty, ResolveCalculatorType));
    ScanSelectsFirst(Calculator(target), be, request, [c], 0);
  }

  /** A positional request for `Calculator.setValue` reaches the setter of property 1 and nothing else. */
  lemma SetValueRoutes(target: Handle, be: Backend, request: Message)
    requires request.RequestMessage? && request.methodPath == "Calculator.setValue"
    requires !request.params.JObject?
    ensures Dispatch(Calculator(target), be, request)
         == CallSetter(target, be, 1, MakePropInfo(ValueProperty, ResolveCalculatorType), request)
  {
    CalculatorRegistryIs(target);
    InvocationNames();
    SetValueEntry();
    var c := SetterCandidate(1, MakePropInfo(ValueProperty, ResolveCalculatorType));
    ScanSelectsFirst(Calculator(target), be, request, [c], 0);
  }

  /** A request for `Calculator.add` is decided by the scan over the single `add` overload. */
  lemma AddRoutes(target: Handle, be: Backend, request: Message)
    requires request.RequestMessage? && request.methodPath == "Calculator.add"
    ensures Dispatch(Calculator(target), be, request)
         == Scan(Calculator(target), be, request, [MethodCandidate(5, MakeMethodInfo(AddSlot, ResolveCalculatorType))])
  {
    CalculatorRegistryIs(target);
    InvocationNames();
    AddEntry();
  }

  /** Reading `value` with an argument is refused as InvalidRequest, and nothing is read. */
  lemma GetterWithArgumentRefused(target: Handle, be: Backend, id: int)
    ensures var request := RequestMessage(id, "Calculator.getValue", JArray([JNumber(1.0)]));
      Dispatch(Calculator(target), be, request)
      == Outcome(CreateErrorResponse(request, InvalidRequest, "getter shouldn't have parameters"), NoCall)
  {
    var request := RequestMessage(id, "Calculator.getValue", JArray([JNumber(1.0)]));
    GetValueRoutes(target, be, request);
  }

  /** Writing `value` with one argument writes the converted value to property 1 and answers null. */
  lemma SetterWrites(target: Handle, be: Backend, id: int, v: Json)
    ensures var request := RequestMessage(id, "Calculator.setValue", JArray([v]));
      Dispatch(Calculator(target), be, request)
      == Outcome(CreateResponse(request, JNull), WriteProperty(target, 1, be.convertArgument(v, Double)))
  {
    var request := RequestMessage(id, "Calculator.setValue", JArray([v]));
    SetValueRoutes(target, be, request);
  }

  /** Writing `value` with no argument is refused as InvalidRequest, and nothing is written. */
  lemma SetterWithoutArgumentRefused(target: Handle, be: Backend, id: int)
    ensures var request := RequestMessage(id, "Calculator.setValue", JArray([]));
      Dispatch(Calculator(target), be, request)
      == Outcome(CreateErrorResponse(request, InvalidRequest, "setter should have one parameter"), NoCall)
  {
    var request := RequestMessage(id, "Calculator.setValue", JArray([]));
    SetValueRoutes(target, be, request);
  }

  lemma AddParameters()
    ensures var info := MakeMethodInfo(AddSlot, ResolveCalculatorType);
      && |info.parameters| == 2
      && info.parameters[0].jsType == NumberTag && !info.parameters[0].isOut && info.parameters[0].metaType == Double
      && info.parameters[1].jsType == NumberTag && !info.parameters[1].isOut && info.parameters[1].metaType == Double
  {
    AddIsValid();
    DoubleResolves();
  }

  /** Two numbers match `add(double, double)` positionally. */
  lemma AddMatchesNumbers()
    ensures Matches(JArray([JNumber(2.0), JNumber(3.0)]), MakeMethodInfo(AddSlot, ResolveCalculatorType))
  {
    var values := [JNumber(2.0), JNumber(3.0)];
    var ps := MakeMethodInfo(AddSlot, ResolveCalculatorType).parameters;
    AddParameters();
    assert Walk(ps, 2, values, 2);
    assert Walk(ps, 1, values, 1);
    assert Walk(ps, 0, values, 0);
  }

  /** A string where `add` declares a double rejects the overload. */
  lemma AddRejectsString(svc: Service, be: Backend, request: Message)
    requires Params(request) == JArray([JString("two"), JNumber(3.0)])
    ensures !Matches(Params(request), MakeMethodInfo(AddSlot, ResolveCalculatorType))
    ensures Scan(svc, be, request, [MethodCandidate(5, MakeMethodInfo(AddSlot, ResolveCalculatorType))]) == NoMatch(request)
  {
    AddParameters();
    ScanExhausted(svc, be, request, [MethodCandidate(5, MakeMethodInfo(AddSlot, ResolveCalculatorType))]);
  }

  /** `add` called with a string where a double is declared matches no overload: InvalidParams. */
  lemma AddWithStringRefused(target: Handle, be: Backend, id: int)
    ensures var request := RequestMessage(id, "Calculator.add", JArray([JString("two"), JNumber(3.0)]));
      Dispatch(Calculator(target), be, request)
      == Outcome(CreateErrorResponse(request, InvalidParams, "invalid parameters"), NoCall)
  {
    var request := RequestMessage(id, "Calculator.add", JArray([JString("two"), JNumber(3.0)]));
    AddRoutes(target, be, request);
    AddRejectsString(Calculator(target), be, request);
  }

  /** A request for `Calculator.add` whose parameters match the overload goes to `invokeMethod` of method 5. */
  lemma AddDispatchesToSlot(target: Handle, be: Backend, request: Message)
    requires request.RequestMessage? && request.methodPath == "Calculator.add"
    requires Matches(request.params, MakeMethodInfo(AddSlot, ResolveCalculatorType))
    ensures Dispatch(Calculator(target), be, request)
         == InvokeMethod(target, be, 5, MakeMethodInfo(AddSlot, ResolveCalculatorType), request)
  {
    AddRoutes(target, be, request);
    var c := MethodCandidate(5, MakeMethodInfo(AddSlot, ResolveCalculatorType));
    ScanSelectsFirst(Calculator(target), be, request, [c], 0);
  }

  /** Invoking `add` with two convertible numbers calls method 5 with both converted values, in order. */
  lemma AddInvocation(target: Handle, be: Backend, request: Message)
    requires Params(request) == JArray([JNumber(2.0), JNumber(3.0)])
    requires be.convertArgument(JNumber(2.0), Double) != InvalidVariant
    requires be.convertArgument(JNumber(3.0), Double) != InvalidVariant
    ensures InvokeMethod(target, be, 5, MakeMethodInfo(AddSlot, ResolveCalculatorType), request).call
         == Invoked(target, 5, [be.convertArgument(JNumber(2.0), Double), be.convertArgument(JNumber(3.0), Double)])
  {
    var ps := MakeMethodInfo(AddSlot, ResolveCalculatorType).parameters;
    AddParameters();
    assert ArgumentAt(be, ps, Params(request), 0) == be.convertArgument(JNumber(2.0), Double);
    assert ArgumentAt(be, ps, Params(request), 1) == be.convertArgument(JNumber(3.0), Double);
    assert AllConvertible(be, ps, Params(request));
  }

  /**
    `add(2, 3)`: the positional request matches the strict overload, and when
    both numbers convert the slot is called on the service's object with the
    converted arguments in declaration order.
  */
  lemma AddCallsSlot(target: Handle, be: Backend, id: int)
    requires be.convertArgument(JNumber(2.0), Double) != InvalidVariant
    requires be.convertArgument(JNumber(3.0), Double) != InvalidVariant
    ensures var request := RequestMessage(id, "Calculator.add", JArray([JNumber(2.0), JNumber(3.0)]));
      Dispatch(Calculator(target), be, request).call
      == Invoked(target, 5, [be.convertArgument(JNumber(2.0), Double), be.convertArgument(JNumber(3.0), Double)])
  {
    var request := RequestMessage(id, "Calculator.add", JArray([JNumber(2.0), JNumber(3.0)]));
    AddMatchesNumbers();
    AddDispatchesToSlot(target, be, request);
    AddInvocation(target, be, request);
  }
}
