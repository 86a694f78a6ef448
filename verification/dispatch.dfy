/**
  A service and its dispatcher (QJsonChannelService::dispatch): resolving the
  invocation name, scanning its candidates for the first that applies, and
  handing the request to it.
*/
module Dispatcher {
  import opened Json
  import opened MetaTypes
  import opened Descriptors
  import opened Registry
  import opened Matching
  import opened Messages
  import opened Invocation
  import opened Text

  /**
    A service: its name, version and description, the backing object, whether
    that object is thread-safe, its registry, and its discovery schema (an
    opaque value here).
  */
  datatype Service = Service(
    name: string,
    version: string,
    description: string,
    target: Handle,
    threadSafe: bool,
    registry: Registry,
    info: Json)

  /** The service constructor: the registry is built once from the reflected methods and properties. */
  function NewService(
    name: string, version: string, description: string, target: Handle, threadSafe: bool,
    methods: seq<MetaMethod>, properties: seq<MetaProperty>, resolve: string -> MetaType, info: Json): (s: Service)
    ensures s.name == name && s.target == target && s.info == info
    ensures WellFormedRegistry(s.registry)
    ensures forall n :: (Entry(s.registry, n) ==
      Reverse(StrictNamed(methods, n, resolve)) + LooseNamed(methods, n, resolve) + AccessorsNamed(properties, n, resolve))
  {
    var reg := BuildRegistry(methods, properties, resolve);
    BuildRegistryWellFormed(methods, properties, resolve);
    forall n
      ensures Entry(reg, n)
        == Reverse(StrictNamed(methods, n, resolve)) + LooseNamed(methods, n, resolve) + AccessorsNamed(properties, n, resolve)
    {
      RegistryOrder(methods, properties, resolve, n);
    }
    Service(name, version, description, target, threadSafe, reg, info)
  }

  /**
    methodName: the text after the last `.` of the method path, or the whole
    path when it has no `.`. The result is the longest suffix free of `.`.
  */
  function InvocationName(path: string): (r: string)
    ensures |r| <= |path| && r == path[|path| - |r|..]
    ensures forall k :: 0 <= k < |r| ==> r[k] != '.'
    ensures |r| < |path| ==> path[|path| - |r| - 1] == '.'
  {
    path[LastIndexOf(path, '.') + 1..]
  }

  /** Whether the scan stops at candidate `c`: an accessor always does, a method when its shape matches. */
  predicate Terminal(params: Json, c: Candidate) {
    !c.MethodCandidate? || Matches(params, c.info)
  }

  /**
    Acting on the candidate the scan stopped at: a method is invoked; an
    accessor accepts only positional (array-style) requests, refusing named
    ones with InvalidRequest without touching the object, and otherwise
    reads or writes its property.
  */
  function HandleCandidate(svc: Service, be: Backend, request: Message, c: Candidate): (r: Outcome)
    ensures IsReplyTo(r.reply, request)
    ensures r.call != NoCall ==> r.call.target == svc.target
    ensures c.MethodCandidate? ==> r == InvokeMethod(svc.target, be, c.index, c.info, request)
    ensures !c.MethodCandidate? && Params(request).JObject? ==>
      r.call == NoCall && r.reply.ErrorMessage? && r.reply.code == InvalidRequest &&
      r.reply.text == (if c.GetterCandidate? then "getters are supporting only array-styled requests"
                       else "setters are supporting only array-styled requests")
    ensures c.GetterCandidate? && !Params(request).JObject? ==> r == CallGetter(svc.target, be, c.index, request)
    ensures c.SetterCandidate? && !Params(request).JObject? ==> r == CallSetter(svc.target, be, c.index, c.prop, request)
  {
    match c
    case MethodCandidate(index, info) => InvokeMethod(svc.target, be, index, info, request)
    case GetterCandidate(index, _) =>
      if Params(request).JObject? then
        Outcome(CreateErrorResponse(request, InvalidRequest, "getters are supporting only array-styled requests"), NoCall)
      else CallGetter(svc.target, be, index, request)
    case SetterCandidate(index, prop) =>
      if Params(request).JObject? then
        Outcome(CreateErrorResponse(request, InvalidRequest, "setters are supporting only array-styled requests"), NoCall)
      else CallSetter(svc.target, be, index, prop, request)
  }

  /** The answer when no candidate applies. */
  function NoMatch(request: Message): Outcome {
    Outcome(CreateErrorResponse(request, InvalidParams, "invalid parameters"), NoCall)
  }

  /** The candidate loop: the first terminal candidate decides; none left means InvalidParams. */
  function Scan(svc: Service, be: Backend, request: Message, cands: seq<Candidate>): (r: Outcome)
    decreases |cands|
    ensures IsReplyTo(r.reply, request)
    ensures r.call != NoCall ==> r.call.target == svc.target
    ensures r.call != NoCall ==> exists k :: 0 <= k < |cands| && Terminal(Params(request), cands[k])
  {
    if |cands| == 0 then NoMatch(request)
    else if Terminal(Params(request), cands[0]) then HandleCandidate(svc, be, request, cands[0])
    else
      var r := Scan(svc, be, request, cands[1..]);
      assert r.call != NoCall ==> exists k :: 1 <= k < |cands| && Terminal(Params(request), cands[k]) by {
        if r.call != NoCall {
          var k :| 0 <= k < |cands[1..]| && Terminal(Params(request), cands[1..][k]);
          assert cands[k + 1] == cands[1..][k];
        }
      }
      r
  }

  /** First-match rule: the scan acts on the first terminal candidate and on no other. */
  lemma {:induction false} ScanSelectsFirst(svc: Service, be: Backend, request: Message, cands: seq<Candidate>, k: int)
    requires 0 <= k < |cands| && Terminal(Params(request), cands[k])
    requires forall j :: 0 <= j < k ==> !Terminal(Params(request), cands[j])
    ensures Scan(svc, be, request, cands) == HandleCandidate(svc, be, request, cands[k])
    decreases k
  {
    if k > 0 {
      ScanSelectsFirst(svc, be, request, cands[1..], k - 1);
    }
  }

  /** When no candidate is terminal the scan answers InvalidParams "invalid parameters" without calling anything. */
  lemma {:induction false} ScanExhausted(svc: Service, be: Backend, request: Message, cands: seq<Candidate>)
    requires forall j :: 0 <= j < |cands| ==> !Terminal(Params(request), cands[j])
    ensures Scan(svc, be, request, cands) == NoMatch(request)
    decreases |cands|
  {
    if |cands| > 0 {
      ScanExhausted(svc, be, request, cands[1..]);
    }
  }

  predicate IsCall(m: Message) {
    m.RequestMessage? || m.NotificationMessage?
  }

  /**
    QJsonChannelService::dispatch. Every answer is a Response or Error
    carrying the request's correlation id, and only the service's own backing
    object is touched, only through a candidate registered under the
    invocation name.
  */
  function Dispatch(svc: Service, be: Backend, request: Message): (r: Outcome)
    ensures IsReplyTo(r.reply, request)
    ensures r.call != NoCall ==> r.call.target == svc.target
    ensures r.call != NoCall ==>
      && IsCall(request)
      && InvocationName(MethodPath(request)) in svc.registry
      && exists k :: 0 <= k < |svc.registry[InvocationName(MethodPath(request))]|
           && Terminal(Params(request), svc.registry[InvocationName(MethodPath(request))][k])
  {
    if !IsCall(request) then
      Outcome(CreateErrorResponse(request, InvalidRequest, "invalid request"), NoCall)
    else
      var name := InvocationName(MethodPath(request));
      if name !in svc.registry then
        Outcome(CreateErrorResponse(request, MethodNotFound, "invalid method called"), NoCall)
      else Scan(svc, be, request, svc.registry[name])
  }

  /**
    The dispatch error taxonomy and resolution, case by case: a message that
    is not a request or notification answers InvalidRequest; an unregistered
    invocation name answers MethodNotFound; otherwise the first terminal
    candidate under that name decides, and with none the answer is
    InvalidParams.
  */
  lemma DispatchCases(svc: Service, be: Backend, request: Message)
    ensures !IsCall(request) ==>
      Dispatch(svc, be, request) == Outcome(CreateErrorResponse(request, InvalidRequest, "invalid request"), NoCall)
    ensures IsCall(request) && InvocationName(MethodPath(request)) !in svc.registry ==>
      Dispatch(svc, be, request) == Outcome(CreateErrorResponse(request, MethodNotFound, "invalid method called"), NoCall)
    ensures IsCall(request) && InvocationName(MethodPath(request)) in svc.registry ==>
      var cands := svc.registry[InvocationName(MethodPath(request))];
      && (forall k ::
            (0 <= k < |cands| && Terminal(Params(request), cands[k]) &&
             forall j :: 0 <= j < k ==> !Terminal(Params(request), cands[j]))
            ==> Dispatch(svc, be, request) == HandleCandidate(svc, be, request, cands[k]))
      && ((forall j :: 0 <= j < |cands| ==> !Terminal(Params(request), cands[j])) ==>
            Dispatch(svc, be, request) == NoMatch(request))
  {
    if IsCall(request) && InvocationName(MethodPath(request)) in svc.registry {
      var cands := svc.registry[InvocationName(MethodPath(request))];
      forall k | 0 <= k < |cands| && Terminal(Params(request), cands[k]) &&
            (forall j :: 0 <= j < k ==> !Terminal(Params(request), cands[j]))
        ensures Dispatch(svc, be, request) == HandleCandidate(svc, be, request, cands[k])
      {
        ScanSelectsFirst(svc, be, request, cands, k);
      }
      if forall j :: 0 <= j < |cands| ==> !Terminal(Params(request), cands[j]) {
        ScanExhausted(svc, be, request, cands);
      }
    }
  }

  /**
    Accessors are terminal: once the scan reaches a getter or setter, a named
    request is refused with InvalidRequest even if a later method candidate
    would match.
  */
  lemma AccessorRefusesNamed(svc: Service, be: Backend, request: Message, cands: seq<Candidate>, k: int)
    requires 0 <= k < |cands| && !cands[k].MethodCandidate? && Params(request).JObject?
    requires forall j :: 0 <= j < k ==> !Terminal(Params(request), cands[j])
    ensures var r := Scan(svc, be, request, cands);
      && r.call == NoCall
      && r.reply == CreateErrorResponse(request, InvalidRequest,
           if cands[k].GetterCandidate? then "getters are supporting only array-styled requests"
           else "setters are supporting only array-styled requests")
  {
    ScanSelectsFirst(svc, be, request, cands, k);
    var r := HandleCandidate(svc, be, request, cands[k]);
    if cands[k].GetterCandidate? {
      assert r == Outcome(CreateErrorResponse(request, InvalidRequest, "getters are supporting only array-styled requests"), NoCall);
    } else {
      assert r == Outcome(CreateErrorResponse(request, InvalidRequest, "setters are supporting only array-styled requests"), NoCall);
    }
  }

  /**
    The positional cursor and the argument index disagree. For a method
    declared (out number, string) called with ["x"], the out-parameter is
    skipped by the matcher and "x" is matched against the string parameter,
    yet argument extraction hands "x" to the out-parameter and gives the
    string parameter an absent (Undefined) value.
  */
  lemma OutSkipMisalignsArguments()
    ensures var ps := [MakeParameterInfo("o", Int, true), MakeParameterInfo("s", QString, false)];
      var params := JArray([JString("x")]);
      && Matches(params, MethodInfo("f", Void, ps, true, true))
      && Incoming(params, ps[0], 0) == JString("x")
      && Incoming(params, ps[1], 1) == JUndefined
  {
    var ps := [MakeParameterInfo("o", Int, true), MakeParameterInfo("s", QString, false)];
    var values := [JString("x")];
    assert Walk(ps, 2, values, 1);
    assert Walk(ps, 1, values, 0);
  }
}
