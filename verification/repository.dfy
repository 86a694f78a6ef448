/**
  The service repository (QJsonChannelServiceRepository): a table of named
  services, and the top-level entry point that classifies an incoming
  message and routes it.
*/
module Repository {
  import opened Wrappers
  import opened Json
  import opened MetaTypes
  import opened Descriptors
  import opened Messages
  import opened Invocation
  import opened Dispatcher

  type Services = map<string, Service>

  /** Every service is filed under its own, non-empty, name. */
  predicate Consistent(repo: Services) {
    forall k :: k in repo ==> k != "" && repo[k].name == k
  }

  /** The result of a mutating operation: whether it succeeded, and the table afterwards. */
  datatype Update = Update(ok: bool, services: Services)

  /**
    addService(service): refused when the name is empty or already taken,
    leaving the table as it was; otherwise exactly that entry is added and
    every other entry is kept.
  */
  function AddService(repo: Services, svc: Service): (u: Update)
    ensures u.ok <==> svc.name != "" && svc.name !in repo
    ensures !u.ok ==> u.services == repo
    ensures u.ok ==> u.services.Keys == repo.Keys + {svc.name} && u.services[svc.name] == svc
    ensures forall k :: k in repo ==> k in u.services && u.services[k] == repo[k]
    ensures Consistent(repo) ==> Consistent(u.services)
  {
    if svc.name == "" then Update(false, repo)
    else if svc.name in repo then Update(false, repo)
    else Update(true, repo[svc.name := svc])
  }

  /** addService(name, version, description, obj): a new service whose object is guarded by its lock. */
  function AddObjectService(
    repo: Services, name: string, version: string, description: string, target: Handle,
    methods: seq<MetaMethod>, properties: seq<MetaProperty>, resolve: string -> MetaType, info: Json): (u: Update)
    ensures u.ok <==> name != "" && name !in repo
    ensures u.ok ==> name in u.services && !u.services[name].threadSafe && u.services[name].target == target
    ensures u.ok ==> u.services.Keys == repo.Keys + {name}
    ensures !u.ok ==> u.services == repo
    ensures forall k :: k in repo ==> k in u.services && u.services[k] == repo[k]
  {
    AddService(repo, NewService(name, version, description, target, false, methods, properties, resolve, info))
  }

  /** addThreadSafeService: a new service whose object is called without locking. */
  function AddThreadSafeService(
    repo: Services, name: string, version: string, description: string, target: Handle,
    methods: seq<MetaMethod>, properties: seq<MetaProperty>, resolve: string -> MetaType, info: Json): (u: Update)
    ensures u.ok <==> name != "" && name !in repo
    ensures u.ok ==> name in u.services && u.services[name].threadSafe && u.services[name].target == target
    ensures u.ok ==> u.services.Keys == repo.Keys + {name}
    ensures !u.ok ==> u.services == repo
    ensures forall k :: k in repo ==> k in u.services && u.services[k] == repo[k]
  {
    AddService(repo, NewService(name, version, description, target, true, methods, properties, resolve, info))
  }

  /** removeService: refused when the name is absent; otherwise only that key is removed. */
  function RemoveService(repo: Services, name: string): (u: Update)
    ensures u.ok <==> name in repo
    ensures u.services.Keys == repo.Keys - {name}
    ensures forall k :: k in u.services ==> u.services[k] == repo[k]
    ensures Consistent(repo) ==> Consistent(u.services)
  {
    if name !in repo then Update(false, repo)
    else Update(true, map k | k in repo && k != name :: repo[k])
  }

  /** getService: the stored service, or nothing for an absent name. */
  function GetService(repo: Services, name: string): (r: Option<Service>)
    ensures r.Some? <==> name in repo
    ensures r.Some? ==> r.value == repo[name]
  {
    if name !in repo then None else Some(repo[name])
  }

  /** getServiceObject: the stored service's backing object, or nothing for an absent name. */
  function GetServiceObject(repo: Services, name: string): (r: Option<Handle>)
    ensures r.Some? <==> name in repo
    ensures r.Some? ==> r.value == repo[name].target
  {
    if name !in repo then None else Some(repo[name].target)
  }

  /** servicesInfo: one member per registered service name, holding that service's schema. */
  function ServicesInfo(repo: Services): (infos: map<string, Json>)
    ensures infos.Keys == repo.Keys
    ensures forall k :: k in infos ==> infos[k] == repo[k].info
  {
    map k | k in repo :: repo[k].info
  }

  /**
    processMessage. `serviceNameOf` splits a method path into its service
    name. Discovery is answered with every service's schema; a request or
    notification for a registered service gets exactly that service's
    dispatch outcome; a request for an empty or unknown service name gets
    MethodNotFound, while such a notification gets the empty (invalid)
    message; a response gets the empty message; anything else gets
    InvalidRequest.
  */
  function ProcessMessage(repo: Services, be: Backend, serviceNameOf: string -> string, msg: Message): (r: Outcome)
    ensures TypeOf(msg) == Discovery ==>
      r.call == NoCall && IsReplyTo(r.reply, msg) && r.reply.ResponseMessage? &&
      r.reply.result.JObject? && r.reply.result.fields == ServicesInfo(repo)
    ensures IsCall(msg) && serviceNameOf(MethodPath(msg)) != "" && serviceNameOf(MethodPath(msg)) in repo ==>
      r == Dispatch(repo[serviceNameOf(MethodPath(msg))], be, msg)
    ensures var name := serviceNameOf(MethodPath(msg));
      TypeOf(msg) == Request && (name == "" || name !in repo) ==>
      r.call == NoCall && r.reply == CreateErrorResponse(msg, MethodNotFound, "service '" + name + "' not found")
    ensures var name := serviceNameOf(MethodPath(msg));
      TypeOf(msg) == Notification && (name == "" || name !in repo) ==> r == Outcome(InvalidMessage, NoCall)
    ensures TypeOf(msg) == Response ==> r == Outcome(InvalidMessage, NoCall)
    ensures TypeOf(msg) in {Invalid, Error} ==>
      r.call == NoCall && r.reply == CreateErrorResponse(msg, InvalidRequest, "invalid request")
    ensures r.call != NoCall ==>
      IsCall(msg) && serviceNameOf(MethodPath(msg)) in repo && r.call.target == repo[serviceNameOf(MethodPath(msg))].target
  {
    match msg
    case DiscoveryMessage(_) => Outcome(CreateResponse(msg, JObject(ServicesInfo(repo))), NoCall)
    case RequestMessage(_, _, _) => Route(repo, be, serviceNameOf, msg)
    case NotificationMessage(_, _) => Route(repo, be, serviceNameOf, msg)
    case ResponseMessage(_, _) => Outcome(InvalidMessage, NoCall)
    case _ => Outcome(CreateErrorResponse(msg, InvalidRequest, "invalid request"), NoCall)
  }

  /** The Request/Notification branch of processMessage. */
  function Route(repo: Services, be: Backend, serviceNameOf: string -> string, msg: Message): (r: Outcome)
    requires IsCall(msg)
    ensures r.call != NoCall ==>
      serviceNameOf(MethodPath(msg)) in repo && r.call.target == repo[serviceNameOf(MethodPath(msg))].target
  {
    var name := serviceNameOf(MethodPath(msg));
    if name == "" || name !in repo then
      if msg.RequestMessage? then
        Outcome(CreateErrorResponse(msg, MethodNotFound, "service '" + name + "' not found"), NoCall)
      else Outcome(InvalidMessage, NoCall)
    else
      Dispatch(repo[name], be, msg)
  }

  /** Adding a service and then getting it by name returns it. */
  lemma AddThenGet(repo: Services, svc: Service)
    requires AddService(repo, svc).ok
    ensures GetService(AddService(repo, svc).services, svc.name) == Some(svc)
  {
  }

  /** Removing a service that was just added restores the table. */
  lemma AddThenRemove(repo: Services, svc: Service)
    requires AddService(repo, svc).ok
    ensures RemoveService(AddService(repo, svc).services, svc.name) == Update(true, repo)
  {
    var after := RemoveService(AddService(repo, svc).services, svc.name).services;
    assert after.Keys == repo.Keys;
  }

  /** Re-adding a service that was just removed restores the table. */
  lemma RemoveThenAdd(repo: Services, name: string)
    requires Consistent(repo) && name in repo
    ensures AddService(RemoveService(repo, name).services, repo[name]) == Update(true, repo)
  {
    var after := AddService(RemoveService(repo, name).services, repo[name]).services;
    assert after.Keys == repo.Keys;
  }

  /** Once a service is added, discovery reports its schema under its name. */
  lemma DiscoveryAfterAdd(repo: Services, svc: Service, be: Backend, serviceNameOf: string -> string, id: Option<int>)
    requires AddService(repo, svc).ok
    ensures var reply := ProcessMessage(AddService(repo, svc).services, be, serviceNameOf, DiscoveryMessage(id)).reply;
      reply.ResponseMessage? && reply.result.JObject? &&
      svc.name in reply.result.fields && reply.result.fields[svc.name] == svc.info
  {
  }
}
