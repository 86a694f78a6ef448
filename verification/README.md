# QJsonChannel service core in Dafny

This project models the server side of QJsonChannel, a JSON-RPC-style channel for
Qt. A *service* wraps a backing object. From that object's reflected methods and
properties the service builds an invocation registry. The registry maps each
invocation name to an ordered list of candidates:

- method overloads;
- property getters `get<Name>`;
- property setters `set<Name>`.

`dispatch` resolves an incoming request or notification against that registry:

- It matches the request's positional (array) or named (object) parameters against each overload's declared wire types.
- It converts the arguments.
- It calls the method, or reads or writes the property.
- It answers with a Response or an Error message that carries the request's id.

A *repository* holds services by name. It adds and removes them, answers
discovery requests, and routes each message to the service its method path names.

Modules, in dependency order:

| module | file | concern |
|---|---|---|
| `Wrappers` | wrappers.dfy | `Option` |
| `Text` | text.dfy | `endsWith`, `contains`, `lastIndexOf`, capitalisation, signature joining |
| `Json` | json.dfy | JSON values, their type tags, `QJsonArray::at` and `QJsonObject::value` |
| `MetaTypes` | metatypes.dfy | the Qt meta types, their JSON tags, and variants |
| `Messages` | messages.dfy | message kinds, validity, and the factories |
| `Descriptors` | descriptors.dfy | reflected members and the parameter, method and property descriptors |
| `Registry` | registry.dfy | `cacheInvokableInfo`: building the invocation registry and its candidate order |
| `Matching` | matching.dfy | the two `jsParameterCompare` overloads |
| `Invocation` | invocation.dfy | `invokeMethod`, `callGetter`, `callSetter`, and folding out-parameters |
| `Dispatcher` | dispatch.dfy | `methodName` and `dispatch` |
| `Repository` | repository.dfy | the service repository and `processMessage` |
| `Scenarios` | scenarios.dfy | end-to-end facts about one concrete `Calculator` service |

Everything the core does not compute itself is a parameter. This covers:

- **Reflection.** The object's methods and properties are passed in as lists.
- **Type resolution.** `QMetaType::type` becomes a `resolve` function.
- **The call backend.** A `Backend` value holds `qt_metacall`, the out-argument values after a call, the property read, `convertArgument` and `convertReturnValue`.
- **Path splitting.** `serviceName()`, which splits a method path, becomes `serviceNameOf`.

Effects are returned rather than performed. Every operation yields an `Outcome`: the reply message together with the one `Call` it made. The `Call` is nothing, a method invocation, a property read or a property write. This makes statements such as "a failed argument conversion does not touch the object" provable.

Where the code and its documentation disagree, the model follows the code:

- **Fallback of `convertReturnValue`.** When a return value has no JSON form, `convertReturnValue` answers `QJsonValue()`, which is null (QJsonChannelService.cpp:432-435). It does not answer undefined. `Invocation.ResultToJson` answers `JNull`.
- **Named matcher and out-parameters.** The named matcher forgives only a *missing* out-parameter. An out-parameter that is present with a mismatching JSON type still rejects the overload (QJsonChannelService.cpp:367-374). `Matching.NamedAccepts` says exactly that.
- **Properties whose type does not resolve.** These are still registered, because `PropInfo` has no validity check (QJsonChannelService.cpp:126-139).
- **Positional argument extraction.** It indexes the parameter array by the *declared* position `i` (QJsonChannelService.cpp:462). The positional matcher, by contrast, keeps a separate cursor that does not advance over a skipped out-parameter (QJsonChannelService.cpp:349-357). The model mirrors both behaviours. `Dispatcher.OutSkipMisalignsArguments` exhibits an input on which the two disagree.

## Model

| member | source | states |
|---|---|---|
| MetaTypes.JsTypeOf | src/QJsonChannelService.cpp:273-302 | The twelve numeric native types map to the JSON number tag. QVariantList and QStringList map to array, QVariantMap to object, QString to string and Bool to bool. Every other type maps to undefined, and no type maps to null. Each case holds in both directions. |
| Descriptors.ScanParameters | src/QJsonChannelService.cpp:101-123 | The parameter scan is valid exactly when every parameter type, with a trailing `&` removed, resolves to a known type. When valid, it yields one descriptor per parameter in order, and `hasOut` holds exactly when some parameter type ends with `&`. |
| Descriptors.MakeMethodInfo | src/QJsonChannelService.cpp:84-124 | A method descriptor is valid exactly when the return type is known and every parameter resolves. When valid, each parameter keeps its name, is an out-parameter exactly when its type ends with `&`, and carries the resolved type and its JSON tag. `hasOut` holds exactly when some parameter is out. |
| Descriptors.MakePropInfo | src/QJsonChannelService.cpp:126-139 | A property descriptor's getter name is `get` + the capitalised name exactly when the property is readable, and empty otherwise. The setter name is `set` + the capitalised name exactly when the property is writable, and empty otherwise. |
| Registry.RegistryOrder | src/QJsonChannelService.cpp:306-343 | For every name, the registry entry lists, in this order: (a) the strict overloads (signature without `QVariant`) in reverse declaration order, because each is prepended; (b) the loose overloads in declaration order, because each is appended; (c) the getters and setters in property order. Unexposed and invalid methods do not appear. |
| Registry.BuildRegistryWellFormed | src/QJsonChannelService.cpp:312-340 | Every registered name has at least one candidate. Each method candidate carries that name and a valid descriptor, and each getter or setter candidate is registered under its accessor name. |
| Registry.AccessorsComeLast | src/QJsonChannelService.cpp:310-340 | Within any entry, no method candidate comes after a getter or setter candidate. |
| Registry.AddMethodsOrder | src/QJsonChannelService.cpp:310-328 | Adding methods to any registry turns each entry into the reversed new strict overloads, then the old entry, then the new loose overloads. |
| Registry.AddPropertiesOrder | src/QJsonChannelService.cpp:330-343 | Adding properties to any registry appends each property's getter and then its setter to the entry named after it, and leaves all other entries unchanged. |
| Matching.PositionalCompare | src/QJsonChannelService.cpp:348-361 | The array matcher loop answers exactly the positional-match relation. A match implies that no more values were supplied than parameters were declared. |
| Matching.PositionalNoSurplus | src/QJsonChannelService.cpp:348-361 | Supplying more values than declared parameters never matches. |
| Matching.PositionalWithoutOut | src/QJsonChannelService.cpp:348-361 | Without out-parameters, an array matches exactly when it is no longer than the parameter list and each value's tag is accepted by the parameter at its own position. |
| Matching.OutParameterSkipped | src/QJsonChannelService.cpp:352-354 | An out-parameter whose tag rejects the current value is skipped without consuming that value. |
| Matching.NamedCompare | src/QJsonChannelService.cpp:363-378 | The object matcher loop answers exactly the named-match relation. A missing key is allowed only for an out-parameter. A present value must have the declared tag, unless the declared tag is undefined. |
| Matching.Matches | src/QJsonChannelService.cpp:580-589 | An object of parameters matches exactly when every declared parameter accepts the value stored under its name. Any other parameters are read as an array and matched by position: a match never has more values than declared parameters, an empty array always matches, and without out-parameters a match is a per-position tag test. |
| Matching.NamedIgnoresExtraKeys | src/QJsonChannelService.cpp:363-378 | Keys that name no declared parameter never change the outcome of named matching. |
| Invocation.ResultToJson | src/QJsonChannelService.cpp:412-437 | A return value the converter gives a JSON form is answered as that form. An invalid value, or one with no JSON form, is answered as null, never as undefined. |
| Invocation.ConvertArguments | src/QJsonChannelService.cpp:460-476 | Argument conversion succeeds exactly when every argument converts, and then yields the arguments in declaration order. Otherwise it fails at the first unconvertible argument. The failure text names that parameter and says whether the value was absent or failed to convert. |
| Invocation.OutPositions | src/QJsonChannelService.cpp:496-498 | The positions collected for folding are exactly the out-parameters, in increasing order. |
| Invocation.OutValuesInOrder | src/QJsonChannelService.cpp:496-498 | The folded out-values correspond one to one, in order, to the out-parameter positions. Each is the converted post-call value of its argument. |
| Invocation.FoldShape | src/QJsonChannelService.cpp:492-502 | For a method with out-parameters, the folded result has one element for the return value (unless the method is void) and then one per out-parameter. There is at least one element. A single element is answered bare, and several are answered as an array. |
| Invocation.InvokeMethod | src/QJsonChannelService.cpp:439-505 | If some argument fails to convert, the answer is InvalidParams with the first failure's text and the object is not called. Otherwise the method is called once on the service object with the converted arguments in order. A failed call answers InvalidRequest `dispatch for method '<name>' failed`. A successful call answers a Response: the folded result when the method has out-parameters, otherwise the converted return value, or null for a void method. Every reply carries the request's id. |
| Invocation.InvokeMethodAnswersFold | src/QJsonChannelService.cpp:492-502 | A successful call of a method with out-parameters answers the converted return value (unless void) followed by the converted post-call value of each out-parameter in declaration order. A single value is answered bare, and several as an array. |
| Invocation.VoidMethodAnswersNull | src/QJsonChannelService.cpp:445-504 | A successful call of a void method without out-parameters answers null. |
| Invocation.CallGetter | src/QJsonChannelService.cpp:508-530 | A getter answers an error exactly when parameters are supplied. The error is InvalidRequest `getter shouldn't have parameters` and nothing is read. Otherwise the property is read once and its converted value is answered. |
| Invocation.CallSetter | src/QJsonChannelService.cpp:532-557 | A setter answers an error exactly when the parameter array does not hold exactly one value. The error is InvalidRequest `setter should have one parameter` and nothing is written. Otherwise it writes the value, converted to the property type, and answers null. |
| Dispatcher.NewService | src/QJsonChannelService.cpp:141-144 | A new service keeps its name, object and schema. Its registry is well formed and ordered as `Registry.RegistryOrder` states. |
| Dispatcher.InvocationName | src/QJsonChannelService.cpp:559-562 | The invocation name is the longest dot-free suffix of the method path. When it is shorter than the path, it is preceded by a `.`. |
| Dispatcher.HandleCandidate | src/QJsonChannelService.cpp:583-612 | A method candidate is invoked. A getter or setter given named parameters is refused with its accessor-specific InvalidRequest text, and nothing is called. Given positional parameters, a getter reads its property and a setter writes it. The reply carries the request's id, and any call touches only the service's object. |
| Dispatcher.Scan | src/QJsonChannelService.cpp:583-615 | The candidate loop always answers the request. Any call it makes targets the service's object, and is made only when some candidate is terminal. A terminal candidate is an accessor, or a method whose parameters match. |
| Dispatcher.ScanSelectsFirst | src/QJsonChannelService.cpp:583-613 | The loop acts on the first terminal candidate and on no other. |
| Dispatcher.ScanExhausted | src/QJsonChannelService.cpp:615 | With no terminal candidate, the answer is InvalidParams `invalid parameters` and nothing is called. |
| Dispatcher.Dispatch | src/QJsonChannelService.cpp:565-616 | Every answer carries the request's id. A call is made only for a request or notification whose invocation name is registered, and only on the service's object, through a terminal candidate of that name. |
| Dispatcher.DispatchCases | src/QJsonChannelService.cpp:567-615 | A message that is not a request or notification answers InvalidRequest `invalid request`. An unregistered invocation name answers MethodNotFound `invalid method called`. Otherwise the first terminal candidate decides, and with none the answer is InvalidParams `invalid parameters`. |
| Dispatcher.AccessorRefusesNamed | src/QJsonChannelService.cpp:583-612 | If the first terminal candidate is a getter or setter and the parameters are named, the scan answers InvalidRequest with the getter- or setter-specific text and calls nothing, even if a later overload would match. |
| Dispatcher.OutSkipMisalignsArguments | src/QJsonChannelService.cpp:348-462 | Take `(out int, QString)` called with `["x"]`. It matches, because the out-parameter is skipped. But the extraction hands `"x"` to the out-parameter and an absent value to the string parameter. |
| Repository.AddService | src/QJsonChannelServiceRepository.cpp:44-58 | Adding succeeds exactly when the name is non-empty and not yet taken. On success the new service is stored under its name and every other service is kept. On failure the repository is unchanged. |
| Repository.AddObjectService | src/QJsonChannelServiceRepository.cpp:32-36 | Adding by name and object creates a service that is not thread safe, and succeeds under the same rule as `AddService`. On success exactly that name is added and every other service is kept. On failure the repository is unchanged. |
| Repository.AddThreadSafeService | src/QJsonChannelServiceRepository.cpp:38-42 | Adding by name and object creates a thread-safe service, and succeeds under the same rule as `AddService`. On success exactly that name is added and every other service is kept. On failure the repository is unchanged. |
| Repository.RemoveService | src/QJsonChannelServiceRepository.cpp:65-73 | Removing succeeds exactly when the name is present. It removes that name only and leaves every other service unchanged. |
| Repository.GetService | src/QJsonChannelServiceRepository.cpp:75-81 | A lookup finds a service exactly when its name is registered, and returns that service. |
| Repository.GetServiceObject | src/QJsonChannelServiceRepository.cpp:83-89 | The object lookup finds something exactly when the name is registered, and returns that service's object. |
| Repository.ServicesInfo | src/QJsonChannelServiceRepository.cpp:16-24 | The discovery object has exactly the registered names as keys, each mapped to its service's schema. |
| Repository.ProcessMessage | src/QJsonChannelServiceRepository.cpp:91-127 | Discovery answers the schemas of all services. A call for a registered service gets exactly that service's dispatch outcome. A request for an empty or unknown service answers MethodNotFound `service '<name>' not found`, while such a notification gets the empty message. A response gets the empty message, and invalid and error messages get InvalidRequest `invalid request`. Only the named service's object is touched. |
| Repository.AddThenGet | src/QJsonChannelServiceRepository.cpp:44-81 | After a successful add, looking the name up yields the added service. |
| Repository.AddThenRemove | src/QJsonChannelServiceRepository.cpp:44-73 | A successful add followed by removing the same name restores the original repository and reports success. |
| Repository.RemoveThenAdd | src/QJsonChannelServiceRepository.cpp:44-73 | Removing a service and adding it back restores the repository. |
| Repository.DiscoveryAfterAdd | src/QJsonChannelServiceRepository.cpp:16-96 | After a successful add, discovery lists the new service's schema under its name. |
| Messages.IsValid | src/QJsonChannelMessage.h:118-124 | A message is valid exactly when its kind is not Invalid. |
| Messages.CreateRequest | src/QJsonChannelMessage.h:50 | A positional request is a valid Request with the given path and parameter array. |
| Messages.CreateNamedRequest | src/QJsonChannelMessage.h:66 | A named request is a valid Request with the given path and parameter object. |
| Messages.CreateNotification | src/QJsonChannelMessage.h:75 | A positional notification is a valid Notification without an id, with the given path and parameter array. |
| Messages.CreateNamedNotification | src/QJsonChannelMessage.h:91 | A named notification is a valid Notification without an id, with the given path and parameter object. |
| Messages.CreateResponse | src/QJsonChannelMessage.h:99 | A response is a valid Response that answers the request (it carries the request's id) and carries the given result. |
| Messages.CreateErrorResponse | src/QJsonChannelMessage.h:109 | An error response is a valid Error that answers the request and carries the given code, text and data. |
| Messages.FactoryDefaults | src/QJsonChannelMessage.h:50-109 | Omitted parameters default to an empty array. An omitted error text defaults to empty, and omitted error data to null. |
| Scenarios.AddIsStrict | src/QJsonChannelService.cpp:317-324 | `add(double,double)` is registered as a strict overload, because its signature does not mention QVariant. |
| Scenarios.GetValueEntry | src/QJsonChannelService.cpp:330-337 | A readable property `value` registers exactly one getter, under `getValue`. |
| Scenarios.SetValueEntry | src/QJsonChannelService.cpp:330-340 | A writable property `value` registers exactly one setter, under `setValue`. |
| Scenarios.AddEntry | src/QJsonChannelService.cpp:310-328 | The method `add` is the only candidate under `add`. |
| Scenarios.GetterWithArgumentRefused | src/QJsonChannelService.cpp:508-603 | `Calculator.getValue` called with `[1]` is refused with InvalidRequest `getter shouldn't have parameters`, and nothing is read. |
| Scenarios.SetterWrites | src/QJsonChannelService.cpp:532-611 | `Calculator.setValue` called with `[v]` writes `v`, converted to double, to property 1 and answers null. |
| Scenarios.SetterWithoutArgumentRefused | src/QJsonChannelService.cpp:532-611 | `Calculator.setValue` called with `[]` is refused with InvalidRequest `setter should have one parameter`, and nothing is written. |
| Scenarios.AddWithStringRefused | src/QJsonChannelService.cpp:348-361 | `Calculator.add` called with `["two", 3]` matches no overload and answers InvalidParams `invalid parameters`. |
| Scenarios.AddCallsSlot | src/QJsonChannelService.cpp:460-592 | `Calculator.add` called with `[2, 3]` calls method 5 on the service's object with both converted numbers in order. |

## Left out

- Locking: the `_serviceMutex` around calls on objects that are not thread safe. The model is sequential; the thread-safety flag is recorded but has no effect.
- Qt reflection itself: the object's methods and properties are inputs, and so is `QMetaType::type`. The method signature text is rebuilt from the method name and the parameter type names by `Descriptors.Signature`.
- The start offset of the method scan (`startIdx`): the method list given to `NewService` is taken to already exclude `QObject`'s own methods.
- The internals of `convertArgument`, `convertReturnValue` and `qt_metacall`: they are the `Backend` oracles. Only their success or failure and their values matter to the core.
- `createServiceInfo`, the schema generation: a service's schema is an opaque JSON value given at construction.
- Message serialisation (`toObject`, `fromObject`, `toJson`, `fromJson`), message ids generated by `createRequest`, and `serviceName()`'s splitting of the method path: these are not part of this model. Ids are parameters, and the split is the `serviceNameOf` function.
- The single-value `createRequest` and `createNotification` overloads: they are not part of this model.
- `operator==` and `operator!=` of messages: the model uses Dafny's structural equality of the message datatype.
- The numeric values of the error codes: QJsonChannelGlobal.h is not part of this model, so error codes are an enumeration.
- Latin-1 conversion of names and byte arrays: names are plain strings.
- Text.UpperChar: capitalises ASCII letters only, because Unicode case mapping is outside the model.
- Descriptors.MakePropInfo: an empty property name is not given special treatment. The source would write into index 0 of an empty string.
- Debug logging on every failure path.
