# Verified model of the MPA service

The MPA service takes device messages from webhooks, WebSocket, Socket.IO and MQTT, works out
which tenant they belong to and republishes them on that tenant's MQTT topic. This project models
the parts of it that decide something and proves what they promise.

| file | what it models |
|---|---|
| `GoStrings.dfy`, `Utf8.dfy`, `GoMaps.dfy`, `Options.dfy` | what Go's `strings` and `unicode/utf8` packages and its loops over maps do, as far as the service relies on it, and optional values |
| `GlobPattern.dfy` | path patterns, compiled to regular expressions by rewriting text |
| `Detection.dfy`, `DeviceRegistry.dfy` | the four device detectors and the registry that combines them |
| `TenantHosts.dfy` | how the LoRaWAN and the API handler read a tenant off a host name |
| `Topics.dfy`, `DeviceService.dfy`, `Routing.dfy` | topics and their validation, forwarding through the shared metadata map, every transport end to end |
| `HandlerRegistry.dfy`, `RegistryInterleavings.dfy` | the registry of handler factories, alone and under its read-write lock with any number of threads |
| `ConnectionIds.dfy`, `WebSocketTracking.dfy`, `SocketIoTracking.dfy` | connection tracking and message counts |
| `MqttSubscriber.dfy` | the subscriber's topic list against the broker session |

A Go string is a sequence of bytes and is modelled as a Dafny string with one character per byte;
`Utf8.Runes` gives the runes a `range` loop or the regular-expression engine sees. Connected,
failed or acknowledged network calls, map iteration order, the order in which `sort.Slice` leaves
ties and the scheduler are all arbitrary: they are parameters, nondeterministic choices or steps
that anyone may take. The claims below are for all inputs and, where runs are concerned, for all
runs; the rows of the form "an example of" give concrete inputs instead.

These results show the code doing something other than what it, its comments or its layout suggest.

* `detector.go` expects a registered pattern to match a path spelled like it. That is so exactly
  for patterns in valid UTF-8 (`PatternMatchesItself`, with the failing input in
  `BrokenPatternFails`); the separate test for equality hides the difference.
* `device.go:105` says detectors are tried in priority order. They are tried in registration order,
  and for detectors of given kinds the answer comes from the highest priority, whatever they hold
  and whatever the request, exactly if they were registered by falling priority
  (`FirstIsHighestExactly`, with a registry that differs in `RegistrationOrderDecides`).
* Path detection depends on map order exactly when no pattern equals the path and the patterns that
  match it carry different profiles (`PathOrderIndependence`, with a map in `MapOrderDecides`).
* The two host parsers do not accept the same hosts. The API handler accepts exactly those whose
  first label is a tenant between white space (`ParsersAgree`); the LoRaWAN handler accepts these,
  and repairs others (`LoRaWanAcceptsMore`).
* `client.go:148` says only `tenant/{tenant}/device/data` is accepted; `tenant/device/x/data` and an
  empty tenant are accepted too (`ValidTopicLanguage`).
* Once a connect callback has subscribed to all listed topics, list and session drift apart within
  that connection exactly if a topic is removed that is listed more than once (`SyncExactly`, with an
  example in `DoubleAddBreaksSync`).

In addition the WebSocket, Socket.IO and MQTT transports build metadata without any tenant field, so
none of their messages is ever published (`HandleWebSocketMessage`, `HandleSocketIoMessage`,
`HandleMqttMessage`).

## Model

| member | source | states |
|---|---|---|
| `GlobPattern.ReplaceAligned` | internal/models/detector.go:55-56 | replacing `\*` in quoted text always hits whole escape pairs, also next to literal backslashes |
| `GlobPattern.TranslateRunes` | internal/models/detector.go:55-57 | rewriting the pattern's bytes and rewriting its runes give the same text, and broken UTF-8 stays broken |
| `GlobPattern.CompiledText` | internal/models/detector.go:55-57 | the compiled text parses, and parses to one item per pattern rune between anchors |
| `GlobPattern.GlobCompilation` | internal/models/detector.go:53-61 | for every pattern and path the compiled regular expression matches exactly when the pattern is valid UTF-8 and the path is in the glob's meaning |
| `GlobPattern.GlobOnTexts` | internal/models/detector.go:53-61 | the same for texts and their UTF-8 encodings, without a side condition |
| `GlobPattern.PatternMatchesItself` | internal/models/detector.go:53-61 | a pattern matches the path spelled like it if and only if it is valid UTF-8 |
| `GlobPattern.BrokenPatternFails` | internal/models/detector.go:59-60 | an example of a pattern, one byte long, that does not match itself |
| `GlobPattern.GlobWithoutStar` | internal/models/detector.go:52-61 | a pattern without `*` denotes exactly itself |
| `GlobPattern.PlainPattern` | internal/models/detector.go:53-61 | a pattern without `*` matches, of all valid paths, the one spelled like it; paths in broken UTF-8 it tells apart by their runes only |
| `GlobPattern.StarMatchesLines` | internal/models/detector.go:53-61 | the pattern `*` matches exactly the paths without a newline |
| `GlobPattern.GlobConcat` | internal/models/detector.go:52-61 | a pattern in two parts matches what its parts match one after the other |
| `GlobPattern.BackslashBeforeStar` | internal/models/detector.go:53-61 | anywhere in a pattern, a backslash before a star compiles to a literal backslash and leaves the star a wildcard |
| `Utf8.RunesOfText` | internal/protocols/lorawan/base/handler.go:190 | decoding undoes encoding, for every text |
| `Utf8.WhiteSpace` | internal/protocols/lorawan/base/handler.go:185 | the characters that trimming knows are the 25 white-space characters of Unicode |
| `Utf8.TrimSpaceAround` | internal/protocols/lorawan/base/handler.go:185 | between any white space, trimming gives back a byte string if and only if that neither begins nor ends with a white-space rune |
| `Detection.SortSlice` | internal/models/detector.go:95-97 | sorted by falling priority, a permutation, ties in any order |
| `Detection.FirstMatchAnswers` | internal/models/detector.go:99-105 | the first match in a sorted slice is a match of maximal priority, and there is none only if nothing matches |
| `Detection.ProfileDetector.RegisterProfile` | internal/models/detector.go:86-90 | keeps exactly the profiles of the detector's own methods, "header" and "headers", "payload" or "rules" |
| `Detection.ProfileDetector.DetectDevice` | internal/models/detector.go:93-106 | leaves a permutation behind and returns a matching profile of maximal priority, or fails exactly when none matches or payload detection has an empty body |
| `Detection.DetectionOverRuns` | internal/models/detector.go:155-179 | after any sequence of registrations and detections the slice is a permutation of the accepted profiles and every detection answers as above |
| `Detection.AnswersReached` | internal/models/detector.go:162-179 | the answers allowed are exactly those that some way of sorting the slice gives |
| `Detection.AnswerUnique` | internal/models/detector.go:238-246 | the instability of the sort does not show if and only if the matching profiles of maximal priority are all equal |
| `Detection.RulesMean` | internal/models/detector.go:252-261 | the rule loop accepts if and only if every required rule matches |
| `Detection.RulesAboutText` | internal/models/detector.go:278-339 | header, path and payload rules look at one text each and treat it alike: "equals" compares, "contains" finds the value anywhere, "regex" and "exists" where they are offered |
| `Detection.OtherRulesFail` | internal/models/detector.go:264-339 | a rule on a missing field or with any other kind or operator never matches |
| `Detection.EqualsContains` | internal/models/detector.go:282-285 | a rule that matches by "equals" matches by "contains" |
| `Detection.HeaderProfiles` | internal/models/detector.go:109-130 | a "header" profile matches iff the required rule for its header does; a "headers" profile iff each of its headers would alone |
| `Detection.PayloadProfiles` | internal/models/detector.go:182-203 | a payload profile matches iff the body is an object and the required "exists" rules for its fields match, for ChirpStack the one for `event` |
| `Detection.RuleProfiles` | internal/models/detector.go:252-261 | a profile of rules matches iff each of its required rules does |
| `Detection.OptionalRulesInert` | internal/models/detector.go:252-261 | dropping, adding or moving optional rules changes no match |
| `Detection.OptionalRulesInertOverRuns` | internal/models/detector.go:229-261 | nor does it change which registration any detection of a whole run picks |
| `Detection.PathDetector.RegisterProfile` | internal/models/detector.go:25-29 | a path profile replaces an earlier one under the same pattern |
| `Detection.PathDetector.DetectDevice` | internal/models/detector.go:32-50 | the result is `Loops` for some pair of iteration orders, and one that `PathAnswer` admits |
| `Detection.PathAnswersReached` | internal/models/detector.go:32-50 | `PathAnswer` admits exactly what the two loops give for some pair of orders, each visiting every key once |
| `Detection.PatternAnswersGlob` | internal/models/detector.go:36-47 | equality test and wildcard test together are the glob relation, or plain equality for a pattern in broken UTF-8 |
| `Detection.PathOrderIndependence` | internal/models/detector.go:32-50 | over all pairs of iteration orders: success is the same, a pattern equal to the path wins, and the result is the same if and only if that is so or all matching patterns carry one profile |
| `Detection.MapOrderDecides` | internal/models/detector.go:42-46 | an example of two patterns and a path for which the order decides |
| `DeviceRegistry.Ask` | internal/models/device.go:58-63 | each implementation of the interface answers if and only if it holds a matching profile |
| `DeviceRegistry.Registry.RegisterDetector` | internal/models/device.go:94-96 | detectors are kept in registration order |
| `DeviceRegistry.Registry.DetectDevice` | internal/models/device.go:104-118 | the first registered detector with a match answers, the default stands in only when no detector has one, and detectors change by re-sorting only |
| `DeviceRegistry.RegisteredByPriority` | internal/models/device.go:104-110 | registered by falling priority, the answer comes from the highest-priority detector with a match, and the default stands in only if there is none |
| `DeviceRegistry.UsualOrder` | internal/models/detector.go:69-349 | of the four detectors, path, headers, rules, payload is the only order of falling priority |
| `DeviceRegistry.FirstIsHighestExactly` | internal/models/device.go:105-110 | detectors were registered by falling priority if and only if detectors of these kinds in this order always answer from the highest priority, for all profiles they can hold and all requests |
| `DeviceRegistry.RegistrationOrderDecides` | internal/models/device.go:105-110 | for every request that both match, a payload detector registered before a path detector wins with its lower priority |
| `TenantHosts.ExtractTenantFromSubdomain` | internal/protocols/lorawan/base/handler.go:148-167 | returns the first label of a host with two labels or more; it has neither dot nor colon |
| `TenantHosts.HostLabelExactly` | internal/protocols/lorawan/base/handler.go:154-166 | the label is x if and only if the host is x, a dot and anything, and x has neither dot nor colon |
| `TenantHosts.SanitizeTenantID` | internal/protocols/lorawan/base/handler.go:170-203 | the reassigning passes compute `Sanitized`, about which the rows below speak |
| `TenantHosts.WhitelistLoop` | internal/protocols/lorawan/base/handler.go:187-200 | a loop over runes decides a property of bytes |
| `TenantHosts.TenantsSpelled` | internal/protocols/non-lorawan/handler.go:26 | a tenant is 1 to 64 letters, digits, hyphens and underscores |
| `TenantHosts.SanitizerRefinesOnePass` | internal/protocols/lorawan/base/handler.go:148-203 | on whatever host extraction returns, ten passes and a trim equal one deletion pass and a trim |
| `TenantHosts.SanitizerOnDotFree` | internal/protocols/lorawan/base/handler.go:170-203 | the same for every string without dots |
| `TenantHosts.SanitizerExactly` | internal/protocols/lorawan/base/handler.go:170-203 | on every input, dots included, the sanitiser equals one scan for cancelling runs of dots and one deletion pass |
| `TenantHosts.SanitizedIsAllowedPart` | internal/protocols/lorawan/base/handler.go:170-203 | an accepted result is the input's allowed characters in order, and the input had an even number of dots |
| `TenantHosts.TenantIsFixed` | internal/protocols/lorawan/base/handler.go:187-200 | every valid tenant passes unchanged |
| `TenantHosts.SanitizerIdempotent` | internal/protocols/lorawan/base/handler.go:170-203 | sanitising twice is sanitising once |
| `TenantHosts.ExtractTenantID` | internal/protocols/non-lorawan/handler.go:140-160 | the API parser computes `ApiTenant` |
| `TenantHosts.ApiImpliesLoRaWan` | internal/protocols/non-lorawan/handler.go:140-160 | every host the API accepts the LoRaWAN handler accepts with the same tenant |
| `TenantHosts.ParsersAgree` | internal/protocols/non-lorawan/handler.go:140-160 | the API accepts a host if and only if its trimmed first label is a tenant, which is then the result of both; of a host the LoRaWAN handler accepts both read the same tenant if and only if that holds |
| `TenantHosts.LoRaWanAcceptsMore` | internal/protocols/lorawan/base/handler.go:175-184 | an example of a host that only the LoRaWAN handler accepts |
| `Topics.FirstFamilyValid` | internal/mqtt/client.go:143-160 | a topic with a slash-free tenant is valid and splits back into its four fields |
| `Topics.ValidTopicLanguage` | internal/mqtt/client.go:143-160 | the accepted topics are exactly `tenant/x/device/data` and `tenant/device/x/data` with x slash-free |
| `Topics.GeneratedTopicValid` | internal/services/device_service.go:160-173 | a generated topic passes validation if and only if the tenant has no slash |
| `Topics.TenantTopicInjective` | internal/services/device_service.go:170 | distinct tenants have distinct topics |
| `DeviceService.ExtractTenantID` | internal/services/device_service.go:143-157 | the lookup and the loop compute `FirstTenant` |
| `DeviceService.FirstNonemptyIsFirst` | internal/services/device_service.go:149-154 | that is the nonempty string under the earliest field that has one |
| `DeviceService.TenantPrecedence` | internal/services/device_service.go:143-157 | which of the five names wins over which |
| `DeviceService.TenantIgnoresOtherEntries` | internal/services/device_service.go:46-47 | entries under other names, an earlier `mqtt_topic` among them, have no influence |
| `DeviceService.Client.Publish` | internal/mqtt/client.go:103-140 | the broker is handed the message exactly if still connected, a topic can be determined and is valid, and the message can be marshalled; otherwise an error and nothing sent |
| `DeviceService.PublishedTopic` | internal/mqtt/client.go:130-200 | the topic is a nonempty `mqtt_topic`, or else made of `tenant_id`, given a template; otherwise there is none |
| `DeviceService.Service.ForwardToMQTT` | internal/services/device_service.go:73-119 | one message on the tenant's topic exactly if connected at both checks and the first nonempty tenant field is slash-free, whatever `mqtt_topic` held and with or without a request; otherwise an error and nothing sent; the shared map afterwards |
| `DeviceService.ForwardedMetadata` | internal/services/device_service.go:84-107 | what stands under each key of the shared map afterwards, which is also what the message carries: path, method and user agent of the request, the topic, all else unchanged |
| `DeviceService.DeliveredMessage` | internal/services/device_service.go:99-112 | when a message goes out, and its topic, payload and metadata |
| `DeviceService.Service.ProcessHTTPMessage` | internal/services/device_service.go:34-39 | the same outcome for HTTP, also without metadata or request |
| `DeviceService.Service.ProcessMQTTMessage` | internal/services/device_service.go:42-55 | the same outcome and metadata for MQTT, with the incoming topic noted first: it never decides where the message goes |
| `DeviceService.Service.ProcessWebSocketMessage` | internal/services/device_service.go:58-70 | the same outcome and metadata for WebSocket, with the transport noted first |
| `Routing.TenantTopicIsSound` | internal/mqtt/client.go:143-160 | the topic of an accepted tenant is valid, free of MQTT wildcards (section 3.3.2.1 of MQTT 3.1.1) and yields the tenant as second field |
| `Routing.HostsRouteApart` | internal/protocols/lorawan/base/handler.go:98-116 | end to end: every accepted host has a sound topic, two hosts share one if and only if they name one tenant, and no host leads to two tenants |
| `Routing.StatusMeans` | internal/protocols/lorawan/base/handler.go:61-126 | the status codes: 413, 400 and 500, and 200 if and only if exactly one message went out and was acknowledged |
| `Routing.HandleLoRaWan` | internal/protocols/lorawan/base/handler.go:57-127 | status code and publication for every content type, body, host and network outcome, and what the message says of provider, path, time, tenant and request |
| `Routing.HandleApi` | internal/protocols/non-lorawan/handler.go:53-122 | the same for the API, with source and serial number |
| `Routing.NoTenantNoDelivery` | internal/services/device_service.go:99-102 | metadata without any tenant field have no tenant |
| `Routing.HandleWebSocketMessage` | internal/protocols/transport/websocket/handler.go:188-222 | no WebSocket message is ever published, whatever its headers |
| `Routing.HandleSocketIoMessage` | internal/protocols/transport/socketio/handler.go:327-348 | no Socket.IO message is ever published |
| `Routing.HandleMqttMessage` | internal/protocols/transport/mqtt/handler.go:190-205 | no message from the MQTT subscriber is ever published |
| `HandlerRegistry.Registry.Register` | internal/protocols/handlers/registry.go:25-35 | reply and effect of an atomic insert-if-absent |
| `HandlerRegistry.Registry.CreateFactory` | internal/protocols/handlers/registry.go:38-48 | reply of an atomic lookup |
| `HandlerRegistry.Registry.GetRegisteredProtocols` | internal/protocols/handlers/registry.go:51-60 | every name exactly once, in any order |
| `HandlerRegistry.Registry.IsRegistered` | internal/protocols/handlers/registry.go:63-69 | reply of an atomic membership test |
| `HandlerRegistry.Registry.Unregister` | internal/protocols/handlers/registry.go:72-82 | reply and effect of an atomic removal |
| `HandlerRegistry.NetIsMembership` | internal/protocols/handlers/registry.go:25-82 | successful registrations minus successful removals of a name is 1 while it is registered and 0 otherwise |
| `HandlerRegistry.TableIsLastRegistration` | internal/protocols/handlers/registry.go:38-48 | a name is served by the constructor registered last and not removed since |
| `HandlerRegistry.RepliesMean` | internal/protocols/handlers/registry.go:25-82 | what each reply in a legal history says about the operations before it: by the balance of the name, and by the registration in force |
| `HandlerRegistry.OneInForce` | internal/protocols/handlers/registry.go:29-31 | while a registration is in force no other is made under its name |
| `RegistryInterleavings.StepKeepsInv` | internal/protocols/handlers/registry.go:25-82 | every step of any thread keeps the lock discipline and the history, and is a step of the atomic map |
| `RegistryInterleavings.RegistryIsLinearizable` | internal/protocols/handlers/registry.go:25-82 | every interleaving is, call for call and reply for reply, a run of a map with atomic operations |
| `RegistryInterleavings.OperationsTakeEffectInside` | internal/protocols/handlers/registry.go:25-82 | each returned reply is the atomic map's at some moment between that operation's call and its return |
| `RegistryInterleavings.RegistryAccounts` | internal/protocols/handlers/registry.go:25-82 | in every reachable state the history is legal and explains the map, the balance of each name is 0 or 1, and a writer is alone |
| `ConnectionIds.IdParses` | internal/protocols/transport/websocket/handler.go:103 | time and address are read back from an identifier |
| `ConnectionIds.IdInjective` | internal/protocols/transport/socketio/handler.go:149 | connections that differ in time or address differ in identifier |
| `WebSocketTracking.MessagesConserved` | internal/protocols/transport/websocket/handler.go:161-184 | in every interleaving the counts of all connections ever accepted add up to the handler's count plus the readers between the two increments; when all have ended the sums agree and the map is empty |
| `WebSocketTracking.EveryMessageCounted` | internal/protocols/transport/websocket/handler.go:161-172 | on each connection the count is the number of messages it delivered, but for one its reader has not got to |
| `WebSocketTracking.HandlerCountsAll` | internal/protocols/transport/websocket/handler.go:161-184 | the handler has counted all messages delivered, but for those between delivery and its increment |
| `WebSocketTracking.CleanupIsOwn` | internal/protocols/transport/websocket/handler.go:127-135 | with distinct time and address the map holds exactly the live connections not closed by hand, and a cleanup removes only its own entry |
| `WebSocketTracking.BroadcastSnapshot` | internal/protocols/transport/websocket/handler.go:301-307 | a broadcast's snapshot is each connection of the map exactly once at the moment the lock is given back |
| `WebSocketTracking.SectionsAddUp` | internal/protocols/transport/websocket/handler.go:113-133 | from any state with the mutex free, the fine steps of accepting, counting, cleaning up and closing lead to the states the methods below leave |
| `WebSocketTracking.Handler.Handle` | internal/protocols/transport/websocket/handler.go:102-122 | a new connection is filed under its identifier; a run of the step system |
| `WebSocketTracking.Handler.CountMessage` | internal/protocols/transport/websocket/handler.go:161-184 | both counters go up by one; a run of the step system |
| `WebSocketTracking.Handler.Cleanup` | internal/protocols/transport/websocket/handler.go:127-135 | the identifier is gone and the counters are kept; a run of the step system |
| `WebSocketTracking.Handler.CloseConnection` | internal/protocols/transport/websocket/handler.go:317-329 | closes and removes exactly the connection filed under the identifier, and says whether there was one; a run of the step system |
| `WebSocketTracking.Handler.BroadcastMessage` | internal/protocols/transport/websocket/handler.go:301-314 | collects each tracked connection once, in any map order; a run of the step system |
| `SocketIoTracking.Handler.Start` | internal/protocols/transport/socketio/handler.go:92-112 | state after Start; keeps the accounting invariant |
| `SocketIoTracking.Handler.Stop` | internal/protocols/transport/socketio/handler.go:115-138 | state after Stop; keeps the accounting invariant |
| `SocketIoTracking.Handler.OnConnect` | internal/protocols/transport/socketio/handler.go:148-161 | state after a connect callback; keeps the accounting invariant |
| `SocketIoTracking.Handler.OnDisconnect` | internal/protocols/transport/socketio/handler.go:184-189 | state after a disconnect callback; keeps the accounting invariant |
| `SocketIoTracking.Handler.OnEvent` | internal/protocols/transport/socketio/handler.go:195-204 | state after an event callback; keeps the accounting invariant |
| `SocketIoTracking.RunsAccount` | internal/protocols/transport/socketio/handler.go:92-228 | over any events across restarts: running exactly while there is a server; the global count is that of all connections ever created plus events without a connection |
| `SocketIoTracking.EverythingCounted` | internal/protocols/transport/socketio/handler.go:195-222 | the global count is the number of events received, and no connection is forgotten |
| `SocketIoTracking.EachCountsItsOwn` | internal/protocols/transport/socketio/handler.go:195-222 | in every run each connection has counted exactly the events that came for it while it was tracked |
| `SocketIoTracking.ConnectionMade` | internal/protocols/transport/socketio/handler.go:148-157 | the connections are those the connect callbacks made, in order |
| `SocketIoTracking.ConnectTracks` | internal/protocols/transport/socketio/handler.go:159-161 | the new connection is in the map under its identifier |
| `SocketIoTracking.EntriesAreOwn` | internal/protocols/transport/socketio/handler.go:115-189 | with distinct time and address only its own disconnect or a Stop takes a connection out of the map |
| `SocketIoTracking.TrackedExactly` | internal/protocols/transport/socketio/handler.go:115-189 | over whole runs it is in the map if and only if since its connect there was neither its disconnect nor a Stop of a running handler |
| `SocketIoTracking.RunningExactly` | internal/protocols/transport/socketio/handler.go:92-138 | the handler runs, and has a server, if and only if it was started and not stopped since |
| `MqttSubscriber.Handler.Start` | internal/protocols/transport/mqtt/handler.go:96-141 | state after Start, also when connecting fails |
| `MqttSubscriber.Handler.Stop` | internal/protocols/transport/mqtt/handler.go:144-166 | state after Stop for every mix of answers to the unsubscribe calls |
| `MqttSubscriber.Handler.OnConnect` | internal/protocols/transport/mqtt/handler.go:117-120 | adds to the session exactly the listed topics whose call succeeds |
| `MqttSubscriber.Handler.AddSubscription` | internal/protocols/transport/mqtt/handler.go:237-255 | subscribes and appends, or changes nothing and fails |
| `MqttSubscriber.Handler.RemoveSubscription` | internal/protocols/transport/mqtt/handler.go:258-281 | unsubscribes and removes the first occurrence, or changes nothing and fails |
| `MqttSubscriber.Handler.SpliceOut` | internal/protocols/transport/mqtt/handler.go:274 | the splice inside the array: later topics move down, the slot behind the new end keeps its value |
| `MqttSubscriber.Handler.MessageHandler` | internal/protocols/transport/mqtt/handler.go:181-185 | one more message, nothing else changed |
| `MqttSubscriber.RemoveFirstAt` | internal/protocols/transport/mqtt/handler.go:272-277 | exactly the first occurrence goes, the rest keeps its order |
| `MqttSubscriber.SessionContained` | internal/protocols/transport/mqtt/handler.go:96-281 | in every run, with any broker answers, the session's topics are on the list |
| `MqttSubscriber.SessionExactly` | internal/protocols/transport/mqtt/handler.go:96-281 | in every run the session holds a topic if and only if a callback or an addition subscribed to it and neither a removal nor the end of the connection came after |
| `MqttSubscriber.ListExactly` | internal/protocols/transport/mqtt/handler.go:237-281 | in every run the list has a topic once more for each granted addition and once less for each granted removal |
| `MqttSubscriber.RunningExactly` | internal/protocols/transport/mqtt/handler.go:96-166 | the subscriber runs if and only if a start that connected was not followed by a stop |
| `MqttSubscriber.MessagesCounted` | internal/protocols/transport/mqtt/handler.go:181-185 | its count is the number of messages |
| `MqttSubscriber.CallbackSyncs` | internal/protocols/transport/mqtt/handler.go:169-178 | a connect callback whose calls succeed makes session and list equal, whether or not the subscriber counts as running |
| `MqttSubscriber.RemovalSyncsExactly` | internal/protocols/transport/mqtt/handler.go:266-277 | a removal keeps them equal if and only if the list had the topic at most once |
| `MqttSubscriber.DoubleAddBreaksSync` | internal/protocols/transport/mqtt/handler.go:245-277 | an example of a run: a topic added twice and removed once is listed but not subscribed |
| `MqttSubscriber.SyncExactly` | internal/protocols/transport/mqtt/handler.go:96-281 | in every run, from a connect callback whose calls succeed to the end of that connection, list and session are equal throughout if and only if no topic is removed that the list has twice |
| `MqttSubscriber.SyncOverRuns` | internal/protocols/transport/mqtt/handler.go:96-281 | over whole runs with any losses, reconnections, stops and starts: if the list begins without duplicates and no listed topic is added, they are equal from each such callback to the end of its connection, whether other broker calls succeed or fail |
| `MqttSubscriber.AddRemoveRoundTrip` | internal/protocols/transport/mqtt/handler.go:237-281 | adding a new topic and removing it restores the state |
| `MqttSubscriber.RestartRestores` | internal/protocols/transport/mqtt/handler.go:96-178 | stop, start and a successful connect callback restore session and list |

## Left out

- The regular-expression engine: `GlobPattern.Parse` and `MatchAt` cover the fragment the compiled patterns lie in, not Go's limits on the size of an expression; a rule's operator `regex` is a set of pairs given with the scan.
- JSON and base64 decoding, `%v` rendering, header canonicalisation, HTTP, echo, paho, gorilla and socket.io: their results are parameters.
- `DeviceProfile` pointers: profiles are values here, so a profile changed after it was registered is not covered.
- WebSocketTracking.MessagesConserved: counters are unbounded integers, the wrap of an `int64` after 2^63 messages is not covered. The Socket.IO and MQTT counters are treated alike.
- RegistryInterleavings.RegistryIsLinearizable: safety only; a waiting writer does not keep new readers out, which allows more interleavings than Go's lock does.
- MqttSubscriber.SessionContained: the connect callback is one step, so its unlocked read of the topic slice does not race with the splice; sessions are clean and end with their connection.
- Clients of the MQTT subscriber that have been replaced: their connect callbacks are covered, as they act on the current client; what their own broker sessions hold is not.
- `internal/protocols/transport/http/handler.go`: its tenant functions are those of the LoRaWAN handler again.
- Logging, telemetry, configuration, command line, health checks, pings, deadlines and the connect retry loop.
- Provider wrappers, the handler manager and the parser registry: one-step lookups.
