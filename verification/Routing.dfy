/** From a transport to the broker: the LoRaWAN and API webhooks end to end, and the three
    transports whose metadata never name a tenant. */
module Routing {
  import opened Options
  import opened GoStrings
  import opened TenantHosts
  import opened Topics
  import opened DeviceService
  import Utf8

  // ---------------------------------------------------------------- what a host leads to

  /** The topic of any tenant either handler accepts is valid, has no wildcard and gives the
      tenant back as its second field. */
  lemma TenantTopicIsSound(t: GoString)
    requires IsTenant(t)
    ensures ValidTopic(TenantTopic(t)) && !HasWildcard(TenantTopic(t))
    ensures Split(TenantTopic(t), '/') == ["tenant", t, "device", "data"]
  {
    hide ValidTopic, Split;
    assert '/' !in t && '+' !in t && '#' !in t;
    FirstFamilyValid(t);
  }

  lemma AcceptedAreTenants(host: GoString)
    ensures LoRaWanTenant(host) != "" ==> IsTenant(LoRaWanTenant(host))
    ensures ApiTenant(host) != "" ==> IsTenant(ApiTenant(host))
  {
    hide Sanitized;
    SanitizedIsTenant(HostLabel(host));
  }

  /** One of the two webhook handlers accepts `host` for tenant `t`. */
  predicate LeadsTo(host: GoString, t: GoString) {
    t != "" && (t == LoRaWanTenant(host) || t == ApiTenant(host))
  }

  /** End to end: every accepted host has a sound topic that names its tenant, distinct tenants
      never share a topic, and one host never leads to two tenants. */
  lemma HostsRouteApart(host: GoString, s: GoString, other: GoString, t: GoString)
    requires LeadsTo(host, s) && LeadsTo(other, t)
    ensures ValidTopic(TenantTopic(s)) && !HasWildcard(TenantTopic(s))
    ensures Split(TenantTopic(s), '/') == ["tenant", s, "device", "data"]
    ensures TenantTopic(s) == TenantTopic(t) <==> s == t
    ensures host == other ==> s == t
  {
    hide LoRaWanTenant, ApiTenant, ValidTopic, Split, IsTenant, TenantTopic;
    AcceptedAreTenants(host);
    TenantTopicIsSound(s);
    if TenantTopic(s) == TenantTopic(t) {
      TenantTopicInjective(s, t);
    }
    if ApiTenant(host) != "" {
      ApiImpliesLoRaWan(host);
    }
  }

  // ---------------------------------------------------------------- webhooks

  /** How reading the request body ends. */
  datatype Body = Read(bytes: GoString) | TooLarge | Unreadable

  predicate JsonContent(contentType: GoString) {
    contentType == "" || HasPrefix(contentType, "application/json")
  }

  lemma OnlyTenantId(m: Entries, t: GoString)
    requires t != "" && "tenant_id" in m && m["tenant_id"] == Str(t)
    ensures FirstTenant(m) == t
  {
  }

  lemma EmptyStaysEmpty()
    ensures Sanitized("") == ""
  {
    hide Without;
    SanitizerOnDotFree("");
    WithoutNothing("", DROPPED);
    Utf8.TrimSpaceEmpty();
  }

  /** The HTTP status a webhook answers with; `tenant` is what its own parser made of the host. */
  function WebhookStatus(contentType: GoString, body: Body, accepted: bool, tenant: GoString,
                         hasClient: bool, net: Net): int {
    if !JsonContent(contentType) || body.Unreadable? then 400
    else if body.TooLarge? then 413
    else if !accepted || tenant == "" then 400
    else if hasClient && net == Net(true, true, true, true) then 200
    else 500
  }

  /** Exactly one message went out, on the tenant's topic and with the body as payload, if the
      request was fine and the broker could be reached; otherwise nothing did. */
  ghost predicate WebhookSent(before: seq<Sent>, after: seq<Sent>, contentType: GoString, body: Body,
                              accepted: bool, tenant: GoString, net: Net) {
    if JsonContent(contentType) && body.Read? && accepted && tenant != ""
       && net.connectedFirst && net.connectedAgain && net.marshals
    then
      && |after| == |before| + 1 && after[..|before|] == before
      && after[|before|].topic == TenantTopic(tenant) && after[|before|].payload == body.bytes
    else after == before
  }

  /** The status codes: 413 for a body that is too large, 400 for any other fault of the request, and
      200 exactly if one message went out and was acknowledged. */
  lemma StatusMeans(contentType: GoString, body: Body, accepted: bool, tenant: GoString, hasClient: bool, net: Net,
                    before: seq<Sent>, after: seq<Sent>)
    requires hasClient ==> WebhookSent(before, after, contentType, body, accepted, tenant, net)
    ensures var status := WebhookStatus(contentType, body, accepted, tenant, hasClient, net);
            var json := contentType == "" || HasPrefix(contentType, "application/json");
            && (status == 413 <==> json && body.TooLarge?)
            && (status == 400 <==> !json || body.Unreadable? || (body.Read? && (!accepted || tenant == "")))
            && (status == 200 <==> hasClient && |after| == |before| + 1 && net.acknowledged)
            && status in {200, 400, 413, 500}
  {
  }

  /** The metadata a webhook's message is sent with: what the handler put in, and the request. */
  lemma WebhookMetadata(m: Entries, request: Request, hasClient: bool, net: Net)
    ensures var after := AfterForward(m, Some(request), hasClient, net);
            && Holds(after, "request_method", request.httpMethod)
            && (request.path.Some? ==> Holds(after, "request_path", request.path.value))
            && (request.userAgent != "" ==> Holds(after, "user_agent", request.userAgent))
            && forall key, v :: key !in {"request_path", "request_method", "user_agent", "mqtt_topic"} ==>
                 (Holds(after, key, v) <==> Holds(m, key, v))
  {
    hide AfterForward;
    ForwardedMetadata(m, Some(request), hasClient, net);
    var after := AfterForward(m, Some(request), hasClient, net);
    forall key, v ensures Holds(after, key, v) <==> Lookup(after, key) == Some(Str(v)) {
    }
    forall key, v ensures Holds(m, key, v) <==> Lookup(m, key) == Some(Str(v)) {
    }
  }

  /** The end of both handlers: forward, then answer. */
  method Forward(service: Service, request: Request, payload: GoString, metadata: Entries, net: Net)
    returns (status: int)
    modifies service.client
    ensures status == if Delivered(metadata, service.client != null, net) && net.acknowledged then 200 else 500
    ensures service.client != null ==>
              service.client.sent == old(service.client.sent)
                + Deliveries(metadata, true, net, payload, AfterForward(metadata, Some(request), true, net))
  {
    hide Delivered, Deliveries, AfterForward;
    var transportMetadata := new Metadata(metadata);
    var err := service.ProcessHTTPMessage(Some(request), payload, transportMetadata, net);
    return if err.Fail? then 500 else 200;
  }

  lemma ForwardedOne(before: seq<Sent>, m: Entries, n: Entries, bytes: GoString, t: GoString, net: Net)
    requires t != "" && '/' !in t && FirstTenant(m) == t
    ensures Delivered(m, true, net) <==> net.connectedFirst && net.connectedAgain && net.marshals
    ensures var after := before + Deliveries(m, true, net, bytes, n);
            if Delivered(m, true, net) then
              && |after| == |before| + 1 && after[..|before|] == before
              && after[|before|] == Sent(TenantTopic(t), bytes, n)
            else after == before
  {
  }

  function LoRaWanEntries(provider: GoString, request: Request, now: GoString, tenant: GoString): Entries {
    map["transport" := Str("http"), "lorawan_source" := Str(provider),
        "path" := Str(if request.path.Some? then request.path.value else ""), "received_at" := Str(now)]
      ["tenant_id" := Str(tenant)]
  }

  function ApiEntries(serialNumber: GoString, now: GoString, tenant: GoString): Entries {
    map["transport" := Str("http"), "api_source" := Str("api"), "serial_number" := Str(serialNumber),
        "tenant_id" := Str(tenant), "received_at" := Str(now)]
  }

  /** All that a LoRaWAN webhook's message says about its origin. */
  lemma LoRaWanPublished(provider: GoString, request: Request, now: GoString, tenant: GoString, net: Net)
    requires tenant != ""
    ensures FirstTenant(LoRaWanEntries(provider, request, now, tenant)) == tenant
    ensures var m := AfterForward(LoRaWanEntries(provider, request, now, tenant), Some(request), true, net);
            && Holds(m, "transport", "http") && Holds(m, "lorawan_source", provider)
            && Holds(m, "path", if request.path.Some? then request.path.value else "")
            && Holds(m, "received_at", now) && Holds(m, "tenant_id", tenant)
            && Holds(m, "request_method", request.httpMethod)
            && (request.path.Some? ==> Holds(m, "request_path", request.path.value))
            && (request.userAgent != "" ==> Holds(m, "user_agent", request.userAgent))
  {
    hide AfterForward, FirstTenant;
    var m := LoRaWanEntries(provider, request, now, tenant);
    OnlyTenantId(m, tenant);
    WebhookMetadata(m, request, true, net);
  }

  lemma ApiPublished(serialNumber: GoString, request: Request, now: GoString, tenant: GoString, net: Net)
    requires tenant != ""
    ensures FirstTenant(ApiEntries(serialNumber, now, tenant)) == tenant
    ensures var m := AfterForward(ApiEntries(serialNumber, now, tenant), Some(request), true, net);
            && Holds(m, "transport", "http") && Holds(m, "api_source", "api")
            && Holds(m, "serial_number", serialNumber) && Holds(m, "received_at", now)
            && Holds(m, "tenant_id", tenant) && Holds(m, "request_method", request.httpMethod)
            && (request.path.Some? ==> Holds(m, "request_path", request.path.value))
            && (request.userAgent != "" ==> Holds(m, "user_agent", request.userAgent))
  {
    hide AfterForward, FirstTenant;
    var m := ApiEntries(serialNumber, now, tenant);
    OnlyTenantId(m, tenant);
    WebhookMetadata(m, request, true, net);
  }

  /** LoRaWANHandler.Handle. */
  method HandleLoRaWan(service: Service, provider: GoString, contentType: GoString, body: Body,
                       host: GoString, request: Request, now: GoString, net: Net)
    returns (status: int)
    modifies service.client
    ensures status == WebhookStatus(contentType, body, true, LoRaWanTenant(host), service.client != null, net)
    ensures service.client != null ==>
              WebhookSent(old(service.client.sent), service.client.sent, contentType, body, true,
                          LoRaWanTenant(host), net)
    ensures service.client != null && |service.client.sent| > |old(service.client.sent)| ==>
              var m := service.client.sent[|old(service.client.sent)|].metadata;
              && Holds(m, "transport", "http") && Holds(m, "lorawan_source", provider)
              && Holds(m, "path", if request.path.Some? then request.path.value else "")
              && Holds(m, "received_at", now) && Holds(m, "tenant_id", LoRaWanTenant(host))
              && Holds(m, "request_method", request.httpMethod)
              && (request.path.Some? ==> Holds(m, "request_path", request.path.value))
              && (request.userAgent != "" ==> Holds(m, "user_agent", request.userAgent))
  {
    hide Sanitized, HostLabel, IsTenant, FirstTenant, AfterForward, Deliveries, LoRaWanEntries, Holds;
    if contentType != "" && !HasPrefix(contentType, "application/json") {
      return 400;
    }
    if body.TooLarge? {
      return 413;
    } else if body.Unreadable? {
      return 400;
    }
    var tenantID := ExtractTenantFromSubdomain(host);
    if tenantID == "" {
      EmptyStaysEmpty();
      return 400;
    }
    tenantID := SanitizeTenantID(tenantID);
    if tenantID == "" {
      return 400;
    }
    AcceptedAreTenants(host);
    TenantHasNoSlash(tenantID);
    LoRaWanPublished(provider, request, now, tenantID, net);
    var metadata := LoRaWanEntries(provider, request, now, tenantID);
    ghost var before := if service.client != null then service.client.sent else [];
    status := Forward(service, request, body.bytes, metadata, net);
    ForwardedOne(before, metadata, AfterForward(metadata, Some(request), true, net), body.bytes, tenantID, net);
  }

  lemma TenantHasNoSlash(t: GoString)
    requires IsTenant(t)
    ensures '/' !in t
  {
  }

  /** Handler.Handle of the API; `accepted` stands for the JSON, serial number and base64 tests. */
  method HandleApi(service: Service, contentType: GoString, body: Body, accepted: bool, serialNumber: GoString,
                   host: GoString, request: Request, now: GoString, net: Net)
    returns (status: int)
    modifies service.client
    ensures status == WebhookStatus(contentType, body, accepted, ApiTenant(host), service.client != null, net)
    ensures service.client != null ==>
              WebhookSent(old(service.client.sent), service.client.sent, contentType, body, accepted,
                          ApiTenant(host), net)
    ensures service.client != null && |service.client.sent| > |old(service.client.sent)| ==>
              var m := service.client.sent[|old(service.client.sent)|].metadata;
              && Holds(m, "transport", "http") && Holds(m, "api_source", "api")
              && Holds(m, "serial_number", serialNumber) && Holds(m, "received_at", now)
              && Holds(m, "tenant_id", ApiTenant(host)) && Holds(m, "request_method", request.httpMethod)
              && (request.path.Some? ==> Holds(m, "request_path", request.path.value))
              && (request.userAgent != "" ==> Holds(m, "user_agent", request.userAgent))
  {
    hide ApiTenant, IsTenant, FirstTenant, AfterForward, Deliveries, ApiEntries, Holds;
    if contentType != "" && !HasPrefix(contentType, "application/json") {
      return 400;
    }
    if body.TooLarge? {
      return 413;
    } else if body.Unreadable? {
      return 400;
    }
    if !accepted {
      return 400;
    }
    var tenantID := TenantHosts.ExtractTenantID(host);
    if tenantID == "" {
      return 400;
    }
    AcceptedAreTenants(host);
    TenantHasNoSlash(tenantID);
    ApiPublished(serialNumber, request, now, tenantID, net);
    var metadata := ApiEntries(serialNumber, now, tenantID);
    ghost var before := if service.client != null then service.client.sent else [];
    status := Forward(service, request, body.bytes, metadata, net);
    ForwardedOne(before, metadata, AfterForward(metadata, Some(request), true, net), body.bytes, tenantID, net);
  }

  // ---------------------------------------------------------------- transports without a tenant

  ghost predicate NamesNoTenant(m: Entries) {
    forall f :: f in TENANT_FIELDS ==> f !in m
  }

  lemma NoTenantNoDelivery(m: Entries)
    requires NamesNoTenant(m)
    ensures FirstTenant(m) == ""
  {
    assert map[] + m == m;
    TenantIgnoresOtherEntries(map[], m);
  }

  /** Sec... and X-... headers are passed on. */
  predicate PassedOn(name: GoString) {
    |name| > 3 && (HasPrefix(name, "Sec") || HasPrefix(name, "X-"))
  }

  /** processMessage of the WebSocket handler: its metadata name no tenant, so the message
      is always refused and never reaches the broker. */
  method HandleWebSocketMessage(service: Service, id: GoString, remoteAddr: GoString, userAgent: GoString,
                                headers: map<GoString, seq<GoString>>, since: GoString, now: GoString,
                                message: GoString, net: Net)
    returns (err: Outcome)
    modifies service.client
    ensures err.Fail?
    ensures service.client != null ==> service.client.sent == old(service.client.sent)
  {
    var metadata := new Metadata(map[
      "transport" := Str("websocket"), "connection_id" := Str(id), "remote_addr" := Str(remoteAddr),
      "user_agent" := Str(userAgent), "connected_at" := Str(since), "message_count" := Other,
      "received_at" := Str(now)]);
    var names := headers.Keys;
    hide PassedOn, FirstNonempty;
    while names != {}
      invariant names <= headers.Keys
      invariant NamesNoTenant(metadata.entries)
      modifies metadata
      decreases |names|
    {
      var name :| name in names;
      names := names - {name};
      if PassedOn(name) && |headers[name]| > 0 {
        assert ("header_" + name)[0] == 'h';
        metadata.entries := metadata.entries["header_" + name := Str(headers[name][0])];
      }
    }
    NoTenantNoDelivery(metadata.entries);
    err := service.ProcessWebSocketMessage(message, metadata, net);
  }

  /** processDeviceData and processMessage of the Socket.IO handler, for a tracked or an
      untracked connection: refused alike. */
  method HandleSocketIoMessage(service: Service, id: GoString, eventType: GoString, tracked: bool,
                               sessionId: GoString, remoteAddr: GoString, namespace: GoString,
                               since: GoString, now: GoString, message: GoString, net: Net)
    returns (err: Outcome)
    modifies service.client
    ensures err.Fail?
    ensures service.client != null ==> service.client.sent == old(service.client.sent)
  {
    var metadata := new Metadata(map[
      "transport" := Str("socketio"), "connection_id" := Str(id), "event_type" := Str(eventType),
      "received_at" := Str(now)]);
    if tracked {
      metadata.entries := metadata.entries["session_id" := Str(sessionId)]["remote_addr" := Str(remoteAddr)]
        ["connected_at" := Str(since)]["message_count" := Other]["namespace" := Str(namespace)];
    }
    NoTenantNoDelivery(metadata.entries);
    err := service.ProcessWebSocketMessage(message, metadata, net);
  }

  /** messageHandler of the MQTT subscriber: refused too, whatever topic it arrived on. */
  method HandleMqttMessage(service: Service, topic: GoString, payload: GoString, now: GoString, net: Net)
    returns (err: Outcome)
    modifies service.client
    ensures err.Fail?
    ensures service.client != null ==> service.client.sent == old(service.client.sent)
  {
    var metadata := new Metadata(map[
      "transport" := Str("mqtt-subscriber"), "topic" := Str(topic), "qos" := Other, "retained" := Other,
      "duplicate" := Other, "message_id" := Other, "received_at" := Str(now)]);
    NoTenantNoDelivery(metadata.entries);
    err := service.ProcessMQTTMessage(topic, payload, metadata, net);
  }
}
