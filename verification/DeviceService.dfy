/** The forwarding service and the MQTT client it publishes through. Both write to and read
    from one metadata map, which they share with the transport that built it. */
module DeviceService {
  import opened Options
  import opened GoStrings
  import opened Topics

  datatype Outcome = Pass | Fail(error: string)

  /** A metadata value: a string, or something a type assertion to string turns down. */
  datatype Value = Str(s: GoString) | Other

  type Entries = map<string, Value>

  /** A Go map is a reference: everyone who holds it sees every write. */
  class Metadata {
    var entries: Entries

    constructor (entries: Entries)
      ensures this.entries == entries
    {
      this.entries := entries;
    }
  }

  /** What the environment answers while one message is forwarded. */
  datatype Net = Net(connectedFirst: bool, connectedAgain: bool, marshals: bool, acknowledged: bool)

  datatype Sent = Sent(topic: GoString, payload: GoString, metadata: Entries)

  // ---------------------------------------------------------------- topic of a message

  /** The string stored under `key`, "" if there is none. */
  function StringAt(m: Entries, key: string): GoString {
    if key in m && m[key].Str? then m[key].s else ""
  }

  const TENANT_FIELDS: seq<string> := ["tenant_id", "tenant", "organization", "space_id", "organization_id"]

  function FirstNonempty(m: Entries, fields: seq<string>): GoString {
    if fields == [] then ""
    else if StringAt(m, fields[0]) != "" then StringAt(m, fields[0])
    else FirstNonempty(m, fields[1..])
  }

  /** extractTenantID, as a function. */
  function FirstTenant(m: Entries): GoString { FirstNonempty(m, TENANT_FIELDS) }

  /** extractTenantID: tenant_id first, then a loop over the other names. */
  method ExtractTenantID(m: Entries) returns (tenant: GoString)
    ensures tenant == FirstTenant(m)
  {
    if StringAt(m, "tenant_id") != "" {
      return StringAt(m, "tenant_id");
    }
    var tenantFields := ["tenant", "organization", "space_id", "organization_id"];
    assert TENANT_FIELDS[1..] == tenantFields;
    var i := 0;
    while i < |tenantFields|
      invariant 0 <= i <= |tenantFields|
      invariant FirstTenant(m) == FirstNonempty(m, tenantFields[i..])
    {
      var value := StringAt(m, tenantFields[i]);
      if value != "" {
        return value;
      }
      assert tenantFields[i..][1..] == tenantFields[i + 1..];
      i := i + 1;
    }
    return "";
  }

  /** The tenant is the string under the first field that has a nonempty one. */
  lemma {:induction false} FirstNonemptyIsFirst(m: Entries, fields: seq<string>, t: GoString)
    requires t != ""
    ensures FirstNonempty(m, fields) == t <==>
            exists i :: 0 <= i < |fields| && StringAt(m, fields[i]) == t
                        && forall j :: 0 <= j < i ==> StringAt(m, fields[j]) == ""
  {
    if fields != [] {
      var rest := fields[1..];
      FirstNonemptyIsFirst(m, rest, t);
      if StringAt(m, fields[0]) == "" {
        if i :| 0 <= i < |rest| && StringAt(m, rest[i]) == t
                && forall j :: 0 <= j < i ==> StringAt(m, rest[j]) == "" {
          assert fields[i + 1] == rest[i];
          assert forall j :: 0 < j < i + 1 ==> fields[j] == rest[j - 1];
        }
        if i :| 0 <= i < |fields| && StringAt(m, fields[i]) == t
                && forall j :: 0 <= j < i ==> StringAt(m, fields[j]) == "" {
          assert rest[i - 1] == fields[i];
          assert forall j :: 0 <= j < i - 1 ==> rest[j] == fields[j + 1];
        }
      } else if StringAt(m, fields[0]) == t {
        assert StringAt(m, fields[0]) == t;
      }
    }
  }

  lemma {:induction false} FirstNonemptyDepends(m: Entries, n: Entries, fields: seq<string>)
    requires forall f :: f in fields ==> StringAt(m, f) == StringAt(n, f)
    ensures FirstNonempty(m, fields) == FirstNonempty(n, fields)
  {
    if fields != [] {
      FirstNonemptyDepends(m, n, fields[1..]);
    }
  }

  /** Entries under any other name, an earlier `mqtt_topic` among them, have no influence. */
  lemma TenantIgnoresOtherEntries(m: Entries, extra: Entries)
    requires forall f :: f in TENANT_FIELDS ==> f !in extra
    ensures FirstTenant(m + extra) == FirstTenant(m)
  {
    FirstNonemptyDepends(m + extra, m, TENANT_FIELDS);
  }

  /** The five names and who wins: each counts only if none before it has a nonempty string. */
  lemma TenantPrecedence(m: Entries)
    ensures FirstTenant(m) ==
              if StringAt(m, "tenant_id") != "" then StringAt(m, "tenant_id")
              else if StringAt(m, "tenant") != "" then StringAt(m, "tenant")
              else if StringAt(m, "organization") != "" then StringAt(m, "organization")
              else if StringAt(m, "space_id") != "" then StringAt(m, "space_id")
              else StringAt(m, "organization_id")
  {
    var names := ["tenant_id", "tenant", "organization", "space_id", "organization_id"];
    assert TENANT_FIELDS == names;
    assert names[1..][1..] == names[2..] && names[2..][1..] == names[3..] && names[3..][1..] == names[4..];
    assert names[4..][1..] == [];
    hide StringAt;
    FirstNonemptyStep(m, names);
    FirstNonemptyStep(m, names[1..]);
    FirstNonemptyStep(m, names[2..]);
    FirstNonemptyStep(m, names[3..]);
    FirstNonemptyStep(m, names[4..]);
  }

  lemma FirstNonemptyStep(m: Entries, fields: seq<string>)
    requires fields != []
    ensures FirstNonempty(m, fields) ==
              if StringAt(m, fields[0]) != "" then StringAt(m, fields[0]) else FirstNonempty(m, fields[1..])
    ensures FirstNonempty(m, []) == ""
  {
  }

  // ---------------------------------------------------------------- MQTT client

  /** `key` holds the string `s`. */
  predicate Holds(m: Entries, key: string, s: GoString) { key in m && m[key] == Str(s) }

  /** A nonempty `mqtt_topic` decides; without one there must be a topic template and a `tenant_id`,
      and the other tenant fields do not help. */
  lemma PublishedTopic(client: Client, m: Entries, topic: GoString)
    ensures client.DetermineTopic(m) == Some(topic) <==>
              || (topic != "" && Holds(m, "mqtt_topic", topic))
              || ((forall t :: Holds(m, "mqtt_topic", t) ==> t == "") && client.topicTemplate != ""
                  && exists t :: t != "" && Holds(m, "tenant_id", t) && topic == "tenant/" + t + "/device/data")
  {
    forall key, s | Holds(m, key, s) ensures StringAt(m, key) == s {
    }
    if StringAt(m, "mqtt_topic") != "" {
      assert Holds(m, "mqtt_topic", StringAt(m, "mqtt_topic"));
    } else if StringAt(m, "tenant_id") != "" {
      assert Holds(m, "tenant_id", StringAt(m, "tenant_id"));
    }
  }

  class Client {
    const topicTemplate: GoString
    var sent: seq<Sent>   // what the broker has been handed, oldest first

    constructor (topicTemplate: GoString)
      ensures sent == [] && this.topicTemplate == topicTemplate
    {
      this.topicTemplate := topicTemplate;
      sent := [];
    }

    /** generateTenantTopic. */
    function GenerateTenantTopic(m: Entries): Option<GoString> {
      if topicTemplate == "" || StringAt(m, "tenant_id") == "" then None
      else Some(TenantTopic(StringAt(m, "tenant_id")))
    }

    /** determineTopic: a forwarding topic in the metadata comes first. */
    function DetermineTopic(m: Entries): Option<GoString> {
      if StringAt(m, "mqtt_topic") != "" then Some(StringAt(m, "mqtt_topic"))
      else GenerateTenantTopic(m)
    }

    /** When Publish reaches the broker. */
    predicate HandsOver(m: Entries, net: Net) {
      && net.connectedAgain && net.marshals
      && DetermineTopic(m).Some? && ValidTopic(DetermineTopic(m).value)
    }

    method Publish(payload: GoString, metadata: Metadata, net: Net) returns (err: Outcome)
      modifies this
      ensures HandsOver(metadata.entries, net) ==>
                sent == old(sent) + [Sent(DetermineTopic(metadata.entries).value, payload, metadata.entries)]
      ensures !HandsOver(metadata.entries, net) ==> sent == old(sent)
      ensures err.Pass? <==> HandsOver(metadata.entries, net) && net.acknowledged
    {
      if !net.connectedAgain {
        return Fail("MQTT client is not connected");
      }
      var topic := DetermineTopic(metadata.entries);
      if topic.None? {
        return Fail("topic determination failed");
      }
      if !ValidTopic(topic.value) {
        return Fail("topic must follow pattern tenant/{tenant}/device/data");
      }
      if !net.marshals {
        return Fail("failed to marshal device data");
      }
      sent := sent + [Sent(topic.value, payload, metadata.entries)];
      if !net.acknowledged {
        return Fail("failed to publish message");
      }
      return Pass;
    }
  }

  // ---------------------------------------------------------------- forwarding

  datatype Request = Request(path: Option<GoString>, httpMethod: GoString, userAgent: GoString)

  /** The request ProcessMQTTMessage and ProcessWebSocketMessage make up. */
  const MOCK_REQUEST := Request(None, "", "")

  /** What forwardToMQTT adds to the metadata about the request; None stands for nil. */
  function RequestEntries(request: Option<Request>): Entries {
    if request.None? then map[] else
      var r := request.value;
      (if r.path.Some? then map["request_path" := Str(r.path.value)] else map[])
      + map["request_method" := Str(r.httpMethod)]
      + (if r.userAgent != "" then map["user_agent" := Str(r.userAgent)] else map[])
  }

  /** When a message with these metadata is handed to the broker, and on which topic. */
  predicate Delivered(m: Entries, hasClient: bool, net: Net) {
    && hasClient && net.connectedFirst && net.connectedAgain && net.marshals
    && FirstTenant(m) != "" && '/' !in FirstTenant(m)
  }

  function Deliveries(m: Entries, hasClient: bool, net: Net, payload: GoString, after: Entries): seq<Sent> {
    if Delivered(m, hasClient, net) then [Sent(TenantTopic(FirstTenant(m)), payload, after)] else []
  }

  /** The metadata once forwardToMQTT has returned. */
  function AfterForward(m: Entries, r: Option<Request>, hasClient: bool, net: Net): Entries {
    var noted := m + RequestEntries(r);
    if FirstTenant(m) != "" && hasClient && net.connectedFirst
    then noted["mqtt_topic" := Str(TenantTopic(FirstTenant(m)))] else noted
  }

  function Lookup(m: Entries, key: string): Option<Value> {
    if key in m then Some(m[key]) else None
  }

  /** What the forwarded message says beside what the transport put in: path, method and user agent
      of the request, as far as there are any, and the topic once there is a connection. */
  lemma ForwardedMetadata(m: Entries, r: Option<Request>, hasClient: bool, net: Net)
    ensures var after := AfterForward(m, r, hasClient, net);
            && Lookup(after, "request_path") ==
                 (if r.Some? && r.value.path.Some? then Some(Str(r.value.path.value)) else Lookup(m, "request_path"))
            && Lookup(after, "request_method") ==
                 (if r.Some? then Some(Str(r.value.httpMethod)) else Lookup(m, "request_method"))
            && Lookup(after, "user_agent") ==
                 (if r.Some? && r.value.userAgent != "" then Some(Str(r.value.userAgent)) else Lookup(m, "user_agent"))
            && Lookup(after, "mqtt_topic") ==
                 (if FirstTenant(m) != "" && hasClient && net.connectedFirst
                  then Some(Str("tenant/" + FirstTenant(m) + "/device/data")) else Lookup(m, "mqtt_topic"))
            && forall key :: key !in {"request_path", "request_method", "user_agent", "mqtt_topic"} ==>
                 Lookup(after, key) == Lookup(m, key)
  {
    hide FirstNonempty;
  }

  /** Exactly when a message goes out, and what it is. */
  lemma DeliveredMessage(m: Entries, hasClient: bool, net: Net, payload: GoString, after: Entries)
    ensures Deliveries(m, hasClient, net, payload, after) ==
              (if hasClient && net.connectedFirst && net.connectedAgain && net.marshals
                  && FirstTenant(m) != "" && '/' !in FirstTenant(m)
               then [Sent("tenant/" + FirstTenant(m) + "/device/data", payload, after)] else [])
    ensures Delivered(m, hasClient, net) <==> |Deliveries(m, hasClient, net, payload, after)| == 1
  {
    hide FirstNonempty;
  }

  lemma RequestEntriesKeepTenant(m: Entries, r: Option<Request>)
    ensures FirstTenant(m + RequestEntries(r)) == FirstTenant(m)
    ensures r.None? ==> m + RequestEntries(r) == m
  {
    TenantIgnoresOtherEntries(m, RequestEntries(r));
  }

  /** The topic in the message decides, and validation turns it away exactly for a slash. */
  lemma OverrideDecides(client: Client, m: Entries, tenant: GoString, net: Net)
    requires tenant != "" && "mqtt_topic" in m && m["mqtt_topic"] == Str(TenantTopic(tenant))
    ensures client.DetermineTopic(m) == Some(TenantTopic(tenant))
    ensures client.HandsOver(m, net) <==> net.connectedAgain && net.marshals && '/' !in tenant
  {
    hide ValidTopic;
    GeneratedTopicValid(tenant);
  }

  class Service {
    const client: Client?

    constructor (client: Client?)
      ensures this.client == client
    {
      this.client := client;
    }

    /** forwardToMQTT. If there is a request, a nil metadata map is replaced for the message, but
        topic generation still looks at the nil one. */
    method ForwardToMQTT(payload: GoString, request: Option<Request>, metadata: Metadata?, net: Net)
      returns (err: Outcome)
      modifies client, metadata
      ensures metadata == null ==> err.Fail? && (client != null ==> client.sent == old(client.sent))
      ensures metadata != null ==>
                && metadata.entries == AfterForward(old(metadata.entries), request, client != null, net)
                && (client != null ==>
                      client.sent == old(client.sent)
                                     + Deliveries(old(metadata.entries), true, net, payload, metadata.entries))
                && (err.Pass? <==> Delivered(old(metadata.entries), client != null, net) && net.acknowledged)
    {
      hide FirstNonempty, FirstTenant, RequestEntries, StringAt, TenantTopic, Client.HandsOver, Client.DetermineTopic;
      var message := metadata;
      if request.Some? {
        if message == null {
          message := new Metadata(map[]);
        }
        message.entries := message.entries + RequestEntries(request);
      }
      if metadata != null {
        RequestEntriesKeepTenant(old(metadata.entries), request);
        assert metadata.entries == old(metadata.entries) + RequestEntries(request);
      }

      var tenant := "";
      if metadata != null {
        tenant := ExtractTenantID(metadata.entries);
        assert tenant == FirstTenant(old(metadata.entries));
      }
      if tenant == "" {
        return Fail("tenant information is required for topic generation");
      }
      var topic := TenantTopic(tenant);
      if client != null && net.connectedFirst {
        message.entries := message.entries["mqtt_topic" := Str(topic)];
        OverrideDecides(client, message.entries, tenant, net);
        err := client.Publish(payload, message, net);
      } else {
        return Fail("MQTT client not available or not connected");
      }
    }

    method ProcessHTTPMessage(request: Option<Request>, body: GoString, metadata: Metadata?, net: Net)
      returns (err: Outcome)
      modifies client, metadata
      ensures metadata == null ==> err.Fail? && (client != null ==> client.sent == old(client.sent))
      ensures metadata != null ==>
                && metadata.entries == AfterForward(old(metadata.entries), request, client != null, net)
                && (client != null ==>
                      client.sent == old(client.sent)
                                     + Deliveries(old(metadata.entries), true, net, body, metadata.entries))
                && (err.Pass? <==> Delivered(old(metadata.entries), client != null, net) && net.acknowledged)
    {
      err := ForwardToMQTT(body, request, metadata, net);
    }

    /** ProcessMQTTMessage: the topic a message came in on never decides where it goes. */
    method ProcessMQTTMessage(topic: GoString, payload: GoString, metadata: Metadata, net: Net)
      returns (err: Outcome)
      modifies client, metadata
      ensures metadata.entries == AfterForward(old(metadata.entries)["mqtt_topic" := Str(topic)],
                                               Some(Request(None, "", "")), client != null, net)
      ensures client != null ==>
                client.sent == old(client.sent)
                               + Deliveries(old(metadata.entries), true, net, payload, metadata.entries)
      ensures err.Pass? <==> Delivered(old(metadata.entries), client != null, net) && net.acknowledged
    {
      ghost var before := metadata.entries;
      metadata.entries := metadata.entries["mqtt_topic" := Str(topic)];
      TenantIgnoresOtherEntries(before, map["mqtt_topic" := Str(topic)]);
      assert metadata.entries == before + map["mqtt_topic" := Str(topic)];
      err := ForwardToMQTT(payload, Some(MOCK_REQUEST), metadata, net);
    }

    method ProcessWebSocketMessage(payload: GoString, metadata: Metadata, net: Net)
      returns (err: Outcome)
      modifies client, metadata
      ensures metadata.entries == AfterForward(old(metadata.entries)["transport" := Str("websocket")],
                                               Some(Request(None, "", "")), client != null, net)
      ensures client != null ==>
                client.sent == old(client.sent)
                               + Deliveries(old(metadata.entries), true, net, payload, metadata.entries)
      ensures err.Pass? <==> Delivered(old(metadata.entries), client != null, net) && net.acknowledged
    {
      ghost var before := metadata.entries;
      metadata.entries := metadata.entries["transport" := Str("websocket")];
      TenantIgnoresOtherEntries(before, map["transport" := Str("websocket")]);
      assert metadata.entries == before + map["transport" := Str("websocket")];
      err := ForwardToMQTT(payload, Some(MOCK_REQUEST), metadata, net);
    }
  }
}
