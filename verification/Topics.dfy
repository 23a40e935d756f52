/** The topics the service publishes on, and the check they have to pass. */
module Topics {
  import opened GoStrings

  /** The topic both generateFlexibleTopic and generateTenantTopic produce. */
  function TenantTopic(tenant: GoString): GoString {
    "tenant/" + tenant + "/device/data"
  }

  /** validateTopic: no error is returned. */
  predicate ValidTopic(topic: GoString) {
    && topic != ""
    && Contains(topic, "/device/") && HasSuffix(topic, "/data") && HasPrefix(topic, "tenant/")
    && |Split(topic, '/')| == 4
  }

  /** The wildcard characters of section 4.7.1 of MQTT 3.1.1; section 3.3.2.1 bars them from
      a topic that is published to. */
  predicate HasWildcard(topic: GoString) { '+' in topic || '#' in topic }

  lemma FourFields(a: GoString, b: GoString, c: GoString, d: GoString)
    requires '/' !in a && '/' !in b && '/' !in c && '/' !in d
    ensures Split(a + "/" + b + "/" + c + "/" + d, '/') == [a, b, c, d]
  {
    hide *;
    SplitConcat(a + "/" + b + "/" + c, '/', d);
    SplitConcat(a + "/" + b, '/', c);
    SplitConcat(a, '/', b);
    SplitOfFree(a, '/');
    SplitOfFree(b, '/');
    SplitOfFree(c, '/');
    SplitOfFree(d, '/');
  }

  lemma JoinFour(parts: seq<GoString>)
    requires |parts| == 4
    ensures Join(parts, '/') == parts[0] + "/" + parts[1] + "/" + parts[2] + "/" + parts[3]
  {
    var b := parts[1..];
    var c := b[1..];
    assert c[1..] == [parts[3]];
    assert Join(c, '/') == parts[2] + "/" + parts[3];
    assert Join(b, '/') == parts[1] + "/" + (parts[2] + "/" + parts[3]);
  }

  lemma PrefixField(topic: GoString, rest: GoString)
    requires topic == "tenant/" + rest
    ensures Split(topic, '/')[0] == "tenant"
  {
    hide *;
    assert topic == "tenant" + "/" + rest;
    SplitConcat("tenant", '/', rest);
    SplitOfFree("tenant", '/');
  }

  lemma SuffixField(topic: GoString, rest: GoString)
    requires topic == rest + "/data"
    ensures var p := Split(topic, '/'); p[|p| - 1] == "data"
  {
    hide *;
    assert topic == rest + "/" + "data";
    SplitConcat(rest, '/', "data");
    SplitOfFree("data", '/');
  }

  lemma MiddleField(topic: GoString, a: GoString, b: GoString)
    requires topic == a + "/device/" + b
    ensures exists i :: 0 < i < |Split(topic, '/')| - 1 && Split(topic, '/')[i] == "device"
  {
    hide *;
    assert topic == (a + "/" + "device") + "/" + b;
    SplitConcat(a + "/" + "device", '/', b);
    SplitConcat(a, '/', "device");
    SplitOfFree("device", '/');
    assert Split(topic, '/')[|Split(a, '/')|] == "device";
  }

  /** What validateTopic accepts, field by field. */
  lemma ValidFields(topic: GoString) returns (p: seq<GoString>)
    requires ValidTopic(topic)
    ensures p == Split(topic, '/') && |p| == 4
    ensures p[0] == "tenant" && p[3] == "data" && (p[1] == "device" || p[2] == "device")
  {
    hide Split, Join, Contains;
    p := Split(topic, '/');
    PrefixField(topic, topic[7..]);
    SuffixField(topic, topic[..|topic| - 5]);
    var a, b := ContainsSplits(topic, "/device/");
    MiddleField(topic, a, b);
  }

  lemma ValidTopicSpelled(topic: GoString) returns (x: GoString)
    requires ValidTopic(topic)
    ensures '/' !in x && (topic == TenantTopic(x) || topic == "tenant/device/" + x + "/data")
  {
    hide Split, Join, ValidTopic;
    var p := ValidFields(topic);
    JoinSplit(topic, '/');
    JoinFour(p);
    x := if p[2] == "device" then p[1] else p[2];
    assert x in p;
  }

  lemma FirstFamilyValid(x: GoString)
    requires '/' !in x
    ensures ValidTopic(TenantTopic(x))
    ensures Split(TenantTopic(x), '/') == ["tenant", x, "device", "data"]
  {
    hide Split, Contains;
    var topic := TenantTopic(x);
    assert topic == "tenant" + "/" + x + "/" + "device" + "/" + "data";
    FourFields("tenant", x, "device", "data");
    assert topic == ("tenant/" + x) + "/device/" + "data";
    ContainsIntro("tenant/" + x, "/device/", "data");
    assert topic[|topic| - 5..] == "/data";
  }

  lemma SecondFamilyValid(x: GoString)
    requires '/' !in x
    ensures ValidTopic("tenant/device/" + x + "/data")
  {
    hide Split, Contains;
    var topic := "tenant/device/" + x + "/data";
    assert topic == "tenant" + "/" + "device" + "/" + x + "/" + "data";
    FourFields("tenant", "device", x, "data");
    assert topic == "tenant" + "/device/" + (x + "/data");
    ContainsIntro("tenant", "/device/", x + "/data");
    assert topic[|topic| - 5..] == "/data";
  }

  /** The exact language of validateTopic: one field is free, and it is the second or the
      third; it may be empty. */
  lemma ValidTopicLanguage(topic: GoString)
    ensures ValidTopic(topic) <==>
            exists x :: '/' !in x && (topic == TenantTopic(x) || topic == "tenant/device/" + x + "/data")
  {
    hide ValidTopic;
    if ValidTopic(topic) {
      var x := ValidTopicSpelled(topic);
    }
    if x :| '/' !in x && topic == TenantTopic(x) {
      FirstFamilyValid(x);
    } else if x :| '/' !in x && topic == "tenant/device/" + x + "/data" {
      SecondFamilyValid(x);
    }
  }

  /** A tenant is read back from its topic. */
  lemma TenantTopicInjective(s: GoString, t: GoString)
    requires TenantTopic(s) == TenantTopic(t)
    ensures s == t
  {
    var topic := TenantTopic(s);
    assert |topic| == |s| + 19;
    assert s == topic[7..|topic| - 12] == t;
  }

  /** A generated topic passes validation exactly when the tenant has no slash. */
  lemma GeneratedTopicValid(tenant: GoString)
    ensures ValidTopic(TenantTopic(tenant)) <==> '/' !in tenant
  {
    hide Split, Contains;
    if ValidTopic(TenantTopic(tenant)) {
      var topic := TenantTopic(tenant);
      var rest := tenant + "/device/data";
      assert topic == "tenant" + "/" + rest;
      assert rest == tenant + "/" + "device" + "/" + "data";
      SplitConcat("tenant", '/', rest);
      SplitConcat(tenant + "/" + "device", '/', "data");
      SplitConcat(tenant, '/', "device");
      SplitOfFree("tenant", '/');
      SplitOfFree("device", '/');
      SplitOfFree("data", '/');
      SplitHead(tenant, '/');
    } else if '/' !in tenant {
      FirstFamilyValid(tenant);
    }
  }
}
