/** Device profiles and the four detectors. The header, payload and rule detectors share one
    shape - re-sort the profiles by priority, take the first that matches - and differ in what
    they accept and how they match; they are one class here, told apart by `Kind`. */
module Detection {
  import opened Options
  import opened GoMaps
  import opened GoStrings
  import opened Utf8
  import opened GlobPattern

  datatype Rule = Rule(kind: string, field: GoString, operator: string, value: GoString, required: bool)

  datatype Config = Config(method_: string, pattern: GoString, header: GoString, value: GoString,
                           headers: map<GoString, GoString>, rules: seq<Rule>, priority: int)

  datatype Profile = Profile(id: string, make: string, fields: set<GoString>, detection: Config)

  /** What one DetectDevice call sees. `headers` has the first value of each header under the
      names profiles ask for, `regexps` the pairs (pattern, text) for which
      regexp.MatchString says yes, `payload` the top-level JSON fields of the body with their
      %v rendering, None if the body is not an object. */
  datatype Scan = Scan(path: GoString, headers: map<GoString, GoString>, regexps: set<(GoString, GoString)>,
                       bodyLength: nat, payload: Option<map<GoString, GoString>>)
  {
    /** http.Header.Get. */
    function Header(name: GoString): GoString {
      if name in headers then headers[name] else ""
    }

    predicate Regexp(pattern: GoString, text: GoString) { (pattern, text) in regexps }
  }

  datatype Kind = Headers | Payload | Rules

  // ---------------------------------------------------------------- matching one profile

  /** matchesHeaderRule, matchesPathRule, matchesPayloadRule and their dispatch. */
  predicate MatchesRule(scan: Scan, rule: Rule) {
    match rule.kind
    case "header" =>
      var v := scan.Header(rule.field);
      (match rule.operator
       case "equals" => v == rule.value
       case "contains" => Contains(v, rule.value)
       case "exists" => v != ""
       case "regex" => scan.Regexp(rule.value, v)
       case _ => false)
    case "path" =>
      (match rule.operator
       case "equals" => scan.path == rule.value
       case "contains" => Contains(scan.path, rule.value)
       case "regex" => scan.Regexp(rule.value, scan.path)
       case _ => false)
    case "payload" =>
      scan.payload.Some? &&
      var found := rule.field in scan.payload.value;
      (match rule.operator
       case "exists" => found
       case "equals" => found && scan.payload.value[rule.field] == rule.value
       case "contains" => found && Contains(scan.payload.value[rule.field], rule.value)
       case _ => false)
    case _ => false
  }

  /** matchesRules: the scan over the rules, which gives up at the first required one that fails. */
  predicate MatchesRules(scan: Scan, rules: seq<Rule>) {
    rules == [] || ((MatchesRule(scan, rules[0]) || !rules[0].required) && MatchesRules(scan, rules[1..]))
  }

  /** The profiles RegisterProfile keeps. */
  predicate Accepts(kind: Kind, p: Profile) {
    match kind
    case Headers => p.detection.method_ in {"header", "headers"}
    case Payload => p.detection.method_ == "payload"
    case Rules => p.detection.method_ == "rules"
  }

  /** matchesProfile, matchesPayload or matchesRules. */
  predicate Matches(kind: Kind, scan: Scan, p: Profile) {
    match kind
    case Headers =>
      if p.detection.method_ == "header" then scan.Header(p.detection.header) == p.detection.value
      else p.detection.method_ == "headers"
           && forall h :: h in p.detection.headers ==> scan.Header(h) == p.detection.headers[h]
    case Payload =>
      && scan.payload.Some?
      && (if p.make == "chirpstack" then "event" in scan.payload.value
          else forall f :: f in p.fields ==> f in scan.payload.value)
    case Rules => MatchesRules(scan, p.detection.rules)
  }

  /** Payload detection turns an empty body away before it looks at any profile. */
  predicate Looks(kind: Kind, scan: Scan) { kind == Payload ==> scan.bodyLength > 0 }

  // ---------------------------------------------------------------- sort and scan

  predicate Descending(ps: seq<Profile>) {
    forall i, j :: 0 <= i < j < |ps| ==> ps[i].detection.priority >= ps[j].detection.priority
  }

  /** What sort.Slice may leave behind: sorted by falling priority, ties in any order. */
  predicate SortOf(ps: seq<Profile>, sorted: seq<Profile>) {
    multiset(sorted) == multiset(ps) && Descending(sorted)
  }

  function FirstMatch(kind: Kind, scan: Scan, ps: seq<Profile>): Option<Profile> {
    if ps == [] then None
    else if Matches(kind, scan, ps[0]) then Some(ps[0])
    else FirstMatch(kind, scan, ps[1..])
  }

  function Insert(p: Profile, ps: seq<Profile>): seq<Profile> {
    if ps == [] || p.detection.priority >= ps[0].detection.priority then [p] + ps
    else [ps[0]] + Insert(p, ps[1..])
  }

  lemma DescendingCons(p: Profile, ps: seq<Profile>)
    requires Descending(ps) && forall q :: q in ps ==> q.detection.priority <= p.detection.priority
    ensures Descending([p] + ps)
  {
  }

  lemma DescendingHead(ps: seq<Profile>)
    requires Descending(ps) && ps != []
    ensures forall q :: q in ps ==> q.detection.priority <= ps[0].detection.priority
    ensures Descending(ps[1..])
  {
  }

  lemma {:induction false} InsertPermutes(p: Profile, ps: seq<Profile>)
    ensures multiset(Insert(p, ps)) == multiset{p} + multiset(ps)
    ensures forall q :: q in Insert(p, ps) <==> q == p || q in ps
  {
    if ps != [] {
      InsertPermutes(p, ps[1..]);
      assert ps == [ps[0]] + ps[1..];
    }
  }

  lemma {:induction false} InsertSorts(p: Profile, ps: seq<Profile>)
    requires Descending(ps)
    ensures Descending(Insert(p, ps))
  {
    if ps != [] {
      DescendingHead(ps);
      if p.detection.priority < ps[0].detection.priority {
        InsertSorts(p, ps[1..]);
        InsertPermutes(p, ps[1..]);
        DescendingCons(ps[0], Insert(p, ps[1..]));
      } else {
        DescendingCons(p, ps);
      }
    }
  }

  lemma {:induction false} CanBeSorted(ps: seq<Profile>) returns (sorted: seq<Profile>)
    ensures SortOf(ps, sorted)
  {
    if ps == [] {
      sorted := [];
    } else {
      var rest := CanBeSorted(ps[1..]);
      sorted := Insert(ps[0], rest);
      InsertSorts(ps[0], rest);
      InsertPermutes(ps[0], rest);
      assert ps == [ps[0]] + ps[1..];
    }
  }

  /** A matching profile of maximal priority. */
  ghost predicate Best(kind: Kind, ps: multiset<Profile>, scan: Scan, p: Profile) {
    && p in ps && Matches(kind, scan, p)
    && forall q :: q in ps && Matches(kind, scan, q) ==> q.detection.priority <= p.detection.priority
  }

  /** Detection gives a matching profile of maximal priority, and fails exactly if none matches. */
  ghost predicate Answer(kind: Kind, ps: multiset<Profile>, scan: Scan, r: Option<Profile>) {
    if r.None? then !Looks(kind, scan) || forall p :: p in ps ==> !Matches(kind, scan, p)
    else Looks(kind, scan) && Best(kind, ps, scan, r.value)
  }

  lemma HeadOrTail(ps: seq<Profile>)
    requires ps != []
    ensures forall p :: p in multiset(ps) <==> p == ps[0] || p in multiset(ps[1..])
    ensures forall p :: p in multiset(ps[1..]) ==> p in ps
  {
    assert ps == [ps[0]] + ps[1..];
  }

  lemma {:induction false} FirstMatchAnswers(kind: Kind, scan: Scan, ps: seq<Profile>)
    requires Looks(kind, scan) && Descending(ps)
    ensures Answer(kind, multiset(ps), scan, FirstMatch(kind, scan, ps))
  {
    if ps != [] {
      hide Matches, Descending, Looks;
      DescendingHead(ps);
      FirstMatchAnswers(kind, scan, ps[1..]);
      HeadOrTail(ps);
    }
  }

  // ---------------------------------------------------------------- whole runs

  datatype Call = Register(profile: Profile) | Detect(scan: Scan, result: Option<Profile>)

  /** One call on a detector that holds `before` and leaves `after`. */
  ghost predicate Step(kind: Kind, before: seq<Profile>, call: Call, after: seq<Profile>) {
    match call
    case Register(p) => after == if Accepts(kind, p) then before + [p] else before
    case Detect(scan, r) =>
      if Looks(kind, scan) then SortOf(before, after) && r == FirstMatch(kind, scan, after)
      else after == before && r == None
  }

  ghost predicate Run(kind: Kind, calls: seq<Call>, states: seq<seq<Profile>>) {
    && |states| == |calls| + 1 && states[0] == []
    && forall i :: 0 <= i < |calls| ==> Step(kind, states[i], calls[i], states[i + 1])
  }

  /** The profiles a sequence of calls has registered, in order. */
  function Accepted(kind: Kind, calls: seq<Call>): seq<Profile> {
    if calls == [] then []
    else
      var last := calls[|calls| - 1];
      Accepted(kind, calls[..|calls| - 1])
      + if last.Register? && Accepts(kind, last.profile) then [last.profile] else []
  }

  lemma {:induction false} RunPermutes(kind: Kind, calls: seq<Call>, states: seq<seq<Profile>>, n: nat)
    requires Run(kind, calls, states) && n <= |calls|
    ensures multiset(states[n]) == multiset(Accepted(kind, calls[..n]))
  {
    if n > 0 {
      RunPermutes(kind, calls, states, n - 1);
      assert Step(kind, states[n - 1], calls[n - 1], states[n]);
      assert calls[..n][..n - 1] == calls[..n - 1];
    }
  }

  /** After any calls in any order, and however ties were sorted, the slice is a permutation of
      the accepted profiles and each detection answers as it should. */
  lemma DetectionOverRuns(kind: Kind, calls: seq<Call>, states: seq<seq<Profile>>, n: nat)
    requires Run(kind, calls, states) && n < |calls|
    ensures multiset(states[n]) == multiset(Accepted(kind, calls[..n]))
    ensures calls[n].Detect? ==>
              Answer(kind, multiset(Accepted(kind, calls[..n])), calls[n].scan, calls[n].result)
  {
    RunPermutes(kind, calls, states, n);
    assert Step(kind, states[n], calls[n], states[n + 1]);
    if calls[n].Detect? && Looks(kind, calls[n].scan) {
      FirstMatchAnswers(kind, calls[n].scan, states[n + 1]);
    }
  }

  // ---------------------------------------------------------------- what sorting decides

  /** Sorting may bring any profile to the front of those of its priority. */
  lemma {:induction false} InsertedFirst(kind: Kind, scan: Scan, p: Profile, ps: seq<Profile>)
    requires Matches(kind, scan, p)
    requires forall q :: q in ps && Matches(kind, scan, q) ==> q.detection.priority <= p.detection.priority
    ensures FirstMatch(kind, scan, Insert(p, ps)) == Some(p)
  {
    hide Matches;
    if ps != [] && p.detection.priority < ps[0].detection.priority {
      InsertedFirst(kind, scan, p, ps[1..]);
      assert Insert(p, ps)[1..] == Insert(p, ps[1..]);
    }
  }

  lemma SortFirst(kind: Kind, scan: Scan, ps: seq<Profile>, p: Profile) returns (sorted: seq<Profile>)
    requires Best(kind, multiset(ps), scan, p)
    ensures SortOf(ps, sorted) && FirstMatch(kind, scan, sorted) == Some(p)
  {
    hide Matches, FirstMatch;
    var i :| 0 <= i < |ps| && ps[i] == p;
    var rest := ps[..i] + ps[i + 1..];
    assert ps == ps[..i] + [p] + ps[i + 1..];
    assert multiset(ps) == multiset{p} + multiset(rest);
    var others := CanBeSorted(rest);
    sorted := Insert(p, others);
    InsertPermutes(p, others);
    InsertSorts(p, others);
    forall q | q in others && Matches(kind, scan, q) ensures q.detection.priority <= p.detection.priority {
      assert q in multiset(others) && q in multiset(ps);
    }
    InsertedFirst(kind, scan, p, others);
  }

  /** Every answer that is allowed comes out of some way of sorting the slice, and no other does. */
  lemma AnswersReached(kind: Kind, scan: Scan, ps: seq<Profile>, r: Option<Profile>)
    requires Looks(kind, scan)
    ensures Answer(kind, multiset(ps), scan, r)
            <==> exists sorted :: SortOf(ps, sorted) && FirstMatch(kind, scan, sorted) == r
  {
    hide Matches, Looks, FirstMatch, Descending;
    if Answer(kind, multiset(ps), scan, r) {
      if r.Some? {
        var sorted := SortFirst(kind, scan, ps, r.value);
      } else {
        var sorted := CanBeSorted(ps);
        FirstMatchAnswers(kind, scan, sorted);
      }
    }
    if sorted :| SortOf(ps, sorted) && FirstMatch(kind, scan, sorted) == r {
      FirstMatchAnswers(kind, scan, sorted);
    }
  }

  /** The instability of the sort does not show exactly if there is at most one matching profile
      of maximal priority. */
  lemma AnswerUnique(kind: Kind, scan: Scan, ps: seq<Profile>)
    requires Looks(kind, scan)
    ensures (forall s, t :: SortOf(ps, s) && SortOf(ps, t) ==> FirstMatch(kind, scan, s) == FirstMatch(kind, scan, t))
            <==> forall p, q :: Best(kind, multiset(ps), scan, p) && Best(kind, multiset(ps), scan, q) ==> p == q
  {
    hide Matches, Looks, FirstMatch, SortOf;
    forall s, t | SortOf(ps, s) && SortOf(ps, t)
      ensures Answer(kind, multiset(ps), scan, FirstMatch(kind, scan, s))
      ensures Answer(kind, multiset(ps), scan, FirstMatch(kind, scan, t))
    {
      AnswersReached(kind, scan, ps, FirstMatch(kind, scan, s));
      AnswersReached(kind, scan, ps, FirstMatch(kind, scan, t));
    }
    forall p, q | Best(kind, multiset(ps), scan, p) && Best(kind, multiset(ps), scan, q)
      ensures exists s, t :: SortOf(ps, s) && SortOf(ps, t)
                             && FirstMatch(kind, scan, s) == Some(p) && FirstMatch(kind, scan, t) == Some(q)
    {
      var s := SortFirst(kind, scan, ps, p);
      var t := SortFirst(kind, scan, ps, q);
    }
  }

  // ---------------------------------------------------------------- what rules and profiles ask for

  /** The text that a rule of this kind and field looks at. */
  predicate Reads(scan: Scan, kind: string, field: GoString, text: GoString) {
    || (kind == "header" && if field in scan.headers then text == scan.headers[field] else text == "")
    || (kind == "path" && text == scan.path)
    || (kind == "payload" && scan.payload.Some? && field in scan.payload.value && text == scan.payload.value[field])
  }

  /** A rule about a text compares it, searches it or hands it to the regular-expression engine,
      in the same way for headers, path and payload. */
  lemma RulesAboutText(scan: Scan, kind: string, field: GoString, text: GoString, w: GoString, required: bool)
    requires Reads(scan, kind, field, text)
    ensures MatchesRule(scan, Rule(kind, field, "equals", w, required)) <==> text == w
    ensures MatchesRule(scan, Rule(kind, field, "contains", w, required)) <==> exists a, b :: text == a + w + b
    ensures kind != "payload" ==>
              (MatchesRule(scan, Rule(kind, field, "regex", w, required)) <==> (w, text) in scan.regexps)
    ensures kind == "header" ==> (MatchesRule(scan, Rule(kind, field, "exists", w, required)) <==> text != "")
    ensures kind == "payload" ==> MatchesRule(scan, Rule(kind, field, "exists", w, required))
  {
    ContainsMeans(text, w);
  }

  lemma ContainsMeans(s: GoString, sub: GoString)
    ensures Contains(s, sub) <==> exists a, b :: s == a + sub + b
  {
    if Contains(s, sub) {
      var a, b := ContainsSplits(s, sub);
    }
    if a, b :| s == a + sub + b {
      ContainsIntro(a, sub, b);
    }
  }

  /** No other rule ever matches: not on a field that is missing or a body that is no object, and
      not with any other operator. */
  lemma OtherRulesFail(scan: Scan, rule: Rule)
    requires MatchesRule(scan, rule)
    ensures exists text :: Reads(scan, rule.kind, rule.field, text)
    ensures (rule.kind, rule.operator) in
              {("header", "equals"), ("header", "contains"), ("header", "regex"), ("header", "exists"),
               ("path", "equals"), ("path", "contains"), ("path", "regex"),
               ("payload", "equals"), ("payload", "contains"), ("payload", "exists")}
  {
    hide Contains;
    if rule.kind == "header" {
      assert Reads(scan, "header", rule.field, scan.Header(rule.field));
    } else if rule.kind == "path" {
      assert Reads(scan, "path", rule.field, scan.path);
    } else {
      assert Reads(scan, "payload", rule.field, scan.payload.value[rule.field]);
    }
  }

  /** An "equals" rule is a "contains" rule that asks for more. */
  lemma EqualsContains(scan: Scan, rule: Rule)
    requires rule.operator == "equals" && MatchesRule(scan, rule)
    ensures MatchesRule(scan, rule.(operator := "contains"))
  {
    hide Contains;
    OtherRulesFail(scan, rule);
    var text :| Reads(scan, rule.kind, rule.field, text);
    RulesAboutText(scan, rule.kind, rule.field, text, rule.value, rule.required);
    assert text == "" + rule.value + "";
  }

  /** The profile that asks for one header only. */
  function WithHeader(p: Profile, header: GoString, value: GoString): Profile {
    p.(detection := p.detection.(method_ := "header", header := header, value := value))
  }

  /** A "header" profile asks for what one required rule asks for; a "headers" profile for what
      each of its headers would alone. */
  lemma HeaderProfiles(scan: Scan, p: Profile)
    ensures p.detection.method_ == "header" ==>
              (Matches(Headers, scan, p)
               <==> MatchesRule(scan, Rule("header", p.detection.header, "equals", p.detection.value, true)))
    ensures p.detection.method_ == "headers" ==>
              (Matches(Headers, scan, p) <==>
               forall h :: h in p.detection.headers ==>
                 Matches(Headers, scan, WithHeader(p, h, p.detection.headers[h])))
  {
  }

  function ExistsRule(field: GoString): Rule { Rule("payload", field, "exists", "", true) }

  /** A payload profile asks for an object, and of an object what required "exists" rules for its
      fields ask for. */
  lemma PayloadProfiles(scan: Scan, p: Profile, wanted: set<GoString>, rules: seq<Rule>)
    requires wanted == if p.make == "chirpstack" then {"event"} else p.fields
    requires forall r :: r in rules <==> r.field in wanted && r == ExistsRule(r.field)
    ensures Matches(Payload, scan, p) <==> scan.payload.Some? && MatchesRules(scan, rules)
  {
    hide MatchesRules;
    RulesMean(scan, rules);
    if scan.payload.Some? {
      forall f ensures MatchesRule(scan, ExistsRule(f)) <==> f in scan.payload.value {
      }
      if Matches(Payload, scan, p) {
        forall r | r in rules ensures MatchesRule(scan, r) {
          assert r == ExistsRule(r.field) && r.field in wanted;
        }
      }
      if MatchesRules(scan, rules) {
        forall f | f in wanted ensures f in scan.payload.value {
          assert ExistsRule(f) in rules;
        }
      }
    }
  }

  /** Read as one for rules, a profile asks for its required rules. */
  lemma RuleProfiles(scan: Scan, p: Profile)
    ensures Matches(Rules, scan, p)
            <==> forall r :: r in p.detection.rules && r.required ==> MatchesRule(scan, r)
  {
    hide MatchesRule;
    RulesMean(scan, p.detection.rules);
  }

  // ---------------------------------------------------------------- optional rules

  ghost function RequiredRules(p: Profile): set<Rule> {
    set r | r in p.detection.rules && r.required
  }

  /** `q` is `p` with optional rules dropped, added or moved. */
  ghost predicate SameRequired(p: Profile, q: Profile) {
    && RequiredRules(p) == RequiredRules(q)
    && q == p.(detection := p.detection.(rules := q.detection.rules))
  }

  lemma {:induction false} RulesMean(scan: Scan, rules: seq<Rule>)
    ensures MatchesRules(scan, rules) <==> forall r :: r in rules && r.required ==> MatchesRule(scan, r)
  {
    if rules != [] {
      RulesMean(scan, rules[1..]);
      assert forall r :: r in rules <==> r == rules[0] || r in rules[1..];
    }
  }

  lemma RequiredRulesMean(p: Profile)
    ensures forall r :: r in RequiredRules(p) <==> r in p.detection.rules && r.required
  {
  }

  lemma OptionalRulesInert(scan: Scan, p: Profile, q: Profile)
    requires SameRequired(p, q)
    ensures Matches(Rules, scan, p) <==> Matches(Rules, scan, q)
  {
    RulesMean(scan, p.detection.rules);
    RulesMean(scan, q.detection.rules);
    RequiredRulesMean(p);
    RequiredRulesMean(q);
  }

  lemma InertMatches(scan: Scan, ps: seq<Profile>, qs: seq<Profile>)
    requires |ps| == |qs| && forall i :: 0 <= i < |ps| ==> SameRequired(ps[i], qs[i])
    ensures forall i :: 0 <= i < |ps| ==>
              (Matches(Rules, scan, ps[i]) <==> Matches(Rules, scan, qs[i]))
              && ps[i].detection.priority == qs[i].detection.priority
  {
    hide Matches, RequiredRules;
    forall i | 0 <= i < |ps|
      ensures Matches(Rules, scan, ps[i]) <==> Matches(Rules, scan, qs[i])
    {
      OptionalRulesInert(scan, ps[i], qs[i]);
    }
  }

  /** Where a maximal match of `ps` stands. */
  lemma AnswerAt(scan: Scan, ps: seq<Profile>, r: Option<Profile>) returns (i: nat)
    requires Answer(Rules, multiset(ps), scan, r)
    ensures r.Some? ==> i < |ps| && r.value == ps[i] && Matches(Rules, scan, ps[i])
    ensures r.Some? ==> forall j :: 0 <= j < |ps| && Matches(Rules, scan, ps[j])
                          ==> ps[j].detection.priority <= ps[i].detection.priority
    ensures r.None? ==> forall j :: 0 <= j < |ps| ==> !Matches(Rules, scan, ps[j])
  {
    hide Matches;
    assert forall j :: 0 <= j < |ps| ==> ps[j] in multiset(ps);
    if r.Some? {
      i :| 0 <= i < |ps| && ps[i] == r.value;
    } else {
      i := 0;
    }
  }

  lemma InertAnswers(scan: Scan, ps: seq<Profile>, qs: seq<Profile>, r: Option<Profile>, s: Option<Profile>)
    requires |ps| == |qs| && forall i :: 0 <= i < |ps| ==> SameRequired(ps[i], qs[i])
    requires DistinctPriorities(ps)
    requires Answer(Rules, multiset(ps), scan, r) && Answer(Rules, multiset(qs), scan, s)
    ensures if r.None? then s.None? else exists i :: 0 <= i < |ps| && r == Some(ps[i]) && s == Some(qs[i])
  {
    hide Matches, SameRequired, Answer;
    InertMatches(scan, ps, qs);
    var i := AnswerAt(scan, ps, r);
    var j := AnswerAt(scan, qs, s);
    if r.Some? {
      assert s.Some?;
      assert i == j;
    }
  }

  /** The same call, but for optional rules of a profile being registered. */
  ghost predicate CallsAlike(c: Call, d: Call) {
    if c.Register? then d.Register? && SameRequired(c.profile, d.profile)
    else d.Detect? && c.scan == d.scan
  }

  ghost predicate DistinctPriorities(ps: seq<Profile>) {
    forall i, j :: 0 <= i < j < |ps| ==> ps[i].detection.priority != ps[j].detection.priority
  }

  lemma {:induction false} AcceptedAlike(calls: seq<Call>, others: seq<Call>)
    requires |calls| == |others| && forall i :: 0 <= i < |calls| ==> CallsAlike(calls[i], others[i])
    ensures |Accepted(Rules, calls)| == |Accepted(Rules, others)|
    ensures forall i :: 0 <= i < |Accepted(Rules, calls)| ==>
              SameRequired(Accepted(Rules, calls)[i], Accepted(Rules, others)[i])
  {
    hide RequiredRules;
    if calls != [] {
      var n := |calls| - 1;
      AcceptedAlike(calls[..n], others[..n]);
      assert CallsAlike(calls[n], others[n]);
    }
  }

  /** Optional rules are inert over whole runs: change them in any registered profiles, let both
      detectors sort as they like, and every detection picks the profile registered in the
      same place. */
  lemma OptionalRulesInertOverRuns(calls: seq<Call>, states: seq<seq<Profile>>,
                                   others: seq<Call>, otherStates: seq<seq<Profile>>, n: nat)
    requires Run(Rules, calls, states) && Run(Rules, others, otherStates)
    requires |calls| == |others| && forall i :: 0 <= i < |calls| ==> CallsAlike(calls[i], others[i])
    requires n < |calls| && calls[n].Detect? && DistinctPriorities(Accepted(Rules, calls[..n]))
    ensures var ps, qs := Accepted(Rules, calls[..n]), Accepted(Rules, others[..n]);
            others[n].Detect? &&
            if calls[n].result.None? then others[n].result.None?
            else exists i :: 0 <= i < |ps| && 0 <= i < |qs|
                             && calls[n].result == Some(ps[i]) && others[n].result == Some(qs[i])
  {
    hide *;
    assert CallsAlike(calls[n], others[n]) && others[n].Detect? && calls[n].scan == others[n].scan by {
      CallsAlikeMeans(calls[n], others[n]);
    }
    DetectionOverRuns(Rules, calls, states, n);
    DetectionOverRuns(Rules, others, otherStates, n);
    AcceptedAlike(calls[..n], others[..n]);
    var ps, qs := Accepted(Rules, calls[..n]), Accepted(Rules, others[..n]);
    InertAnswers(calls[n].scan, ps, qs, calls[n].result, others[n].result);
  }

  lemma CallsAlikeMeans(c: Call, d: Call)
    requires CallsAlike(c, d) && c.Detect?
    ensures d.Detect? && c.scan == d.scan
  {
  }

  // ---------------------------------------------------------------- the three sorting detectors

  class ProfileDetector {
    const kind: Kind
    var profiles: seq<Profile>

    constructor (kind: Kind)
      ensures this.kind == kind && profiles == []
    {
      this.kind := kind;
      profiles := [];
    }

    method RegisterProfile(profile: Profile)
      modifies this
      ensures Step(kind, old(profiles), Register(profile), profiles)
      ensures profiles == old(profiles) +
                if match kind
                   case Headers => profile.detection.method_ == "header" || profile.detection.method_ == "headers"
                   case Payload => profile.detection.method_ == "payload"
                   case Rules => profile.detection.method_ == "rules"
                then [profile] else []
    {
      if Accepts(kind, profile) {
        profiles := profiles + [profile];
      }
    }

    method DetectDevice(scan: Scan) returns (r: Option<Profile>)
      modifies this
      ensures Step(kind, old(profiles), Detect(scan, r), profiles)
      ensures multiset(profiles) == multiset(old(profiles))
      ensures Answer(kind, multiset(profiles), scan, r)
      ensures r.None? <==> (kind == Payload && scan.bodyLength == 0)
                           || forall p :: p in profiles ==> !Matches(kind, scan, p)
      ensures r.Some? ==>
                && r.value in profiles && Matches(kind, scan, r.value)
                && forall p :: p in profiles && Matches(kind, scan, p) ==>
                     p.detection.priority <= r.value.detection.priority
    {
      if kind == Payload && scan.bodyLength == 0 {
        return None;
      }
      profiles := SortSlice(profiles);
      FirstMatchAnswers(kind, scan, profiles);
      assert profiles[0..] == profiles;
      for i := 0 to |profiles|
        invariant FirstMatch(kind, scan, profiles) == FirstMatch(kind, scan, profiles[i..])
      {
        if Matches(kind, scan, profiles[i]) {
          return Some(profiles[i]);
        }
        assert profiles[i..][1..] == profiles[i + 1..];
      }
      return None;
    }
  }

  /** sort.Slice with the detectors' comparison. It is not stable: any sorted order may come out. */
  method SortSlice(ps: seq<Profile>) returns (sorted: seq<Profile>)
    ensures SortOf(ps, sorted)
  {
    ghost var witness_ := CanBeSorted(ps);
    sorted :| SortOf(ps, sorted);
  }

  // ---------------------------------------------------------------- the path detector

  /** A registered pattern answers for a path: spelled the same, or matching as a wildcard. */
  predicate PatternAnswers(path: GoString, pattern: GoString) {
    pattern == path || MatchesPattern(path, pattern)
  }

  /** In terms of globs, unless the pattern is broken UTF-8. */
  lemma PatternAnswersGlob(path: GoString, pattern: GoString)
    ensures Valid(pattern) ==> (PatternAnswers(path, pattern) <==> Glob(Runes(pattern), Runes(path)))
    ensures !Valid(pattern) ==> (PatternAnswers(path, pattern) <==> pattern == path)
  {
    hide MatchesPattern, Glob;
    GlobCompilation(path, pattern);
    PatternMatchesItself(path);
    GlobReflexive(Runes(pattern));
  }

  /** What DetectDevice may return over all iteration orders of the map. */
  ghost predicate PathAnswer(profiles: map<GoString, Profile>, path: GoString, r: Option<Profile>) {
    if path in profiles then r == Some(profiles[path])
    else if r.None? then forall k :: k in profiles ==> !PatternAnswers(path, k)
    else exists k :: k in profiles && PatternAnswers(path, k) && r.value == profiles[k]
  }

  predicate AllIn(order: seq<GoString>, profiles: map<GoString, Profile>) {
    forall i :: 0 <= i < |order| ==> order[i] in profiles
  }

  /** The loop for exact matches. */
  function FirstEqual(profiles: map<GoString, Profile>, path: GoString, order: seq<GoString>): Option<Profile>
    requires AllIn(order, profiles)
  {
    if order == [] then None
    else if order[0] == path then Some(profiles[order[0]])
    else FirstEqual(profiles, path, order[1..])
  }

  /** The loop for wildcard matches. */
  function FirstWildcard(profiles: map<GoString, Profile>, path: GoString, order: seq<GoString>): Option<Profile>
    requires AllIn(order, profiles)
  {
    if order == [] then None
    else if MatchesPattern(path, order[0]) then Some(profiles[order[0]])
    else FirstWildcard(profiles, path, order[1..])
  }

  /** Iteration orders for the two loops. */
  ghost predicate Orders(profiles: map<GoString, Profile>, a: seq<GoString>, b: seq<GoString>) {
    Enumerates(a, profiles.Keys) && Enumerates(b, profiles.Keys)
  }

  /** DetectDevice, when its loops visit the map in the orders `a` and `b`. */
  function Loops(profiles: map<GoString, Profile>, path: GoString, a: seq<GoString>, b: seq<GoString>): Option<Profile>
    requires Orders(profiles, a, b)
  {
    var exact := FirstEqual(profiles, path, a);
    if exact.Some? then exact else FirstWildcard(profiles, path, b)
  }

  lemma {:induction false} FirstEqualFinds(profiles: map<GoString, Profile>, path: GoString, order: seq<GoString>)
    requires AllIn(order, profiles)
    ensures FirstEqual(profiles, path, order) == if path in order then Some(profiles[path]) else None
  {
    if order != [] {
      FirstEqualFinds(profiles, path, order[1..]);
      assert order == [order[0]] + order[1..];
    }
  }

  lemma {:induction false} FirstWildcardFinds(profiles: map<GoString, Profile>, path: GoString, order: seq<GoString>)
    requires AllIn(order, profiles)
    ensures var r := FirstWildcard(profiles, path, order);
            if r.None? then forall k :: k in order ==> !MatchesPattern(path, k)
            else exists k :: k in order && MatchesPattern(path, k) && r.value == profiles[k]
  {
    hide MatchesPattern;
    if order != [] {
      FirstWildcardFinds(profiles, path, order[1..]);
      assert order == [order[0]] + order[1..];
    }
  }

  lemma LoopsAnswer(profiles: map<GoString, Profile>, path: GoString, a: seq<GoString>, b: seq<GoString>)
    requires Orders(profiles, a, b)
    ensures PathAnswer(profiles, path, Loops(profiles, path, a, b))
  {
    hide MatchesPattern, FirstEqual, FirstWildcard;
    FirstEqualFinds(profiles, path, a);
    FirstWildcardFinds(profiles, path, b);
  }

  lemma LoopsReach(profiles: map<GoString, Profile>, path: GoString, r: Option<Profile>)
    returns (a: seq<GoString>, b: seq<GoString>)
    requires PathAnswer(profiles, path, r)
    ensures Orders(profiles, a, b) && Loops(profiles, path, a, b) == r
  {
    hide MatchesPattern, FirstEqual;
    a := SomeOrder(profiles.Keys);
    b := a;
    FirstEqualFinds(profiles, path, a);
    if path !in profiles {
      if r.Some? {
        var k :| k in profiles && PatternAnswers(path, k) && r.value == profiles[k];
        var others := SomeOrder(profiles.Keys - {k});
        EnumeratesMore(others, profiles.Keys - {k}, k);
        b := [k] + others;
        assert profiles.Keys - {k} + {k} == profiles.Keys;
      } else {
        LoopsAnswer(profiles, path, a, b);
      }
    }
  }

  /** The allowed answers are exactly those that some pair of iteration orders gives. */
  lemma PathAnswersReached(profiles: map<GoString, Profile>, path: GoString, r: Option<Profile>)
    ensures PathAnswer(profiles, path, r)
            <==> exists a, b :: Orders(profiles, a, b) && Loops(profiles, path, a, b) == r
  {
    hide PathAnswer, Orders, Loops;
    if PathAnswer(profiles, path, r) {
      var a, b := LoopsReach(profiles, path, r);
    }
    if a, b :| Orders(profiles, a, b) && Loops(profiles, path, a, b) == r {
      LoopsAnswer(profiles, path, a, b);
    }
  }

  /** Whether some pattern answers, and which profile those that do agree on. */
  lemma PathAnswerUnique(profiles: map<GoString, Profile>, path: GoString)
    ensures forall r :: PathAnswer(profiles, path, r) ==>
              (r.Some? <==> exists k :: k in profiles && PatternAnswers(path, k))
    ensures (forall r, s :: PathAnswer(profiles, path, r) && PathAnswer(profiles, path, s) ==> r == s)
            <==> (path in profiles || MatchesAgree(profiles, path))
  {
    hide PatternAnswers;
    if path in profiles {
      assert PatternAnswers(path, path) by { SpelledAlike(path); }
    } else {
      forall k, l | k in profiles && l in profiles && PatternAnswers(path, k) && PatternAnswers(path, l)
        ensures PathAnswer(profiles, path, Some(profiles[k])) && PathAnswer(profiles, path, Some(profiles[l]))
      {
      }
    }
  }

  /** All patterns that answer carry one profile. */
  ghost predicate MatchesAgree(profiles: map<GoString, Profile>, path: GoString) {
    forall k, l :: k in profiles && l in profiles && PatternAnswers(path, k) && PatternAnswers(path, l)
      ==> profiles[k] == profiles[l]
  }

  /** Whether detection succeeds does not depend on the orders; a pattern equal to the path wins;
      and the result is the same for all orders exactly when that happens or all matching
      patterns agree. */
  lemma PathOrderIndependence(profiles: map<GoString, Profile>, path: GoString)
    ensures forall a, b :: Orders(profiles, a, b) ==>
              (Loops(profiles, path, a, b).Some? <==> exists k :: k in profiles && PatternAnswers(path, k))
    ensures path in profiles ==>
              forall a, b :: Orders(profiles, a, b) ==> Loops(profiles, path, a, b) == Some(profiles[path])
    ensures (forall a, b, c, d :: Orders(profiles, a, b) && Orders(profiles, c, d) ==>
               Loops(profiles, path, a, b) == Loops(profiles, path, c, d))
            <==> (path in profiles || MatchesAgree(profiles, path))
  {
    hide PatternAnswers, Orders, Loops, MatchesAgree;
    PathAnswerUnique(profiles, path);
    forall a, b | Orders(profiles, a, b) ensures PathAnswer(profiles, path, Loops(profiles, path, a, b)) {
      LoopsAnswer(profiles, path, a, b);
    }
    if !(path in profiles || MatchesAgree(profiles, path)) {
      var r, s :| PathAnswer(profiles, path, r) && PathAnswer(profiles, path, s) && r != s;
      var a, b := LoopsReach(profiles, path, r);
      var c, d := LoopsReach(profiles, path, s);
    }
  }

  /** Two patterns match one path, and the order of the map decides between their profiles. */
  lemma MapOrderDecides(p: Profile, q: Profile)
    requires p != q
    ensures var profiles, there, back := map["*" := p, "**" := q], ["*", "**"], ["**", "*"];
            && Orders(profiles, there, there) && Loops(profiles, "a", there, there) == Some(p)
            && Orders(profiles, there, back) && Loops(profiles, "a", there, back) == Some(q)
  {
    hide MatchesPattern, FirstEqual, Glob, Valid, Runes;
    var profiles, there := map["*" := p, "**" := q], ["*", "**"];
    FirstEqualFinds(profiles, "a", there);
    StarsMatch();
  }

  lemma StarsMatch()
    ensures MatchesPattern("a", "*") && MatchesPattern("a", "**")
  {
    hide MatchesPattern;
    GlobCompilation("a", "*");
    GlobCompilation("a", "**");
    assert "**"[1..] == "*" && "*"[1..] == "" && "a"[1..] == "" && "a"[0..] == "a";
    assert Runes("a") == "a" && Runes("*") == "*" && Runes("**") == "**";
    assert Glob("*", "a") by { assert '\n' !in "a"[..1] && Glob("", "a"[1..]); }
    assert Glob("**", "a") by { assert '\n' !in "a"[..0] && Glob("*", "a"[0..]); }
  }

  lemma SpelledAlike(path: GoString)
    ensures PatternAnswers(path, path)
  {
  }

  class PathDetector {
    var profiles: map<GoString, Profile>

    constructor ()
      ensures profiles == map[]
    {
      profiles := map[];
    }

    method RegisterProfile(profile: Profile)
      modifies this
      ensures profiles == if profile.detection.method_ == "path"
                          then old(profiles)[profile.detection.pattern := profile] else old(profiles)
    {
      if profile.detection.method_ == "path" {
        profiles := profiles[profile.detection.pattern := profile];
      }
    }

    /** Two loops over the map, each in an order of its own. */
    method DetectDevice(scan: Scan) returns (r: Option<Profile>)
      ensures exists a, b :: Orders(profiles, a, b) && r == Loops(profiles, scan.path, a, b)
      ensures PathAnswer(profiles, scan.path, r)
    {
      hide MatchesPattern, PathAnswer, Enumerates;
      var path := scan.path;
      var a := Range(profiles.Keys);
      var b := Range(profiles.Keys);
      assert Orders(profiles, a, b) && AllIn(a, profiles) && AllIn(b, profiles) by { OrdersStayInside(profiles, a, b); }
      LoopsAnswer(profiles, path, a, b);
      assert a[0..] == a && b[0..] == b;
      for i := 0 to |a|
        invariant FirstEqual(profiles, path, a) == FirstEqual(profiles, path, a[i..])
      {
        if a[i] == path {
          return Some(profiles[a[i]]);
        }
        assert a[i..][1..] == a[i + 1..];
      }
      for i := 0 to |b|
        invariant FirstWildcard(profiles, path, b) == FirstWildcard(profiles, path, b[i..])
      {
        if MatchesPattern(path, b[i]) {
          return Some(profiles[b[i]]);
        }
        assert b[i..][1..] == b[i + 1..];
      }
      return None;
    }
  }

  lemma OrdersStayInside(profiles: map<GoString, Profile>, a: seq<GoString>, b: seq<GoString>)
    requires Enumerates(a, profiles.Keys) && Enumerates(b, profiles.Keys)
    ensures Orders(profiles, a, b) && AllIn(a, profiles) && AllIn(b, profiles)
  {
  }
}
