/** The MQTT subscriber: its list of topics, a Go slice that is spliced in place, against the
    topics of the broker session behind the current client. The connect callback runs as one
    step. Sessions are clean: they begin and end with the connection. */
module MqttSubscriber {

  datatype State = State(
    isRunning: bool,
    hasClient: bool,              // mqttClient is not nil
    connected: bool,              // the current client has a connection
    session: set<string>,         // what the broker has it subscribed to
    topics: seq<string>,          // config.SubscribeTopics
    messageCount: nat)

  /** Calls and environment steps. The booleans are what the broker answers. */
  datatype Event =
    | Start(connects: bool) | Stop(answers: seq<bool>)
    | OnConnect(answers: seq<bool>)          // some client's connect callback
    | ConnectionLost | Reconnected           // of the current client
    | AddSubscription(topic: string, answer: bool)
    | RemoveSubscription(topic: string, answer: bool)
    | Message

  predicate Yes(answers: seq<bool>, i: nat) { i < |answers| && answers[i] }

  /** The topics whose broker call succeeds. */
  function Granted(topics: seq<string>, answers: seq<bool>): set<string> {
    set i | 0 <= i < |topics| && Yes(answers, i) :: topics[i]
  }

  /** The list without the first occurrence of `t`. */
  function RemoveFirst(topics: seq<string>, t: string): seq<string> {
    if topics == [] then []
    else if topics[0] == t then topics[1..]
    else [topics[0]] + RemoveFirst(topics[1..], t)
  }

  predicate Usable(s: State) { s.isRunning && s.hasClient && s.connected }

  function Apply(s: State, e: Event): State {
    match e
    case Start(connects) =>
      if s.isRunning then s
      else s.(hasClient := true, connected := connects, session := {}, isRunning := connects)
    case Stop(_) =>
      if !s.isRunning then s
      else if s.hasClient && s.connected then s.(connected := false, session := {}, isRunning := false)
      else s.(isRunning := false)
    case OnConnect(answers) =>
      if s.hasClient && s.connected then s.(session := s.session + Granted(s.topics, answers)) else s
    case ConnectionLost => if s.hasClient then s.(connected := false, session := {}) else s
    case Reconnected => if s.hasClient && !s.connected then s.(connected := true, session := {}) else s
    case AddSubscription(t, answer) =>
      if Usable(s) && answer then s.(session := s.session + {t}, topics := s.topics + [t]) else s
    case RemoveSubscription(t, answer) =>
      if Usable(s) && answer then s.(session := s.session - {t}, topics := RemoveFirst(s.topics, t)) else s
    case Message => s.(messageCount := s.messageCount + 1)
  }

  /** Nothing is subscribed that is not on the list. */
  predicate Contained(s: State) {
    && (forall t :: t in s.session ==> t in s.topics)
    && (s.session != {} ==> s.hasClient && s.connected)
    && (s.isRunning ==> s.hasClient)
  }

  // ---------------------------------------------------------------- the splice

  /** RemoveFirst takes out exactly the first occurrence and keeps the order of the rest. */
  lemma {:induction false} RemoveFirstAt(topics: seq<string>, t: string, i: nat)
    requires i < |topics| && topics[i] == t && t !in topics[..i]
    ensures RemoveFirst(topics, t) == topics[..i] + topics[i + 1..]
  {
    if i == 0 {
      assert topics[..0] + topics[1..] == topics[1..];
    } else {
      assert topics[0] == topics[..i][0];
      assert t !in topics[1..][..i - 1] by { assert topics[1..][..i - 1] == topics[..i][1..]; }
      RemoveFirstAt(topics[1..], t, i - 1);
      assert topics[..i] == [topics[0]] + topics[1..][..i - 1];
      assert topics[1..][i..] == topics[i + 1..];
    }
  }

  lemma {:induction false} RemoveFirstAbsent(topics: seq<string>, t: string)
    requires t !in topics
    ensures RemoveFirst(topics, t) == topics
  {
    if topics != [] {
      RemoveFirstAbsent(topics[1..], t);
      assert topics == [topics[0]] + topics[1..];
    }
  }

  lemma RemoveFirstTail(topics: seq<string>, t: string)
    requires topics != [] && topics[0] != t
    ensures RemoveFirst(topics, t) == [topics[0]] + RemoveFirst(topics[1..], t)
  {
  }

  lemma TakeBehind(h: string, t: string, rest: multiset<string>)
    requires h != t
    ensures multiset{h} + (rest - multiset{t}) == (multiset{h} + rest) - multiset{t}
  {
  }

  lemma {:induction false} RemoveFirstCounts(topics: seq<string>, t: string)
    ensures multiset(RemoveFirst(topics, t)) == multiset(topics) - multiset{t}
  {
    if topics != [] {
      var h, rest := topics[0], topics[1..];
      assert multiset(topics) == multiset{h} + multiset(rest) by { assert topics == [h] + rest; }
      if h != t {
        RemoveFirstCounts(rest, t);
        RemoveFirstTail(topics, t);
        hide RemoveFirst;
        assert multiset([h] + RemoveFirst(rest, t)) == multiset{h} + multiset(RemoveFirst(rest, t));
        TakeBehind(h, t, multiset(rest));
      }
    }
  }

  lemma RemoveFirstMembers(topics: seq<string>, t: string)
    ensures forall u :: u != t ==> (u in RemoveFirst(topics, t) <==> u in topics)
    ensures t in RemoveFirst(topics, t) <==> multiset(topics)[t] >= 2
  {
    RemoveFirstCounts(topics, t);
    forall u | u != t ensures u in RemoveFirst(topics, t) <==> u in topics {
      assert u in RemoveFirst(topics, t) <==> u in multiset(RemoveFirst(topics, t));
    }
    assert t in RemoveFirst(topics, t) <==> t in multiset(RemoveFirst(topics, t));
  }

  // ---------------------------------------------------------------- the handler

  class Handler {
    var isRunning: bool
    var hasClient: bool
    var connected: bool
    var session: set<string>
    var data: array<string>       // backing array of the slice
    var count: nat                // length of the slice
    var messageCount: nat

    ghost predicate Valid()
      reads this, data
    {
      count <= data.Length && Contained(View())
    }

    ghost function View(): State
      reads this, data
      requires count <= data.Length
    {
      State(isRunning, hasClient, connected, session, data[..count], messageCount)
    }

    constructor (subscribeTopics: array<string>)
      ensures Valid() && data == subscribeTopics
      ensures View() == State(false, false, false, {}, subscribeTopics[..], 0)
    {
      isRunning, hasClient, connected, session, messageCount := false, false, false, {}, 0;
      data, count := subscribeTopics, subscribeTopics.Length;
    }

    method Start(connects: bool) returns (ok: bool)
      requires Valid()
      modifies this
      ensures Valid() && View() == Apply(old(View()), Event.Start(connects))
      ensures ok <==> !old(isRunning) && connects
      ensures old(isRunning) ==> View() == old(View())
      ensures !old(isRunning) ==> hasClient && connected == isRunning == connects && session == {}
    {
      if isRunning {
        return false;
      }
      hasClient, connected, session := true, connects, {};
      if !connects {
        return false;
      }
      isRunning := true;
      return true;
    }

    method Stop(answers: seq<bool>) returns (ok: bool)
      requires Valid()
      modifies this
      ensures Valid() && View() == Apply(old(View()), Event.Stop(answers))
      ensures ok == old(isRunning) && !isRunning
      ensures ok ==> !connected && session == {}
    {
      if !isRunning {
        return false;
      }
      if hasClient && connected {
        for i := 0 to count
          invariant isRunning && hasClient && connected && session <= old(session)
          invariant count == old(count) && data == old(data) && messageCount == old(messageCount)
        {
          if i < |answers| && answers[i] {
            session := session - {data[i]};
          }
        }
        connected, session := false, {};   // Disconnect ends the session
      }
      isRunning := false;
      return true;
    }

    /** subscribeToTopics, from the connect callback. */
    method OnConnect(answers: seq<bool>)
      requires Valid()
      modifies this`session
      ensures Valid() && View() == Apply(old(View()), Event.OnConnect(answers))
    {
      for i := 0 to count
        invariant session == if hasClient && connected then old(session) + Granted(data[..i], answers) else old(session)
      {
        GrantedStep(data[..count], answers, i);
        assert data[..count][..i] == data[..i] && data[..count][..i + 1] == data[..i + 1];
        if hasClient && connected && i < |answers| && answers[i] {
          session := session + {data[i]};
        }
      }
    }

    method AddSubscription(topic: string, answer: bool) returns (ok: bool)
      requires Valid()
      modifies this, data
      ensures Valid() && View() == Apply(old(View()), Event.AddSubscription(topic, answer))
      ensures ok == (old(isRunning) && old(hasClient) && old(connected) && answer)
      ensures ok ==> topic in session && data[..count] == old(data[..count]) + [topic]
      ensures !ok ==> View() == old(View())
      ensures data == old(data) || fresh(data)
    {
      if !isRunning || !hasClient || !connected {
        return false;
      }
      if !answer {
        return false;
      }
      session := session + {topic};
      Append(topic);
      return true;
    }

    /** append: in place while there is room, into a larger array otherwise. */
    method Append(topic: string)
      requires count <= data.Length
      modifies this`data, this`count, data
      ensures count <= data.Length && data[..count] == old(data[..count]) + [topic]
      ensures data == old(data) || fresh(data)
    {
      if count == data.Length {
        var larger := new string[2 * count + 1];
        forall i | 0 <= i < count { larger[i] := data[i]; }
        data := larger;
      }
      data[count] := topic;
      count := count + 1;
    }

    method RemoveSubscription(topic: string, answer: bool) returns (ok: bool)
      requires Valid()
      modifies this, data
      ensures Valid() && data == old(data)
      ensures View() == Apply(old(View()), Event.RemoveSubscription(topic, answer))
      ensures ok == (old(isRunning) && old(hasClient) && old(connected) && answer)
      ensures ok ==> topic !in session
      ensures !ok ==> View() == old(View())
    {
      if !isRunning || !hasClient || !connected {
        return false;
      }
      if !answer {
        return false;
      }
      session := session - {topic};
      RemoveFirstMembers(data[..count], topic);
      ghost var before := data[..count];
      var i := 0;
      while i < count && data[i] != topic
        invariant 0 <= i <= count
        invariant topic !in data[..i]
      {
        i := i + 1;
      }
      if i < count {
        RemoveFirstAt(before, topic, i);
        assert before[..i] == data[..i];
        SpliceOut(i);
      } else {
        RemoveFirstAbsent(before, topic);
      }
      return true;
    }

    /** append(s[:i], s[i+1:]...): later elements move down inside the same array, and the slot
        behind the new end keeps its old value, which earlier copies of the slice still see. */
    method SpliceOut(i: nat)
      requires i < count <= data.Length
      modifies this`count, data
      ensures count == old(count) - 1
      ensures data[..count] == old(data[..i]) + old(data[i + 1..count])
      ensures data[count..] == old(data[count - 1..])
    {
      ghost var was := data[..];
      var j := i;
      while j + 1 < count
        invariant i <= j < count == old(count)
        invariant data.Length == |was|
        invariant forall k :: 0 <= k < i || j <= k < |was| ==> data[k] == was[k]
        invariant forall k :: i <= k < j ==> data[k] == was[k + 1]
      {
        data[j] := data[j + 1];
        j := j + 1;
      }
      count := count - 1;
      assert forall k :: 0 <= k < count ==> data[k] == (old(data[..i]) + old(data[i + 1..count]))[k];
    }

    method MessageHandler()
      requires Valid()
      modifies this`messageCount
      ensures Valid() && View() == Apply(old(View()), Message)
      ensures messageCount == old(messageCount) + 1
    {
      messageCount := messageCount + 1;
    }
  }

  lemma GrantedStep(topics: seq<string>, answers: seq<bool>, i: nat)
    requires i < |topics|
    ensures Granted(topics[..i + 1], answers)
            == Granted(topics[..i], answers) + if Yes(answers, i) then {topics[i]} else {}
  {
    var a, b := topics[..i], topics[..i + 1];
    forall t | t in Granted(b, answers) ensures t in Granted(a, answers) || (Yes(answers, i) && t == topics[i]) {
      var k :| 0 <= k < |b| && Yes(answers, k) && b[k] == t;
      if k < i { assert a[k] == t; }
    }
    forall t | t in Granted(a, answers) ensures t in Granted(b, answers) {
      var k :| 0 <= k < |a| && Yes(answers, k) && a[k] == t;
      assert b[k] == t;
    }
    if Yes(answers, i) {
      assert b[i] == topics[i];
    }
  }

  // ---------------------------------------------------------------- session and list

  predicate Linked(s: State) { s.hasClient && s.connected }

  /** The current session is subscribed to exactly the list. */
  ghost predicate InSync(s: State) {
    Linked(s) && forall t :: t in s.session <==> t in s.topics
  }

  predicate NoDuplicates(topics: seq<string>) {
    forall i, j :: 0 <= i < j < |topics| ==> topics[i] != topics[j]
  }

  /** A connect callback of a client with a connection, all of whose calls succeed. */
  predicate FullCallback(s: State, e: Event) {
    Linked(s) && e.OnConnect? && forall i :: 0 <= i < |s.topics| ==> Yes(e.answers, i)
  }

  /** It brings the session in line with the list. */
  lemma CallbackSyncs(s: State, e: Event)
    requires Contained(s) && FullCallback(s, e)
    ensures InSync(Apply(s, e))
  {
    forall t | t in s.topics ensures t in Granted(s.topics, e.answers) {
      var i :| 0 <= i < |s.topics| && s.topics[i] == t;
      assert Yes(e.answers, i);
    }
  }

  /** Removing a topic keeps the session in line exactly when the list had it at most once. */
  lemma RemovalSyncsExactly(s: State, t: string)
    requires InSync(s) && Usable(s)
    ensures InSync(Apply(s, RemoveSubscription(t, true))) <==> multiset(s.topics)[t] <= 1
  {
    RemoveFirstMembers(s.topics, t);
  }

  /** Adding a topic that is not on the list and removing it again restores the state. */
  lemma AddRemoveRoundTrip(s: State, t: string)
    requires Contained(s) && Usable(s) && t !in s.topics
    ensures var added := Apply(s, AddSubscription(t, true));
            && t in added.session && t in added.topics
            && Apply(added, RemoveSubscription(t, true)) == s
  {
    var n := |s.topics|;
    var more := s.topics + [t];
    assert more[..n] == s.topics && more[n + 1..] == [];
    RemoveFirstAt(more, t, n);
    assert s.session + {t} - {t} == s.session;
  }

  /** Stopping a connected subscriber ends its session, starting gives it an empty one, and the
      first connect callback brings the list back. */
  lemma RestartRestores(s: State, stops: seq<bool>, answers: seq<bool>)
    requires InSync(s) && Usable(s) && Contained(s)
    requires forall i :: 0 <= i < |s.topics| ==> Yes(answers, i)
    ensures var stopped := Apply(s, Stop(stops));
            var started := Apply(stopped, Start(true));
            && !stopped.isRunning && !stopped.connected && stopped.session == {}
            && started.isRunning && started.session == {} && started.topics == s.topics
            && Apply(started, OnConnect(answers)) == s
  {
    var started := Apply(Apply(s, Stop(stops)), Start(true));
    CallbackSyncs(started, OnConnect(answers));
    assert Apply(started, OnConnect(answers)).session == s.session;
  }

  lemma {:induction false} NoDuplicatesMeans(topics: seq<string>)
    ensures NoDuplicates(topics) <==> forall t :: multiset(topics)[t] <= 1
  {
    if topics != [] {
      var n := |topics| - 1;
      NoDuplicatesMeans(topics[..n]);
      assert topics == topics[..n] + [topics[n]];
      assert forall t :: multiset(topics)[t] == multiset(topics[..n])[t] + if t == topics[n] then 1 else 0;
      assert topics[n] in topics[..n] <==> topics[n] in multiset(topics[..n]);
      if NoDuplicates(topics) {
        assert topics[n] !in topics[..n];
      }
    }
  }

  // ---------------------------------------------------------------- whole runs

  predicate Run(states: seq<State>, events: seq<Event>) {
    |states| == |events| + 1 && forall i :: 0 <= i < |events| ==> states[i + 1] == Apply(states[i], events[i])
  }

  lemma ApplyContained(s: State, e: Event)
    requires Contained(s)
    ensures Contained(Apply(s, e))
  {
    if e.RemoveSubscription? {
      RemoveFirstMembers(s.topics, e.topic);
    }
  }

  /** In every run, whatever the broker answers, the session's topics are on the list. */
  lemma {:induction false} SessionContained(states: seq<State>, events: seq<Event>, n: nat)
    requires Run(states, events) && Contained(states[0]) && n <= |events|
    ensures Contained(states[n])
  {
    if n > 0 {
      SessionContained(states, events, n - 1);
      ApplyContained(states[n - 1], events[n - 1]);
    }
  }

  /** An event that ends the current connection and its session. */
  predicate Ends(s: State, e: Event) {
    Linked(s) && (e.ConnectionLost? || (e.Stop? && s.isRunning) || (e.Start? && !s.isRunning))
  }

  /** A removal that the broker grants, of a topic the list has more than once. */
  predicate DropsRepeated(s: State, e: Event) {
    e.RemoveSubscription? && Usable(s) && e.answer && multiset(s.topics)[e.topic] >= 2
  }

  /** An addition that the broker grants, of a topic the list has already. */
  predicate AddsListed(s: State, e: Event) {
    e.AddSubscription? && Usable(s) && e.answer && e.topic in s.topics
  }

  lemma StepSyncs(s: State, e: Event)
    requires InSync(s) && !Ends(s, e)
    ensures InSync(Apply(s, e)) <==> !DropsRepeated(s, e)
  {
    match e
    case RemoveSubscription(t, _) => RemoveFirstMembers(s.topics, t);
    case OnConnect(answers) => assert forall t :: t in Granted(s.topics, answers) ==> t in s.topics;
    case _ =>
  }

  /** From a connect callback whose calls succeed to the end of that connection, session and list
      are equal all the time if and only if no topic is removed that the list has twice. Whatever
      came before, how other broker calls end and which clients call back does not matter. */
  lemma {:induction false} SyncExactly(states: seq<State>, events: seq<Event>, n: nat, m: nat)
    requires Run(states, events) && Contained(states[0])
    requires n < m <= |events| && FullCallback(states[n], events[n])
    requires forall i :: n < i < m ==> !Ends(states[i], events[i])
    ensures (forall i :: n < i <= m ==> InSync(states[i]))
            <==> forall i :: n < i < m ==> !DropsRepeated(states[i], events[i])
  {
    hide Apply, InSync, FullCallback, Ends, DropsRepeated, Contained;
    if m == n + 1 {
      SessionContained(states, events, n);
      CallbackSyncs(states[n], events[n]);
    } else {
      SyncExactly(states, events, n, m - 1);
      assert states[m] == Apply(states[m - 1], events[m - 1]);
      if forall i :: n < i <= m - 1 ==> InSync(states[i]) {
        assert InSync(states[m - 1]);
        StepSyncs(states[m - 1], events[m - 1]);
        assert InSync(states[m]) <==> !DropsRepeated(states[m - 1], events[m - 1]);
      }
    }
  }

  lemma StepNoDuplicates(s: State, e: Event)
    requires NoDuplicates(s.topics) && !AddsListed(s, e)
    ensures NoDuplicates(Apply(s, e).topics) && !DropsRepeated(s, e)
  {
    NoDuplicatesMeans(s.topics);
    if e.RemoveSubscription? {
      NoDuplicatesMeans(RemoveFirst(s.topics, e.topic));
      RemoveFirstCounts(s.topics, e.topic);
    }
  }

  lemma {:induction false} RunNoDuplicates(states: seq<State>, events: seq<Event>, n: nat)
    requires Run(states, events) && NoDuplicates(states[0].topics) && n <= |events|
    requires forall i :: 0 <= i < n ==> !AddsListed(states[i], events[i])
    ensures NoDuplicates(states[n].topics)
    ensures forall i :: 0 <= i < n ==> !DropsRepeated(states[i], events[i])
  {
    hide Apply, AddsListed, DropsRepeated, NoDuplicates;
    if n > 0 {
      RunNoDuplicates(states, events, n - 1);
      StepNoDuplicates(states[n - 1], events[n - 1]);
    }
  }

  /** Over whole runs, through any losses, reconnections, stops and starts: if the list begins
      without duplicates and no listed topic is added, then from each connect callback whose calls
      succeed to the end of that connection session and list are equal. */
  lemma SyncOverRuns(states: seq<State>, events: seq<Event>, n: nat, m: nat)
    requires Run(states, events) && Contained(states[0]) && NoDuplicates(states[0].topics)
    requires n < m <= |events| && FullCallback(states[n], events[n])
    requires forall i :: 0 <= i < m ==> !AddsListed(states[i], events[i])
    requires forall i :: n < i < m ==> !Ends(states[i], events[i])
    ensures InSync(states[m]) && NoDuplicates(states[m].topics)
  {
    hide *;
    RunNoDuplicates(states, events, m);
    SyncExactly(states, events, n, m);
  }

  // ---------------------------------------------------------------- what a run amounts to

  /** An event that subscribes the current session to `t`. */
  predicate Subscribes(s: State, e: Event, t: string) {
    || (Usable(s) && e == AddSubscription(t, true))
    || (Linked(s) && e.OnConnect? && exists i :: 0 <= i < |s.topics| && s.topics[i] == t && Yes(e.answers, i))
  }

  /** An event after which no session is subscribed to `t`. */
  predicate Drops(s: State, e: Event, t: string) {
    Ends(s, e) || (Usable(s) && e == RemoveSubscription(t, true))
  }

  /** Event `i` subscribed the session to `t`, and none after it up to `n` dropped that. */
  predicate Stands(states: seq<State>, events: seq<Event>, n: nat, t: string, i: nat)
    requires n <= |events| && |states| == |events| + 1
  {
    i < n && Subscribes(states[i], events[i], t) && forall j :: i < j < n ==> !Drops(states[j], events[j], t)
  }

  lemma ApplySession(s: State, e: Event, t: string)
    requires Contained(s)
    ensures t in Apply(s, e).session <==> Subscribes(s, e, t) || (t in s.session && !Drops(s, e, t))
  {
  }

  /** The broker has the subscriber down for exactly the topics it was subscribed to, by a
      connect callback or by AddSubscription, and not taken off since. */
  lemma {:induction false} SessionExactly(states: seq<State>, events: seq<Event>, n: nat, t: string)
    requires Run(states, events) && Contained(states[0]) && states[0].session == {} && n <= |events|
    ensures t in states[n].session <==> exists i: nat :: Stands(states, events, n, t, i)
  {
    hide Apply, Contained, Subscribes, Drops;
    if n > 0 {
      SessionExactly(states, events, n - 1, t);
      SessionContained(states, events, n - 1);
      ApplySession(states[n - 1], events[n - 1], t);
      if Subscribes(states[n - 1], events[n - 1], t) {
        assert Stands(states, events, n, t, n - 1);
      }
      if t in states[n - 1].session && !Drops(states[n - 1], events[n - 1], t) {
        var i: nat :| Stands(states, events, n - 1, t, i);
        assert Stands(states, events, n, t, i);
      }
      if i: nat :| Stands(states, events, n, t, i) && i < n - 1 {
        assert Stands(states, events, n - 1, t, i);
      }
    }
  }

  /** Event `i` started the subscriber, and none after it up to `n` stopped it. */
  predicate StartStands(events: seq<Event>, n: nat, i: nat)
    requires n <= |events|
  {
    i < n && events[i] == Start(true) && forall j :: i < j < n ==> !events[j].Stop?
  }

  lemma ApplyRunning(s: State, e: Event)
    ensures Apply(s, e).isRunning <==> e == Start(true) || (s.isRunning && !e.Stop?)
    ensures Apply(s, e).messageCount == s.messageCount + if e.Message? then 1 else 0
  {
  }

  /** The subscriber runs exactly if a start that connected stands. */
  lemma {:induction false} RunningExactly(states: seq<State>, events: seq<Event>, n: nat)
    requires Run(states, events) && !states[0].isRunning && n <= |events|
    ensures states[n].isRunning <==> exists i: nat :: StartStands(events, n, i)
  {
    hide Apply;
    if n > 0 {
      RunningExactly(states, events, n - 1);
      ApplyRunning(states[n - 1], events[n - 1]);
      if events[n - 1] == Start(true) {
        assert StartStands(events, n, n - 1);
      }
      if states[n - 1].isRunning && !events[n - 1].Stop? {
        var i: nat :| StartStands(events, n - 1, i);
        assert StartStands(events, n, i);
      }
      if i: nat :| StartStands(events, n, i) && i < n - 1 {
        assert StartStands(events, n - 1, i);
      }
    }
  }

  function Messages(events: seq<Event>, n: nat): nat
    requires n <= |events|
  {
    if n == 0 then 0 else Messages(events, n - 1) + if events[n - 1].Message? then 1 else 0
  }

  lemma {:induction false} MessagesCounted(states: seq<State>, events: seq<Event>, n: nat)
    requires Run(states, events) && n <= |events|
    ensures states[n].messageCount == states[0].messageCount + Messages(events, n)
  {
    hide Apply;
    if n > 0 {
      MessagesCounted(states, events, n - 1);
      ApplyRunning(states[n - 1], events[n - 1]);
    }
  }

  /** How often the list has `t`: once more for each addition the broker grants, once less, if it
      is there at all, for each such removal. Nothing else touches the list. */
  function Listed(states: seq<State>, events: seq<Event>, n: nat, t: string): nat
    requires n <= |events| && |states| == |events| + 1
  {
    if n == 0 then multiset(states[0].topics)[t] else
      var before, s, e := Listed(states, events, n - 1, t), states[n - 1], events[n - 1];
      if !(s.isRunning && s.hasClient && s.connected) then before
      else if e == AddSubscription(t, true) then before + 1
      else if e == RemoveSubscription(t, true) && before > 0 then before - 1
      else before
  }

  lemma ApplyLists(s: State, e: Event, t: string)
    ensures var before, usable := multiset(s.topics)[t], s.isRunning && s.hasClient && s.connected;
            multiset(Apply(s, e).topics)[t] ==
            if usable && e == AddSubscription(t, true) then before + 1
            else if usable && e == RemoveSubscription(t, true) && before > 0 then before - 1
            else before
  {
    if e.RemoveSubscription? {
      RemoveFirstCounts(s.topics, e.topic);
    }
  }

  lemma {:induction false} ListExactly(states: seq<State>, events: seq<Event>, n: nat, t: string)
    requires Run(states, events) && n <= |events|
    ensures multiset(states[n].topics)[t] == Listed(states, events, n, t)
  {
    hide Apply;
    if n > 0 {
      ListExactly(states, events, n - 1, t);
      ApplyLists(states[n - 1], events[n - 1], t);
    }
  }

  /** A topic added twice and removed once is off the session while the list still has it. */
  lemma DoubleAddBreaksSync()
    ensures var s := State(true, true, true, {}, [], 0);
            var once := Apply(s, AddSubscription("a", true));
            var twice := Apply(once, AddSubscription("a", true));
            InSync(s) && InSync(twice) && !InSync(Apply(twice, RemoveSubscription("a", true)))
  {
    var s := State(true, true, true, {}, [], 0);
    var twice := Apply(Apply(s, AddSubscription("a", true)), AddSubscription("a", true));
    assert twice.topics == ["a", "a"];
    RemovalSyncsExactly(twice, "a");
  }
}
