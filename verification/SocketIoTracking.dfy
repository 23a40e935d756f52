/** The Socket.IO handler: Start, Stop and the callbacks, each of which works on the handler
    inside one critical section. Callbacks may arrive at any time, also from a server that has
    been stopped. */
module SocketIoTracking {
  import opened Options
  import opened ConnectionIds

  /** A *Connection is a position in the store of all connections ever created, so a connection
      keeps its counter after the map has forgotten it. */
  datatype Connection = Connection(nanos: int, address: string, messageCount: nat)
  {
    function Id(): string { ConnectionId("sio_", nanos, address) }
  }

  datatype State = State(
    server: Option<nat>, isRunning: bool,
    connections: map<string, nat>,
    messageCount: nat,
    created: seq<Connection>,
    servers: nat,                 // how many servers were ever created
    strays: nat)                  // history: events that arrived for untracked connections

  datatype Event = Start | Stop | OnConnect(nanos: int, address: string)
                 | OnDisconnect(id: string) | OnEvent(id: string)

  const INITIAL: State := State(None, false, map[], 0, [], 0, 0)

  /** The state after one event. */
  function Apply(s: State, e: Event): State {
    match e
    case Start => if s.isRunning then s else s.(server := Some(s.servers), servers := s.servers + 1, isRunning := true)
    case Stop => if !s.isRunning then s else s.(server := None, connections := map[], isRunning := false)
    case OnConnect(t, a) =>
      s.(connections := s.connections[ConnectionId("sio_", t, a) := |s.created|],
         created := s.created + [Connection(t, a, 0)])
    case OnDisconnect(id) => s.(connections := s.connections - {id})
    case OnEvent(id) =>
      if id in s.connections && s.connections[id] < |s.created| then
        var k := s.connections[id];
        s.(created := s.created[k := s.created[k].(messageCount := s.created[k].messageCount + 1)],
           messageCount := s.messageCount + 1)
      else s.(messageCount := s.messageCount + 1, strays := s.strays + 1)
  }

  /** Every entry of the map is the position of a connection filed under its own identifier. */
  predicate Tracks(s: State) {
    forall id :: id in s.connections ==> s.connections[id] < |s.created| && s.created[s.connections[id]].Id() == id
  }

  /** The handler runs exactly while it has a server, and its count is that of all connections
      ever created plus the events that found no connection. */
  ghost predicate Accounts(s: State) {
    Tracks(s) && s.messageCount == Counts(s.created) + s.strays && (s.isRunning <==> s.server.Some?)
  }

  class Handler {
    var server: Option<nat>
    var isRunning: bool
    var connections: map<string, nat>
    var messageCount: nat
    var created: seq<Connection>
    var servers: nat
    ghost var strays: nat

    ghost function View(): State
      reads this
    {
      State(server, isRunning, connections, messageCount, created, servers, strays)
    }

    ghost predicate Valid()
      reads this
    {
      Accounts(View())
    }

    constructor ()
      ensures Valid() && View() == INITIAL
    {
      server, isRunning, connections, messageCount, created, servers, strays := None, false, map[], 0, [], 0, 0;
    }

    method Start() returns (ok: bool)
      requires Valid()
      modifies this
      ensures Valid() && View() == Apply(old(View()), Event.Start) && ok == !old(isRunning)
    {
      hide Counts, ConnectionId;
      ApplyAccounts(View(), Event.Start);
      if isRunning {
        return false;
      }
      server := Some(servers);
      servers := servers + 1;
      isRunning := true;
      return true;
    }

    method Stop() returns (ok: bool)
      requires Valid()
      modifies this
      ensures Valid() && View() == Apply(old(View()), Event.Stop) && ok == old(isRunning)
    {
      hide Counts, ConnectionId;
      ApplyAccounts(View(), Event.Stop);
      if !isRunning {
        return false;
      }
      if server.Some? {
        server := None;
      }
      connections := map[];
      isRunning := false;
      return true;
    }

    method OnConnect(nanos: int, address: string)
      requires Valid()
      modifies this
      ensures Valid() && View() == Apply(old(View()), Event.OnConnect(nanos, address))
    {
      hide Counts, ConnectionId;
      ApplyAccounts(View(), Event.OnConnect(nanos, address));
      var connectionID := ConnectionId("sio_", nanos, address);
      connections := connections[connectionID := |created|];
      created := created + [Connection(nanos, address, 0)];
    }

    method OnDisconnect(connectionID: string)
      requires Valid()
      modifies this
      ensures Valid() && View() == Apply(old(View()), Event.OnDisconnect(connectionID))
    {
      hide Counts, ConnectionId;
      ApplyAccounts(View(), Event.OnDisconnect(connectionID));
      connections := connections - {connectionID};
    }

    /** Both event callbacks, device_data and message. */
    method OnEvent(connectionID: string)
      requires Valid()
      modifies this
      ensures Valid() && View() == Apply(old(View()), Event.OnEvent(connectionID))
    {
      hide Counts, ConnectionId;
      ApplyAccounts(View(), Event.OnEvent(connectionID));
      if connectionID in connections {
        var k := connections[connectionID];
        created := created[k := created[k].(messageCount := created[k].messageCount + 1)];
      } else {
        strays := strays + 1;
      }
      messageCount := messageCount + 1;
    }
  }

  // ---------------------------------------------------------------- whole runs

  /** The state after any events in any order. */
  function After(events: seq<Event>): State {
    if events == [] then INITIAL else Apply(After(events[..|events| - 1]), events[|events| - 1])
  }

  function Counts(created: seq<Connection>): nat {
    if created == [] then 0 else Counts(created[..|created| - 1]) + created[|created| - 1].messageCount
  }

  lemma {:induction false} CountsUpdate(created: seq<Connection>, k: nat, c: Connection)
    requires k < |created|
    ensures Counts(created[k := c]) == Counts(created) - created[k].messageCount + c.messageCount
  {
    var n := |created| - 1;
    if k < n {
      CountsUpdate(created[..n], k, c);
      assert created[k := c][..n] == created[..n][k := c];
    } else {
      assert created[k := c][..n] == created[..n];
    }
  }

  lemma ApplyAccounts(s: State, e: Event)
    requires Accounts(s)
    ensures Accounts(Apply(s, e))
  {
    hide ConnectionId;
    match e
    case OnConnect(t, a) =>
      var more := s.created + [Connection(t, a, 0)];
      assert more[..|s.created|] == s.created;
    case OnEvent(id) =>
      if id in s.connections {
        var k := s.connections[id];
        CountsUpdate(s.created, k, s.created[k].(messageCount := s.created[k].messageCount + 1));
      }
    case _ =>
  }

  /** Across any number of starts and stops: the handler runs exactly while it has a server, and
      its count is that of all connections ever created, those a stop discarded among them, plus
      the events that found no connection. */
  lemma {:induction false} RunsAccount(events: seq<Event>)
    ensures Accounts(After(events))
  {
    if events != [] {
      hide Apply, Accounts;
      RunsAccount(events[..|events| - 1]);
      ApplyAccounts(After(events[..|events| - 1]), events[|events| - 1]);
    } else {
      assert Counts([]) == 0;
    }
  }

  /** How many of the events are messages. */
  function Messages(events: seq<Event>): nat {
    if events == [] then 0
    else Messages(events[..|events| - 1]) + if events[|events| - 1].OnEvent? then 1 else 0
  }

  function Connects(events: seq<Event>): nat {
    if events == [] then 0
    else Connects(events[..|events| - 1]) + if events[|events| - 1].OnConnect? then 1 else 0
  }

  lemma ApplyCounts(s: State, e: Event)
    ensures Apply(s, e).messageCount == s.messageCount + if e.OnEvent? then 1 else 0
    ensures |Apply(s, e).created| == |s.created| + if e.OnConnect? then 1 else 0
  {
    hide ConnectionId;
  }

  /** No message and no connection is lost from the books or entered twice. */
  lemma {:induction false} EverythingCounted(events: seq<Event>)
    ensures After(events).messageCount == Messages(events)
    ensures Counts(After(events).created) + After(events).strays == Messages(events)
    ensures |After(events).created| == Connects(events)
  {
    assert Counts(After(events).created) + After(events).strays == After(events).messageCount by {
      RunsAccount(events);
    }
    hide Counts;
    if events != [] {
      hide Apply, After, Messages, Connects;
      EverythingCounted(events[..|events| - 1]);
      ApplyCounts(After(events[..|events| - 1]), events[|events| - 1]);
      LastEvent(events);
    }
  }

  lemma LastEvent(events: seq<Event>)
    requires events != []
    ensures var before, e := events[..|events| - 1], events[|events| - 1];
            && After(events) == Apply(After(before), e)
            && Messages(events) == Messages(before) + (if e.OnEvent? then 1 else 0)
            && Connects(events) == Connects(before) + (if e.OnConnect? then 1 else 0)
  {
  }

  // ---------------------------------------------------------------- entries belong to their connection

  predicate DistinctPairs(created: seq<Connection>) {
    forall i, j :: 0 <= i < j < |created| ==>
      created[i].nanos != created[j].nanos || created[i].address != created[j].address
  }

  predicate IsTracked(s: State, k: nat) {
    k < |s.created| && s.created[k].Id() in s.connections && s.connections[s.created[k].Id()] == k
  }

  lemma IdsDistinct(created: seq<Connection>, i: nat, j: nat)
    requires DistinctPairs(created) && i < |created| && j < |created| && created[i].Id() == created[j].Id()
    ensures i == j
  {
    hide ConnectionId;
    IdInjective("sio_", created[i].nanos, created[i].address, created[j].nanos, created[j].address);
  }

  /** If no two connections share time and address, then in every run, across restarts, only
      its own disconnect or a stop takes a connection out of the map. */
  lemma EntriesAreOwn(events: seq<Event>, e: Event, k: nat)
    requires k < |After(events).created| && DistinctPairs(Apply(After(events), e).created)
    ensures var s, s' := After(events), Apply(After(events), e);
            && s'.created[k].Id() == s.created[k].Id()
            && (IsTracked(s', k) <==>
                  IsTracked(s, k) && e != OnDisconnect(s.created[k].Id()) && !(e.Stop? && s.isRunning))
  {
    hide ConnectionId, DistinctPairs;
    var s, s' := After(events), Apply(After(events), e);
    RunsAccount(events);
    assert |s.created| <= |s'.created| && s'.created[k].Id() == s.created[k].Id();
    if e.OnConnect? {
      var n := |s.created|;
      assert s'.created[n].Id() == ConnectionId("sio_", e.nanos, e.address);
      if s'.created[n].Id() == s'.created[k].Id() {
        IdsDistinct(s'.created, k, n);
      }
    }
  }

  // ---------------------------------------------------------------- what becomes of one connection

  /** Event `i` makes connection number `Connects(events[..i])`, with the time and address it gives. */
  lemma {:induction false} ConnectionMade(events: seq<Event>, i: nat)
    requires i < |events| && events[i].OnConnect?
    ensures var created, k := After(events).created, Connects(events[..i]);
            k < |created| && created[k].nanos == events[i].nanos && created[k].address == events[i].address
  {
    var n := |events| - 1;
    var before := events[..n];
    LastEvent(events);
    if i == n {
      EverythingCounted(before);
      hide After, ConnectionId;
    } else {
      assert before[i] == events[i] && before[..i] == events[..i];
      ConnectionMade(before, i);
      hide ConnectionId, After, Connects;
      ApplyKeepsPairs(After(before), events[n]);
    }
  }

  lemma ApplyKeepsPairs(s: State, e: Event)
    ensures |s.created| <= |Apply(s, e).created|
    ensures forall k :: 0 <= k < |s.created| ==>
              Apply(s, e).created[k].nanos == s.created[k].nanos
              && Apply(s, e).created[k].address == s.created[k].address
    ensures DistinctPairs(Apply(s, e).created) ==> DistinctPairs(s.created)
  {
    hide ConnectionId;
  }

  /** An event for connection `k` while the map leads to it. */
  predicate Reaches(s: State, e: Event, k: nat) {
    IsTracked(s, k) && e == OnEvent(s.created[k].Id())
  }

  /** How many of the events reach connection `k`. */
  function MessagesOn(events: seq<Event>, k: nat): nat {
    if events == [] then 0 else
      var before := events[..|events| - 1];
      MessagesOn(before, k) + if Reaches(After(before), events[|events| - 1], k) then 1 else 0
  }

  function CountOn(s: State, k: nat): nat {
    if k < |s.created| then s.created[k].messageCount else 0
  }

  lemma ApplyCountsOn(s: State, e: Event, k: nat)
    requires Tracks(s)
    ensures CountOn(Apply(s, e), k) == CountOn(s, k) + if Reaches(s, e, k) then 1 else 0
  {
    hide ConnectionId;
  }

  /** Every connection has counted exactly the events that came for it while it was tracked. */
  lemma {:induction false} EachCountsItsOwn(events: seq<Event>, k: nat)
    ensures CountOn(After(events), k) == MessagesOn(events, k)
  {
    if events != [] {
      var before := events[..|events| - 1];
      RunsAccount(before);
      LastEvent(events);
      hide Apply, CountOn, After, Reaches, Counts, Tracks;
      EachCountsItsOwn(before, k);
      assert Tracks(After(before));
      ApplyCountsOn(After(before), events[|events| - 1], k);
    } else {
      assert After(events) == INITIAL;
    }
  }

  /** The connect callback files the connection it makes. */
  lemma ConnectTracks(s: State, nanos: int, address: string)
    ensures var s' := Apply(s, OnConnect(nanos, address));
            && |s'.created| == |s.created| + 1 && IsTracked(s', |s.created|)
            && s'.connections[ConnectionId("sio_", nanos, address)] == |s.created|
  {
    hide ConnectionId;
  }

  /** Event `j` takes the connection with this identifier out of the map. */
  predicate Untracks(events: seq<Event>, j: nat, id: string) {
    j < |events| && (events[j] == OnDisconnect(id) || (events[j].Stop? && After(events[..j]).isRunning))
  }

  /** Nothing after event `i` takes the connection with this identifier out of the map. */
  predicate Kept(events: seq<Event>, i: nat, id: string) {
    forall j :: i < j < |events| ==> !Untracks(events, j, id)
  }

  lemma KeptOrEnds(events: seq<Event>, i: nat, id: string)
    requires i < |events| - 1
    ensures Kept(events, i, id)
            <==> Kept(events[..|events| - 1], i, id) && !Untracks(events, |events| - 1, id)
  {
    hide Untracks;
    var n := |events| - 1;
    var before := events[..n];
    forall j: nat | i < j < n ensures Untracks(events, j, id) <==> Untracks(before, j, id) {
      UntracksBefore(events, j, id);
    }
    if Kept(before, i, id) && !Untracks(events, n, id) {
      forall j | i < j < |events| ensures !Untracks(events, j, id) {
        assert j < n ==> !Untracks(before, j, id);
      }
    }
    if Kept(events, i, id) {
      forall j | i < j < |before| ensures !Untracks(before, j, id) {
        assert !Untracks(events, j, id);
      }
    }
  }

  lemma TrackedOrEnds(events: seq<Event>, k: nat, id: string)
    requires events != [] && DistinctPairs(After(events).created)
    requires var s := After(events[..|events| - 1]); k < |s.created| && s.created[k].Id() == id
    ensures IsTracked(After(events), k)
            <==> IsTracked(After(events[..|events| - 1]), k) && !Untracks(events, |events| - 1, id)
  {
    var n := |events| - 1;
    LastEvent(events);
    UntracksLast(events, id);
    hide After, Apply, ConnectionId, DistinctPairs, IsTracked, Connection.Id, Connects, Messages;
    EntriesAreOwn(events[..n], events[n], k);
  }

  /** With distinct pairs of time and address, over whole runs: a connection is in the map from
      its connect to its disconnect or to the next stop of a running handler. */
  lemma {:induction false} TrackedExactly(events: seq<Event>, i: nat)
    requires i < |events| && events[i].OnConnect? && DistinctPairs(After(events).created)
    ensures IsTracked(After(events), Connects(events[..i]))
            <==> Kept(events, i, ConnectionId("sio_", events[i].nanos, events[i].address))
  {
    hide *;
    var id := ConnectionId("sio_", events[i].nanos, events[i].address);
    if i == |events| - 1 {
      TrackedAtFirst(events, id);
    } else {
      var before := events[..|events| - 1];
      PrefixFacts(events, i);
      TrackedExactly(before, i);
      KeptOrEnds(events, i, id);
      TrackedOrEnds(events, Connects(events[..i]), id);
    }
  }

  /** What holds of the run one event earlier. */
  lemma PrefixFacts(events: seq<Event>, i: nat)
    requires i < |events| - 1 && events[i].OnConnect? && DistinctPairs(After(events).created)
    ensures var before, k := events[..|events| - 1], Connects(events[..i]);
            && before[i] == events[i] && before[..i] == events[..i]
            && DistinctPairs(After(before).created) && k < |After(before).created|
            && After(before).created[k].Id() == ConnectionId("sio_", events[i].nanos, events[i].address)
  {
    hide *;
    var before := events[..|events| - 1];
    assert before[i] == events[i] && before[..i] == events[..i];
    LastEvent(events);
    ApplyKeepsPairs(After(before), events[|events| - 1]);
    ConnectionMade(before, i);
    IdOf(After(before).created[Connects(events[..i])]);
  }

  lemma TrackedAtFirst(events: seq<Event>, id: string)
    requires events != [] && events[|events| - 1].OnConnect?
    ensures IsTracked(After(events), Connects(events[..|events| - 1]))
    ensures Kept(events, |events| - 1, id)
  {
    var e := events[|events| - 1];
    LastEvent(events);
    EverythingCounted(events[..|events| - 1]);
    hide *;
    ConnectTracks(After(events[..|events| - 1]), e.nanos, e.address);
  }

  lemma IdOf(c: Connection)
    ensures c.Id() == ConnectionId("sio_", c.nanos, c.address)
  {
  }

  lemma UntracksBefore(events: seq<Event>, j: nat, id: string)
    requires j < |events| - 1
    ensures Untracks(events, j, id) <==> Untracks(events[..|events| - 1], j, id)
  {
    hide After;
    assert events[..|events| - 1][..j] == events[..j];
  }

  lemma UntracksLast(events: seq<Event>, id: string)
    requires events != []
    ensures var n := |events| - 1;
            Untracks(events, n, id)
            <==> events[n] == OnDisconnect(id) || (events[n].Stop? && After(events[..n]).isRunning)
  {
  }

  /** A start that no stop came after. */
  predicate StartStands(events: seq<Event>, i: nat) {
    i < |events| && events[i].Start? && forall j :: i < j < |events| ==> !events[j].Stop?
  }

  lemma StandsOrEnds(events: seq<Event>)
    requires events != []
    ensures var n := |events| - 1;
            (exists i: nat :: StartStands(events, i))
            <==> events[n].Start? || (!events[n].Stop? && exists i: nat :: StartStands(events[..n], i))
  {
    var n := |events| - 1;
    if events[n].Start? {
      assert StartStands(events, n);
    } else if !events[n].Stop? {
      forall i: nat ensures StartStands(events, i) <==> StartStands(events[..n], i) {
      }
    }
  }

  lemma ApplyRunning(s: State, e: Event)
    ensures Apply(s, e).isRunning <==> e.Start? || (s.isRunning && !e.Stop?)
  {
    hide ConnectionId;
  }

  /** The handler runs, and has a server, exactly if it has been started and not stopped since. */
  lemma {:induction false} RunningExactly(events: seq<Event>)
    ensures After(events).isRunning <==> exists i: nat :: StartStands(events, i)
    ensures After(events).server.Some? <==> After(events).isRunning
  {
    assert After(events).server.Some? <==> After(events).isRunning by { RunsAccount(events); }
    if events != [] {
      var before, e := events[..|events| - 1], events[|events| - 1];
      LastEvent(events);
      hide *;
      RunningExactly(before);
      ApplyRunning(After(before), e);
      StandsOrEnds(events);
    }
  }
}
