/** Connection tracking and message counting of the WebSocket handler, as a system of steps.

    Every connection has a goroutine that is first Handle and then handleConnection; any number
    of goroutines may be in CloseConnection or BroadcastMessage. Locking, unlocking, the map
    operations, the unlocked increment of a connection's counter and the load and the store of
    the handler's counter are separate steps, and any goroutine may take the next one. */
module WebSocketTracking {
  import opened Options
  import opened ConnectionIds

  /** Where a connection's goroutine stands. It holds the mutex in InsertLocked, InsertDone,
      CountLocked, Loaded, Stored, DeleteLocked and DeleteDone. */
  datatype Pc =
    | Upgraded | InsertLocked | InsertDone
    | Reading
    | Received                                                // ReadMessage gave a message
    | Counted                                                 // conn.MessageCount++ is done
    | CountLocked | Loaded(v: int) | Stored                   // h.messageCount++ under the mutex
    | Processing
    | Leaving | DeleteLocked | DeleteDone                     // the deferred cleanup
    | Ended
  {
    predicate Holds() {
      InsertLocked? || InsertDone? || CountLocked? || Loaded? || Stored? || DeleteLocked? || DeleteDone?
    }

    /** Between the two increments for one message. */
    predicate InFlight() { Counted? || CountLocked? || Loaded? }

    /** Between insertion into the map and the deferred deletion. */
    predicate Live() { !Upgraded? && !InsertLocked? && !DeleteDone? && !Ended? }
  }

  datatype Conn = Conn(nanos: int, address: string, messageCount: nat, closed: bool, pc: Pc)
  {
    function Id(): string { ConnectionId("ws_", nanos, address) }
  }

  /** A goroutine in CloseConnection; it holds the mutex in CLocked and CDone. */
  datatype Closer = CWaiting(id: string) | CLocked(id: string) | CDone(found: bool) | CReturned(found: bool)
  {
    predicate Holds() { CLocked? || CDone? }
  }

  /** A goroutine in BroadcastMessage; it holds the mutex for reading in BCollecting and BCollected. */
  datatype Caster = BWaiting | BCollecting(rest: set<string>, got: seq<nat>) | BCollected(got: seq<nat>)
                  | BSending(got: seq<nat>)
  {
    predicate Holds() { BCollecting? || BCollected? }
  }

  datatype Owner = ByConn(k: nat) | ByCloser(j: nat)

  datatype State = State(
    conns: seq<Conn>,             // every connection ever accepted, in order
    connections: map<string, nat>,  // the handler's map: identifier to connection
    messageCount: int,
    writer: Option<Owner>, readers: set<nat>,   // who holds the mutex
    closers: seq<Closer>, casters: seq<Caster>)
  {
    predicate Free() { writer == None && readers == {} }

    function Goto(k: nat, pc: Pc): State
      requires k < |conns|
    {
      this.(conns := conns[k := conns[k].(pc := pc)])
    }
  }

  predicate Init(s: State) { s == State([], map[], 0, None, {}, [], []) }

  // ---------------------------------------------------------------- steps

  /** Handle: file the connection under its identifier. */
  predicate HandleStep(s: State, k: nat, c: Conn, s': State)
    requires k < |s.conns|
  {
    match c.pc
    case Upgraded => s.Free() && s' == s.Goto(k, InsertLocked).(writer := Some(ByConn(k)))
    case InsertLocked => s' == s.Goto(k, InsertDone).(connections := s.connections[c.Id() := k])
    case InsertDone => s' == s.Goto(k, Reading).(writer := None)
    case _ => false
  }

  /** The read loop of handleConnection. */
  predicate ReadStep(s: State, k: nat, c: Conn, s': State)
    requires k < |s.conns|
  {
    match c.pc
    case Reading => s' == s || s' == s.Goto(k, Received) || s' == s.Goto(k, Leaving)
    case Received => s' == s.(conns := s.conns[k := c.(messageCount := c.messageCount + 1, pc := Counted)])
    case Counted => s.Free() && s' == s.Goto(k, CountLocked).(writer := Some(ByConn(k)))
    case CountLocked => s' == s.Goto(k, Loaded(s.messageCount))
    case Loaded(v) => s' == s.Goto(k, Stored).(messageCount := v + 1)
    case Stored => s' == s.Goto(k, Processing).(writer := None)
    case Processing => s' == s.Goto(k, Reading)
    case _ => false
  }

  /** The deferred cleanup of handleConnection. */
  predicate CleanupStep(s: State, k: nat, c: Conn, s': State)
    requires k < |s.conns|
  {
    match c.pc
    case Leaving => s.Free() && s' == s.Goto(k, DeleteLocked).(writer := Some(ByConn(k)))
    case DeleteLocked => s' == s.Goto(k, DeleteDone).(connections := s.connections - {c.Id()})
    case DeleteDone => s' == s.Goto(k, Ended).(writer := None)
    case _ => false
  }

  predicate ConnStep(s: State, k: nat, s': State) {
    k < |s.conns| &&
    var c := s.conns[k];
    HandleStep(s, k, c, s') || ReadStep(s, k, c, s') || CleanupStep(s, k, c, s')
  }

  predicate CloserStep(s: State, j: nat, s': State) {
    j < |s.closers| &&
    match s.closers[j]
    case CWaiting(id) =>
      s.Free() && s' == s.(writer := Some(ByCloser(j)), closers := s.closers[j := CLocked(id)])
    case CLocked(id) =>
      if id in s.connections && s.connections[id] < |s.conns| then
        var k := s.connections[id];
        s' == s.(conns := s.conns[k := s.conns[k].(closed := true)], connections := s.connections - {id},
                 closers := s.closers[j := CDone(true)])
      else s' == s.(closers := s.closers[j := CDone(false)])
    case CDone(found) => s' == s.(writer := None, closers := s.closers[j := CReturned(found)])
    case CReturned(_) => false
  }

  predicate CasterStep(s: State, b: nat, s': State) {
    b < |s.casters| &&
    match s.casters[b]
    case BWaiting =>
      s.writer == None
      && s' == s.(readers := s.readers + {b}, casters := s.casters[b := BCollecting(s.connections.Keys, [])])
    case BCollecting(rest, got) =>
      if rest == {} then s' == s.(casters := s.casters[b := BCollected(got)])
      else exists id :: id in rest && id in s.connections
             && s' == s.(casters := s.casters[b := BCollecting(rest - {id}, got + [s.connections[id]])])
    case BCollected(got) => s' == s.(readers := s.readers - {b}, casters := s.casters[b := BSending(got)])
    case BSending(_) => false
  }

  datatype Move = Accept(nanos: int, address: string) | OfConn(k: nat) | CallClose(id: string) | OfCloser(j: nat)
                | CallBroadcast | OfCaster(b: nat)

  predicate Step(s: State, m: Move, s': State) {
    match m
    case Accept(t, a) => s' == s.(conns := s.conns + [Conn(t, a, 0, false, Upgraded)])
    case OfConn(k) => ConnStep(s, k, s')
    case CallClose(id) => s' == s.(closers := s.closers + [CWaiting(id)])
    case OfCloser(j) => CloserStep(s, j, s')
    case CallBroadcast => s' == s.(casters := s.casters + [BWaiting])
    case OfCaster(b) => CasterStep(s, b, s')
  }

  predicate Run(states: seq<State>, moves: seq<Move>) {
    && |states| == |moves| + 1 && Init(states[0])
    && forall i :: 0 <= i < |moves| ==> Step(states[i], moves[i], states[i + 1])
  }

  // ---------------------------------------------------------------- the mutex

  predicate Locks(s: State) {
    && (forall k :: 0 <= k < |s.conns| ==> (s.conns[k].pc.Holds() <==> s.writer == Some(ByConn(k))))
    && (forall j :: 0 <= j < |s.closers| ==> (s.closers[j].Holds() <==> s.writer == Some(ByCloser(j))))
    && (forall b :: 0 <= b < |s.casters| ==> (s.casters[b].Holds() <==> b in s.readers))
    && (s.writer.Some? ==> s.readers == {})
    && (s.writer.Some? ==>
          if s.writer.value.ByConn? then s.writer.value.k < |s.conns| else s.writer.value.j < |s.closers|)
    && (forall b :: b in s.readers ==> b < |s.casters|)
  }

  /** What any step of a connection's goroutine leaves alone. */
  predicate ConnFrame(s: State, k: nat, s': State) {
    && k < |s.conns| && |s'.conns| == |s.conns| && s'.conns == s.conns[k := s'.conns[k]]
    && s'.closers == s.closers && s'.casters == s.casters && s'.readers == s.readers
    && s'.conns[k].nanos == s.conns[k].nanos && s'.conns[k].address == s.conns[k].address
    && s'.conns[k].closed == s.conns[k].closed
  }

  /** How it uses the mutex. */
  predicate ConnMutex(s: State, k: nat, s': State)
    requires k < |s.conns| && k < |s'.conns|
  {
    if s.conns[k].pc.Holds() == s'.conns[k].pc.Holds() then s'.writer == s.writer
    else if s'.conns[k].pc.Holds() then s.Free() && s'.writer == Some(ByConn(k))
    else s'.writer == None
  }

  predicate ConnShape(s: State, k: nat, s': State) {
    ConnFrame(s, k, s') && ConnMutex(s, k, s')
  }

  lemma ConnStepFrame(s: State, k: nat, s': State)
    requires ConnStep(s, k, s')
    ensures ConnFrame(s, k, s')
  {
    hide ConnectionId, State.Free, Pc.Holds;
    if HandleStep(s, k, s.conns[k], s') {
      hide ReadStep, CleanupStep;
    } else if CleanupStep(s, k, s.conns[k], s') {
      hide ReadStep, HandleStep;
    } else {
      hide HandleStep, CleanupStep;
    }
  }

  lemma ConnStepMutex(s: State, k: nat, s': State)
    requires ConnStep(s, k, s') && k < |s'.conns|
    ensures ConnMutex(s, k, s')
  {
    hide ConnectionId;
    if HandleStep(s, k, s.conns[k], s') {
      hide ReadStep, CleanupStep;
    } else if CleanupStep(s, k, s.conns[k], s') {
      hide ReadStep, HandleStep;
    } else {
      hide HandleStep, CleanupStep;
    }
  }

  lemma ConnStepShape(s: State, k: nat, s': State)
    requires ConnStep(s, k, s')
    ensures ConnShape(s, k, s')
  {
    hide ConnStep, ConnMutex;
    ConnStepFrame(s, k, s');
    ConnStepMutex(s, k, s');
  }

  /** How a step of a connection's goroutine treats the map: insertion, deletion, or not at all. */
  predicate ConnMap(s: State, k: nat, s': State)
    requires k < |s.conns| && k < |s'.conns|
  {
    var p, p' := s.conns[k].pc, s'.conns[k].pc;
    if p.InsertLocked? then !p.Live() && p'.InsertDone? && s'.connections == s.connections[s.conns[k].Id() := k]
    else if p.DeleteLocked? then p.Live() && p'.DeleteDone? && s'.connections == s.connections - {s.conns[k].Id()}
    else s'.connections == s.connections && p'.Live() == p.Live() && !p'.Upgraded?
  }

  lemma ConnStepMap(s: State, k: nat, s': State)
    requires ConnStep(s, k, s') && k < |s'.conns|
    ensures ConnMap(s, k, s')
  {
    hide ConnectionId;
    if HandleStep(s, k, s.conns[k], s') {
      hide ReadStep, CleanupStep;
    } else if CleanupStep(s, k, s.conns[k], s') {
      hide ReadStep, HandleStep;
    } else {
      hide HandleStep, CleanupStep;
    }
  }

  lemma ConnLocks(s: State, k: nat, s': State)
    requires Locks(s) && ConnShape(s, k, s')
    ensures Locks(s')
  {
    hide Pc.Holds;
    assert forall i :: 0 <= i < |s.conns| && i != k ==> s'.conns[i] == s.conns[i];
  }

  lemma CloserLocks(s: State, j: nat, s': State)
    requires Locks(s) && CloserStep(s, j, s')
    ensures Locks(s')
  {
    hide Pc.Holds;
    assert |s'.conns| == |s.conns| && forall i :: 0 <= i < |s.conns| ==> s'.conns[i].pc == s.conns[i].pc;
  }

  lemma CasterLocks(s: State, b: nat, s': State)
    requires Locks(s) && CasterStep(s, b, s')
    ensures Locks(s')
  {
    hide Pc.Holds;
  }

  lemma StepLocks(s: State, m: Move, s': State)
    requires Locks(s) && Step(s, m, s')
    ensures Locks(s')
  {
    hide ConnStep, CloserStep, CasterStep;
    match m
    case OfConn(k) => ConnStepShape(s, k, s'); ConnLocks(s, k, s');
    case OfCloser(j) => CloserLocks(s, j, s');
    case OfCaster(b) => CasterLocks(s, b, s');
    case _ =>
  }

  // ---------------------------------------------------------------- conservation of messages

  function Total(conns: seq<Conn>, f: Conn -> int): int {
    if conns == [] then 0 else Total(conns[..|conns| - 1], f) + f(conns[|conns| - 1])
  }

  function CountOf(c: Conn): int { c.messageCount }

  function InFlightOf(c: Conn): int { if c.pc.InFlight() then 1 else 0 }

  lemma {:induction false} TotalUpdate(conns: seq<Conn>, k: nat, c: Conn, f: Conn -> int)
    requires k < |conns|
    ensures Total(conns[k := c], f) == Total(conns, f) - f(conns[k]) + f(c)
  {
    var n := |conns| - 1;
    if k < n {
      TotalUpdate(conns[..n], k, c, f);
      assert conns[k := c][..n] == conns[..n][k := c];
    } else {
      assert conns[k := c][..n] == conns[..n];
    }
  }

  lemma TotalAppend(conns: seq<Conn>, c: Conn, f: Conn -> int)
    ensures Total(conns + [c], f) == Total(conns, f) + f(c)
  {
    assert (conns + [c])[..|conns|] == conns;
  }

  /** A loaded counter is still the counter, because its reader holds the mutex. */
  predicate LoadsFresh(s: State) {
    forall k :: 0 <= k < |s.conns| && s.conns[k].pc.Loaded? ==> s.conns[k].pc.v == s.messageCount
  }

  /** All messages are counted by the handler, but for those between the two increments. */
  predicate Conserved(s: State) {
    Total(s.conns, CountOf) == s.messageCount + Total(s.conns, InFlightOf)
  }

  lemma ConnConserves(s: State, k: nat, s': State)
    requires LoadsFresh(s) && ConnStep(s, k, s') && ConnShape(s, k, s')
    ensures s'.conns[k].messageCount - s.conns[k].messageCount
            == s'.messageCount - s.messageCount + InFlightOf(s'.conns[k]) - InFlightOf(s.conns[k])
    ensures s'.messageCount == s.messageCount || s.conns[k].pc.Holds()
    ensures s'.conns[k].pc.Loaded? ==> s'.conns[k].pc.v == s'.messageCount
  {
    hide ConnectionId;
    if HandleStep(s, k, s.conns[k], s') {
      hide ReadStep, CleanupStep;
    } else if CleanupStep(s, k, s.conns[k], s') {
      hide ReadStep, HandleStep;
    } else {
      hide HandleStep, CleanupStep;
    }
  }

  lemma StepConserves(s: State, m: Move, s': State)
    requires Locks(s) && LoadsFresh(s) && Conserved(s) && Step(s, m, s')
    ensures LoadsFresh(s') && Conserved(s')
  {
    hide Total, ConnStep, CasterStep;
    match m
    case Accept(t, a) =>
      TotalAppend(s.conns, Conn(t, a, 0, false, Upgraded), CountOf);
      TotalAppend(s.conns, Conn(t, a, 0, false, Upgraded), InFlightOf);
    case OfConn(k) =>
      ConnStepShape(s, k, s');
      ConnConserves(s, k, s');
      TotalUpdate(s.conns, k, s'.conns[k], CountOf);
      TotalUpdate(s.conns, k, s'.conns[k], InFlightOf);
    case OfCloser(j) =>
      if s'.conns != s.conns {
        var k := s.connections[s.closers[j].id];
        TotalUpdate(s.conns, k, s'.conns[k], CountOf);
        TotalUpdate(s.conns, k, s'.conns[k], InFlightOf);
      }
    case OfCaster(b) => CasterKeeps(s, b, s');
    case _ =>
  }

  lemma CasterKeeps(s: State, b: nat, s': State)
    requires CasterStep(s, b, s')
    ensures s'.conns == s.conns && s'.connections == s.connections && s'.messageCount == s.messageCount
    ensures s'.writer == s.writer && s'.closers == s.closers
  {
  }

  // ---------------------------------------------------------------- the map of connections

  /** Every entry leads to a live connection that was filed under that identifier. */
  predicate Tracks(s: State) {
    forall id :: id in s.connections ==>
      s.connections[id] < |s.conns|
      && s.conns[s.connections[id]].Id() == id && s.conns[s.connections[id]].pc.Live()
  }

  lemma StepTracks(s: State, m: Move, s': State)
    requires Tracks(s) && Step(s, m, s')
    ensures Tracks(s')
  {
    hide ConnectionId, ConnStep, CasterStep, Pc.Live, Pc.Holds;
    match m
    case OfConn(k) =>
      ConnStepShape(s, k, s');
      ConnStepMap(s, k, s');
      assert s'.conns[k].Id() == s.conns[k].Id();
      assert s'.conns[k].pc.InsertDone? ==> s'.conns[k].pc.Live() by { InsertedIsLive(); }
    case OfCaster(b) => CasterKeeps(s, b, s');
    case _ =>
  }

  lemma InsertedIsLive()
    ensures InsertDone.Live() && !DeleteDone.Live() && !InsertLocked.Live() && DeleteLocked.Live() && !Upgraded.Live()
  {
  }

  predicate DistinctPairs(s: State) {
    forall i, j :: 0 <= i < j < |s.conns| ==>
      s.conns[i].nanos != s.conns[j].nanos || s.conns[i].address != s.conns[j].address
  }

  predicate IsTracked(s: State, k: nat) {
    k < |s.conns| && s.conns[k].Id() in s.connections && s.connections[s.conns[k].Id()] == k
  }

  /** With distinct pairs of time and address: tracked means live and not closed by hand. */
  predicate Precise(s: State) {
    forall k :: 0 <= k < |s.conns| ==> (IsTracked(s, k) <==> s.conns[k].pc.Live() && !s.conns[k].closed)
  }

  lemma IdsDistinct(s: State, i: nat, j: nat)
    requires DistinctPairs(s) && i < |s.conns| && j < |s.conns| && s.conns[i].Id() == s.conns[j].Id()
    ensures i == j
  {
    hide ConnectionId;
    IdInjective("ws_", s.conns[i].nanos, s.conns[i].address, s.conns[j].nanos, s.conns[j].address);
  }

  lemma PairsOnlyGrow(s: State, m: Move, s': State)
    requires Step(s, m, s')
    ensures |s.conns| <= |s'.conns|
    ensures forall i :: 0 <= i < |s.conns| ==>
              s'.conns[i].nanos == s.conns[i].nanos && s'.conns[i].address == s.conns[i].address
    ensures DistinctPairs(s') ==> DistinctPairs(s)
  {
    hide ConnectionId, ConnStep, CasterStep;
    match m
    case OfConn(k) => ConnStepShape(s, k, s');
    case OfCaster(b) => CasterKeeps(s, b, s');
    case _ =>
  }

  /** Only connections that were in the map get closed by hand. */
  predicate ClosedWereLive(s: State) {
    forall k :: 0 <= k < |s.conns| && s.conns[k].closed ==> !s.conns[k].pc.Upgraded? && !s.conns[k].pc.InsertLocked?
  }

  lemma ConnPrecise(s: State, k: nat, s': State)
    requires Tracks(s) && Precise(s) && ClosedWereLive(s) && ConnShape(s, k, s') && ConnMap(s, k, s')
    requires forall i, j :: 0 <= i < |s.conns| && 0 <= j < |s.conns| && s.conns[i].Id() == s.conns[j].Id() ==> i == j
    requires s.conns[k].pc.Upgraded? ==> s'.conns[k].pc.InsertLocked?
    requires s'.conns[k].pc.InsertLocked? ==> s.conns[k].pc.Upgraded?
    ensures Precise(s') && ClosedWereLive(s')
  {
    hide ConnectionId, Pc.Holds, Pc.Live;
    InsertedIsLive();
    forall i | 0 <= i < |s.conns| ensures s'.conns[i].Id() == s.conns[i].Id() {
    }
  }

  lemma ConnStepEntry(s: State, k: nat, s': State)
    requires ConnStep(s, k, s') && k < |s'.conns|
    ensures s.conns[k].pc.Upgraded? <==> s'.conns[k].pc.InsertLocked?
  {
    hide ConnectionId;
    if HandleStep(s, k, s.conns[k], s') {
      hide ReadStep, CleanupStep;
    } else if CleanupStep(s, k, s.conns[k], s') {
      hide ReadStep, HandleStep;
    } else {
      hide HandleStep, CleanupStep;
    }
  }

  lemma CloserPrecise(s: State, j: nat, s': State)
    requires Tracks(s) && Precise(s) && ClosedWereLive(s) && CloserStep(s, j, s')
    requires forall i, j :: 0 <= i < |s.conns| && 0 <= j < |s.conns| && s.conns[i].Id() == s.conns[j].Id() ==> i == j
    ensures Precise(s') && ClosedWereLive(s')
  {
    hide ConnectionId;
    forall i | 0 <= i < |s.conns| ensures s'.conns[i].Id() == s.conns[i].Id() && s'.conns[i].pc == s.conns[i].pc {
    }
  }

  lemma StepPrecise(s: State, m: Move, s': State)
    requires Tracks(s) && Precise(s) && ClosedWereLive(s) && Step(s, m, s') && DistinctPairs(s')
    ensures Precise(s') && ClosedWereLive(s')
  {
    hide ConnectionId, DistinctPairs, ConnStep, CloserStep, CasterStep, Tracks, Pc.Live, Pc.Holds;
    PairsOnlyGrow(s, m, s');
    forall i, j | 0 <= i < |s.conns| && 0 <= j < |s.conns| && s.conns[i].Id() == s.conns[j].Id() ensures i == j {
      IdsDistinct(s, i, j);
    }
    match m
    case Accept(t, a) => AcceptPrecise(s, t, a, s');
    case OfConn(k) =>
      ConnStepShape(s, k, s');
      ConnStepMap(s, k, s');
      ConnStepEntry(s, k, s');
      ConnPrecise(s, k, s');
    case OfCloser(j) => CloserPrecise(s, j, s');
    case OfCaster(b) => CasterKeeps(s, b, s');
    case _ =>
  }

  lemma AcceptPrecise(s: State, t: int, a: string, s': State)
    requires Tracks(s) && Precise(s) && ClosedWereLive(s) && Step(s, Accept(t, a), s') && DistinctPairs(s')
    ensures Precise(s') && ClosedWereLive(s')
  {
    hide ConnectionId, DistinctPairs;
    forall i | 0 <= i < |s.conns| ensures s'.conns[i] == s.conns[i] {
    }
  }

  // ---------------------------------------------------------------- broadcasts

  /** A snapshot in the making holds each connection of the map once, but for those still to come. */
  ghost predicate Snapshots(s: State) {
    forall b :: 0 <= b < |s.casters| ==>
      match s.casters[b]
      case BCollecting(rest, got) => rest <= s.connections.Keys && Lists(s, rest, got)
      case BCollected(got) => Lists(s, {}, got)
      case _ => true
  }

  predicate FiledAs(s: State, rest: set<string>, id: string, k: nat) {
    id in s.connections && id !in rest && s.connections[id] == k
  }

  ghost predicate Filed(s: State, rest: set<string>, k: nat) {
    exists id :: FiledAs(s, rest, id, k)
  }

  ghost predicate Lists(s: State, rest: set<string>, got: seq<nat>) {
    && (forall i, j :: 0 <= i < j < |got| ==> got[i] != got[j])
    && (forall i :: 0 <= i < |got| ==> Filed(s, rest, got[i]))
    && (forall id :: id in s.connections && id !in rest ==> s.connections[id] in got)
  }

  lemma CasterSnapshots(s: State, b: nat, s': State)
    requires Tracks(s) && Snapshots(s) && CasterStep(s, b, s')
    ensures Snapshots(s')
  {
    hide ConnectionId, Pc.Live;
    CasterKeeps(s, b, s');
    assert |s'.casters| == |s.casters| && forall i :: 0 <= i < |s.casters| && i != b ==> s'.casters[i] == s.casters[i];
    match s.casters[b] {
    case BCollecting(rest, got) =>
      assert Lists(s, rest, got);
      if rest != {} {
        var id :| id in rest && id in s.connections
                  && s' == s.(casters := s.casters[b := BCollecting(rest - {id}, got + [s.connections[id]])]);
        SnapshotGrows(s, rest, got, id);
        ListsDepends(s, s', rest - {id}, got + [s.connections[id]]);
      } else {
        ListsDepends(s, s', {}, got);
      }
    case _ =>
    }
    SnapshotsElsewhere(s, b, s');
  }

  lemma ListsDepends(s: State, s': State, rest: set<string>, got: seq<nat>)
    requires s'.connections == s.connections && Lists(s, rest, got)
    ensures Lists(s', rest, got)
  {
    forall i | 0 <= i < |got| ensures Filed(s', rest, got[i]) {
      var id :| FiledAs(s, rest, id, got[i]);
      assert FiledAs(s', rest, id, got[i]);
    }
  }

  lemma SnapshotsElsewhere(s: State, b: nat, s': State)
    requires Snapshots(s) && b < |s.casters| && s'.connections == s.connections && |s'.casters| == |s.casters|
    requires forall i :: 0 <= i < |s.casters| && i != b ==> s'.casters[i] == s.casters[i]
    ensures forall i :: 0 <= i < |s.casters| && i != b ==>
      match s'.casters[i]
      case BCollecting(rest, got) => rest <= s'.connections.Keys && Lists(s', rest, got)
      case BCollected(got) => Lists(s', {}, got)
      case _ => true
  {
    hide Lists;
    forall i | 0 <= i < |s.casters| && i != b
      ensures match s'.casters[i]
              case BCollecting(rest, got) => rest <= s'.connections.Keys && Lists(s', rest, got)
              case BCollected(got) => Lists(s', {}, got)
              case _ => true
    {
      match s.casters[i]
      case BCollecting(rest, got) => ListsDepends(s, s', rest, got);
      case BCollected(got) => ListsDepends(s, s', {}, got);
      case _ =>
    }
  }

  lemma SnapshotGrows(s: State, rest: set<string>, got: seq<nat>, id: string)
    requires Tracks(s) && Lists(s, rest, got) && id in rest && id in s.connections
    ensures Lists(s, rest - {id}, got + [s.connections[id]])
  {
    hide ConnectionId, Pc.Live;
    var more := got + [s.connections[id]];
    forall i | 0 <= i < |got| ensures got[i] != s.connections[id] {
      var other :| FiledAs(s, rest, other, got[i]);
      assert s.conns[got[i]].Id() == other;
    }
    forall i | 0 <= i < |more| ensures Filed(s, rest - {id}, more[i]) {
      if i < |got| {
        var other :| FiledAs(s, rest, other, got[i]);
        assert FiledAs(s, rest - {id}, other, more[i]);
      } else {
        assert FiledAs(s, rest - {id}, id, more[i]);
      }
    }
    forall x | x in s.connections && x !in rest - {id} ensures s.connections[x] in more {
      assert more[|got|] == s.connections[id];
    }
  }

  /** While anyone collects, the map stands still. */
  lemma MapStandsStill(s: State, m: Move, s': State)
    requires Locks(s) && Step(s, m, s') && s.readers != {}
    ensures s'.connections == s.connections
  {
    hide ConnectionId, ConnStep, CasterStep;
    match m
    case OfConn(k) =>
      ConnStepShape(s, k, s');
      ConnStepMap(s, k, s');
    case OfCaster(b) => CasterKeeps(s, b, s');
    case _ =>
  }

  lemma CastersOnlyByThemselves(s: State, m: Move, s': State)
    requires Step(s, m, s') && !m.OfCaster?
    ensures |s'.casters| >= |s.casters|
    ensures forall b :: 0 <= b < |s.casters| ==> s'.casters[b] == s.casters[b]
    ensures forall b :: |s.casters| <= b < |s'.casters| ==> s'.casters[b] == BWaiting
  {
    hide ConnStep;
    if m.OfConn? { ConnStepShape(s, m.k, s'); }
  }

  lemma StepSnapshots(s: State, m: Move, s': State)
    requires Locks(s) && Tracks(s) && Snapshots(s) && Step(s, m, s')
    ensures Snapshots(s')
  {
    if m.OfCaster? {
      hide CasterStep;
      CasterSnapshots(s, m.b, s');
    } else {
      hide Step, Lists, Tracks;
      CastersOnlyByThemselves(s, m, s');
      forall b | 0 <= b < |s'.casters|
        ensures match s'.casters[b]
                case BCollecting(rest, got) => rest <= s'.connections.Keys && Lists(s', rest, got)
                case BCollected(got) => Lists(s', {}, got)
                case _ => true
      {
        if b < |s.casters| && s.casters[b].Holds() {
          assert b in s.readers;
          MapStandsStill(s, m, s');
          match s.casters[b]
          case BCollecting(rest, got) => ListsDepends(s, s', rest, got);
          case BCollected(got) => ListsDepends(s, s', {}, got);
        }
      }
    }
  }

  // ---------------------------------------------------------------- whole runs

  ghost predicate Inv(s: State) {
    Locks(s) && LoadsFresh(s) && Conserved(s) && Tracks(s) && Snapshots(s)
  }

  lemma {:induction false} RunInv(states: seq<State>, moves: seq<Move>, n: nat)
    requires Run(states, moves) && n <= |moves|
    ensures Inv(states[n])
  {
    hide Step, Locks, LoadsFresh, Conserved, Tracks, Snapshots;
    if n == 0 {
      InitInv(states[0]);
    } else {
      RunInv(states, moves, n - 1);
      var s, m, s' := states[n - 1], moves[n - 1], states[n];
      StepLocks(s, m, s');
      StepConserves(s, m, s');
      StepTracks(s, m, s');
      StepSnapshots(s, m, s');
    }
  }

  lemma InitInv(s: State)
    requires Init(s)
    ensures Inv(s) && Precise(s) && ClosedWereLive(s)
  {
  }

  /** In every interleaving the messages counted on all connections ever accepted are those the
      handler has counted plus one for each reader between its two increments; once every
      goroutine has ended the two agree and the map is empty. */
  lemma MessagesConserved(states: seq<State>, moves: seq<Move>, n: nat)
    requires Run(states, moves) && n <= |moves|
    ensures var s := states[n];
            Total(s.conns, CountOf) == s.messageCount + Total(s.conns, InFlightOf)
    ensures var s := states[n];
            (forall k :: 0 <= k < |s.conns| ==> s.conns[k].pc.Ended?) ==>
              Total(s.conns, CountOf) == s.messageCount && s.connections == map[]
  {
    hide Step, Locks, LoadsFresh, Snapshots;
    RunInv(states, moves, n);
    var s := states[n];
    if forall k :: 0 <= k < |s.conns| ==> s.conns[k].pc.Ended? {
      NoneInFlight(s.conns);
      assert forall id :: id !in s.connections;
    }
  }

  /** Moves by which ReadMessage delivered a message, among the first `n`. */
  function Arrivals(states: seq<State>, moves: seq<Move>, n: nat): nat
    requires |states| == |moves| + 1 && n <= |moves|
  {
    if n == 0 then 0 else
      Arrivals(states, moves, n - 1) + if Delivers(states[n - 1], moves[n - 1], states[n]) then 1 else 0
  }

  predicate Delivers(s: State, m: Move, s': State) {
    m.OfConn? && m.k < |s.conns| && m.k < |s'.conns| && s.conns[m.k].pc.Reading? && s'.conns[m.k].pc.Received?
  }

  function AwaitingOf(c: Conn): int { if c.pc.Received? then 1 else 0 }

  lemma ConnArrival(s: State, k: nat, s': State)
    requires ConnStep(s, k, s') && ConnShape(s, k, s')
    ensures CountOf(s'.conns[k]) + AwaitingOf(s'.conns[k])
            == CountOf(s.conns[k]) + AwaitingOf(s.conns[k]) + if Delivers(s, OfConn(k), s') then 1 else 0
  {
    hide ConnectionId;
    if HandleStep(s, k, s.conns[k], s') {
      hide ReadStep, CleanupStep;
    } else if CleanupStep(s, k, s.conns[k], s') {
      hide ReadStep, HandleStep;
    } else {
      hide HandleStep, CleanupStep;
    }
  }

  lemma StepArrival(s: State, m: Move, s': State)
    requires Step(s, m, s')
    ensures Total(s'.conns, CountOf) + Total(s'.conns, AwaitingOf)
            == Total(s.conns, CountOf) + Total(s.conns, AwaitingOf) + if Delivers(s, m, s') then 1 else 0
  {
    hide Total, ConnStep, CasterStep;
    match m
    case Accept(t, a) =>
      TotalAppend(s.conns, Conn(t, a, 0, false, Upgraded), CountOf);
      TotalAppend(s.conns, Conn(t, a, 0, false, Upgraded), AwaitingOf);
    case OfConn(k) =>
      ConnStepShape(s, k, s');
      ConnArrival(s, k, s');
      TotalUpdate(s.conns, k, s'.conns[k], CountOf);
      TotalUpdate(s.conns, k, s'.conns[k], AwaitingOf);
    case OfCloser(j) =>
      if s'.conns != s.conns {
        var k := s.connections[s.closers[j].id];
        TotalUpdate(s.conns, k, s'.conns[k], CountOf);
        TotalUpdate(s.conns, k, s'.conns[k], AwaitingOf);
      }
    case OfCaster(b) => CasterKeeps(s, b, s');
    case _ =>
  }

  lemma {:induction false} ArrivalsCounted(states: seq<State>, moves: seq<Move>, n: nat)
    requires Run(states, moves) && n <= |moves|
    ensures Arrivals(states, moves, n) == Total(states[n].conns, CountOf) + Total(states[n].conns, AwaitingOf)
  {
    if n > 0 {
      hide Step, Total, Delivers;
      ArrivalsCounted(states, moves, n - 1);
      StepArrival(states[n - 1], moves[n - 1], states[n]);
    }
  }

  /** The handler has counted every delivered message, but for those whose readers have not got
      to the first or to the second increment. */
  lemma HandlerCountsAll(states: seq<State>, moves: seq<Move>, n: nat)
    requires Run(states, moves) && n <= |moves|
    ensures var s := states[n];
            Arrivals(states, moves, n) == s.messageCount + Total(s.conns, InFlightOf) + Total(s.conns, AwaitingOf)
  {
    hide *;
    ArrivalsCounted(states, moves, n);
    MessagesConserved(states, moves, n);
  }

  /** The messages delivered on connection `k` by the first `n` moves. */
  function ArrivalsOn(states: seq<State>, moves: seq<Move>, n: nat, k: nat): nat
    requires |states| == |moves| + 1 && n <= |moves|
  {
    if n == 0 then 0 else
      ArrivalsOn(states, moves, n - 1, k)
      + if moves[n - 1] == OfConn(k) && Delivers(states[n - 1], moves[n - 1], states[n]) then 1 else 0
  }

  /** The messages counted on connection `k`, with the one its reader is about to count. */
  function CountedOn(s: State, k: nat): int {
    if k < |s.conns| then CountOf(s.conns[k]) + AwaitingOf(s.conns[k]) else 0
  }

  lemma StepArrivalOn(s: State, m: Move, s': State, k: nat)
    requires Step(s, m, s')
    ensures CountedOn(s', k) == CountedOn(s, k) + if m == OfConn(k) && Delivers(s, m, s') then 1 else 0
  {
    hide ConnStep, CasterStep, Delivers;
    match m
    case OfConn(i) =>
      ConnStepShape(s, i, s');
      ConnArrival(s, i, s');
    case OfCaster(b) => CasterKeeps(s, b, s');
    case _ =>
  }

  /** Every message is counted once, on the connection that delivered it, but for the one whose
      reader has not got to it. */
  lemma {:induction false} EveryMessageCounted(states: seq<State>, moves: seq<Move>, n: nat, k: nat)
    requires Run(states, moves) && n <= |moves|
    ensures ArrivalsOn(states, moves, n, k) == CountedOn(states[n], k)
  {
    if n > 0 {
      hide Step, Delivers, CountedOn;
      EveryMessageCounted(states, moves, n - 1, k);
      StepArrivalOn(states[n - 1], moves[n - 1], states[n], k);
    }
  }

  lemma {:induction false} NoneInFlight(conns: seq<Conn>)
    requires forall k :: 0 <= k < |conns| ==> conns[k].pc.Ended?
    ensures Total(conns, InFlightOf) == 0
  {
    if conns != [] {
      NoneInFlight(conns[..|conns| - 1]);
    }
  }

  lemma {:induction false} RunPrecise(states: seq<State>, moves: seq<Move>, n: nat)
    requires Run(states, moves) && n <= |moves| && DistinctPairs(states[n])
    ensures Precise(states[n]) && ClosedWereLive(states[n])
  {
    hide Step, Precise, ClosedWereLive, DistinctPairs, Locks, LoadsFresh, Conserved, Snapshots, Tracks;
    if n == 0 {
      InitInv(states[0]);
    } else {
      PairsOnlyGrow(states[n - 1], moves[n - 1], states[n]);
      RunPrecise(states, moves, n - 1);
      RunInv(states, moves, n - 1);
      StepPrecise(states[n - 1], moves[n - 1], states[n]);
    }
  }

  /** If no two connections share time and address, the map holds exactly the live connections
      that were not closed by hand, and a deferred deletion takes out its own entry only. */
  lemma CleanupIsOwn(states: seq<State>, moves: seq<Move>, n: nat, k: nat)
    requires Run(states, moves) && n < |moves| && DistinctPairs(states[n])
    requires moves[n] == OfConn(k) && k < |states[n].conns| && states[n].conns[k].pc.DeleteLocked?
    ensures forall j :: 0 <= j < |states[n].conns| ==>
              (IsTracked(states[n], j) <==> states[n].conns[j].pc.Live() && !states[n].conns[j].closed)
    ensures !IsTracked(states[n + 1], k)
    ensures forall j :: 0 <= j < |states[n].conns| && j != k ==>
              (IsTracked(states[n + 1], j) <==> IsTracked(states[n], j))
  {
    hide ConnectionId, Pc.Live, DistinctPairs;
    var s, s' := states[n], states[n + 1];
    assert Step(s, moves[n], s');
    RunPrecise(states, moves, n);
    forall j | 0 <= j < |s.conns| && j != k ensures s'.conns[j] == s.conns[j] && s.conns[j].Id() != s.conns[k].Id() {
      if s.conns[j].Id() == s.conns[k].Id() { IdsDistinct(s, j, k); }
    }
  }

  /** What a broadcast is about to send to is, at the moment it gives the lock back, each
      connection of the map exactly once. */
  lemma BroadcastSnapshot(states: seq<State>, moves: seq<Move>, n: nat, b: nat)
    requires Run(states, moves) && n <= |moves|
    requires b < |states[n].casters| && states[n].casters[b].BCollected?
    ensures var s, got := states[n], states[n].casters[b].got;
            && (forall i, j :: 0 <= i < j < |got| ==> got[i] != got[j])
            && (forall k :: k in got <==> k in s.connections.Values)
  {
    hide Step, Locks, LoadsFresh, Conserved, Tracks;
    RunInv(states, moves, n);
    var s, got := states[n], states[n].casters[b].got;
    assert Lists(s, {}, got);
    forall k | k in got ensures k in s.connections.Values {
      var i :| 0 <= i < |got| && got[i] == k;
      assert Filed(s, {}, got[i]);
      var id :| FiledAs(s, {}, id, k);
    }
  }

  // ---------------------------------------------------------------- the handler's methods

  /** The state after a whole call or round of one goroutine, with nobody in between. */
  function Accepted(s: State, nanos: int, address: string): State {
    var c := Conn(nanos, address, 0, false, Reading);
    s.(conns := s.conns + [c], connections := s.connections[c.Id() := |s.conns|])
  }

  function MessageCounted(s: State, k: nat): State
    requires k < |s.conns|
  {
    s.(conns := s.conns[k := s.conns[k].(messageCount := s.conns[k].messageCount + 1)],
       messageCount := s.messageCount + 1)
  }

  function Removed(s: State, k: nat): State
    requires k < |s.conns|
  {
    s.Goto(k, Ended).(connections := s.connections - {s.conns[k].Id()})
  }

  function Closed(s: State, id: string): State {
    if id in s.connections && s.connections[id] < |s.conns| then
      var k := s.connections[id];
      s.(conns := s.conns[k := s.conns[k].(closed := true)], connections := s.connections - {id},
         closers := s.closers + [CReturned(true)])
    else s.(closers := s.closers + [CReturned(false)])
  }

  ghost predicate Follows(s: State, s': State) {
    exists m :: Step(s, m, s')
  }

  ghost predicate IsPath(path: seq<State>) {
    forall i :: 0 <= i < |path| - 1 ==> Follows(path[i], path[i + 1])
  }

  /** The steps of the system lead from `s` to `s'`. */
  ghost predicate Reaches(s: State, s': State) {
    exists path :: |path| > 0 && path[0] == s && path[|path| - 1] == s' && IsPath(path)
  }

  lemma ReachesSelf(s: State)
    ensures Reaches(s, s)
  {
    assert IsPath([s]);
  }

  lemma ReachesNext(s: State, mid: State, m: Move, s': State)
    requires Reaches(s, mid) && Step(mid, m, s')
    ensures Reaches(s, s')
  {
    hide Step;
    assert Follows(mid, s');
    var path :| |path| > 0 && path[0] == s && path[|path| - 1] == mid && IsPath(path);
    var more := path + [s'];
    forall i | 0 <= i < |more| - 1 ensures Follows(more[i], more[i + 1]) {
      if i < |path| - 1 {
        assert Follows(path[i], path[i + 1]);
      }
    }
    assert IsPath(more);
  }

  /** Several steps of connection `k`. */
  lemma ReachesByConn(s: State, mid: State, k: nat, s': State)
    requires Reaches(s, mid) && ConnStep(mid, k, s')
    ensures Reaches(s, s')
  {
    hide ConnStep;
    ReachesNext(s, mid, OfConn(k), s');
  }

  lemma AcceptingAddsUp(s: State, nanos: int, address: string)
    requires s.Free()
    ensures Reaches(s, Accepted(s, nanos, address))
  {
    hide Reaches, ConnectionId;
    var k, c := |s.conns|, Conn(nanos, address, 0, false, Upgraded);
    var t := s.(conns := s.conns + [c]);
    var a := t.Goto(k, InsertLocked).(writer := Some(ByConn(k)));
    var b := a.Goto(k, InsertDone).(connections := s.connections[c.Id() := k]);
    ReachesSelf(s);
    ReachesNext(s, s, Accept(nanos, address), t);
    assert ConnStep(t, k, a) && ConnStep(a, k, b);
    assert ConnStep(b, k, Accepted(s, nanos, address)) by {
      assert b.conns[k := b.conns[k].(pc := Reading)] == Accepted(s, nanos, address).conns;
    }
    ReachesByConn(s, t, k, a);
    ReachesByConn(s, a, k, b);
    ReachesByConn(s, b, k, Accepted(s, nanos, address));
  }

  lemma CountingAddsUp(s: State, k: nat)
    requires k < |s.conns| && s.Free() && s.conns[k].pc == Reading
    ensures Reaches(s, MessageCounted(s, k))
  {
    hide Reaches, ConnectionId;
    var r := s.Goto(k, Received);
    var a := s.(conns := s.conns[k := s.conns[k].(messageCount := s.conns[k].messageCount + 1, pc := Counted)]);
    var b := a.Goto(k, CountLocked).(writer := Some(ByConn(k)));
    var c := b.Goto(k, Loaded(s.messageCount));
    var d := c.Goto(k, Stored).(messageCount := s.messageCount + 1);
    var e := d.Goto(k, Processing).(writer := None);
    assert ConnStep(s, k, r) && ConnStep(r, k, a) && ConnStep(a, k, b) && ConnStep(b, k, c);
    assert ConnStep(c, k, d) && ConnStep(d, k, e) && ConnStep(e, k, MessageCounted(s, k));
    ReachesSelf(s);
    ReachesByConn(s, s, k, r);
    ReachesByConn(s, r, k, a);
    ReachesByConn(s, a, k, b);
    ReachesByConn(s, b, k, c);
    ReachesByConn(s, c, k, d);
    ReachesByConn(s, d, k, e);
    ReachesByConn(s, e, k, MessageCounted(s, k));
  }

  lemma CleaningAddsUp(s: State, k: nat)
    requires k < |s.conns| && s.Free() && s.conns[k].pc == Reading
    ensures Reaches(s, Removed(s, k))
  {
    hide Reaches, ConnectionId;
    var l := s.Goto(k, Leaving);
    var a := l.Goto(k, DeleteLocked).(writer := Some(ByConn(k)));
    var b := a.Goto(k, DeleteDone).(connections := s.connections - {s.conns[k].Id()});
    assert ConnStep(s, k, l) && ConnStep(l, k, a) && ConnStep(a, k, b) && ConnStep(b, k, Removed(s, k));
    ReachesSelf(s);
    ReachesByConn(s, s, k, l);
    ReachesByConn(s, l, k, a);
    ReachesByConn(s, a, k, b);
    ReachesByConn(s, b, k, Removed(s, k));
  }

  lemma ClosingAddsUp(s: State, id: string)
    requires s.Free()
    ensures Reaches(s, Closed(s, id))
  {
    hide Reaches, ConnectionId;
    var j, t := |s.closers|, Closed(s, id);
    var a := s.(closers := s.closers + [CWaiting(id)]);
    var b := a.(writer := Some(ByCloser(j)), closers := s.closers + [CLocked(id)]);
    var c := t.(writer := b.writer, closers := s.closers + [CDone(t.closers[j].found)]);
    assert Step(s, CallClose(id), a);
    assert Step(a, OfCloser(j), b) by { assert a.closers[j := CLocked(id)] == b.closers; }
    assert Step(b, OfCloser(j), c) by { assert b.closers[j := CDone(t.closers[j].found)] == c.closers; }
    assert Step(c, OfCloser(j), t) by { assert c.closers[j := t.closers[j]] == t.closers; }
    ReachesSelf(s);
    ReachesNext(s, s, CallClose(id), a);
    ReachesNext(s, a, OfCloser(j), b);
    ReachesNext(s, b, OfCloser(j), c);
    ReachesNext(s, c, OfCloser(j), t);
  }

  /** The locked part of a broadcast under way, as the last of the casters. */
  function Collecting(s: State, rest: set<string>, got: seq<nat>): State {
    s.(readers := {|s.casters|}, casters := s.casters + [BCollecting(rest, got)])
  }

  function Broadcasting(s: State, got: seq<nat>): State {
    s.(casters := s.casters + [BSending(got)])
  }

  lemma CollectingBegins(s: State)
    requires s.Free()
    ensures Reaches(s, Collecting(s, s.connections.Keys, []))
  {
    hide Reaches;
    var b := |s.casters|;
    var a := s.(casters := s.casters + [BWaiting]);
    var c := Collecting(s, s.connections.Keys, []);
    assert Step(s, CallBroadcast, a);
    assert Step(a, OfCaster(b), c) by { assert a.casters[b := BCollecting(s.connections.Keys, [])] == c.casters; }
    ReachesSelf(s);
    ReachesNext(s, s, CallBroadcast, a);
    ReachesNext(s, a, OfCaster(b), c);
  }

  lemma CollectingGoesOn(s: State, rest: set<string>, got: seq<nat>, id: string)
    requires Reaches(s, Collecting(s, rest, got)) && id in rest && id in s.connections
    ensures Reaches(s, Collecting(s, rest - {id}, got + [s.connections[id]]))
  {
    hide Reaches;
    var a, c := Collecting(s, rest, got), Collecting(s, rest - {id}, got + [s.connections[id]]);
    var b := |s.casters|;
    assert a.casters[b := BCollecting(rest - {id}, got + [s.connections[id]])] == c.casters;
    assert CasterStep(a, b, c);
    ReachesNext(s, a, OfCaster(b), c);
  }

  lemma CollectingEnds(s: State, got: seq<nat>)
    requires s.Free() && Reaches(s, Collecting(s, {}, got))
    ensures Reaches(s, Broadcasting(s, got))
  {
    hide Reaches;
    var a, c := Collecting(s, {}, got), Broadcasting(s, got);
    var b := |s.casters|;
    var d := a.(casters := s.casters + [BCollected(got)]);
    assert Step(a, OfCaster(b), d) by { assert a.casters[b := BCollected(got)] == d.casters; }
    assert Step(d, OfCaster(b), c) by { assert d.casters[b := BSending(got)] == c.casters && d.readers - {b} == {}; }
    ReachesNext(s, a, OfCaster(b), d);
    ReachesNext(s, d, OfCaster(b), c);
  }

  /** Left alone, the steps of a goroutine add up to what its methods below do. */
  lemma SectionsAddUp(s: State)
    requires s.Free()
    ensures forall nanos, address :: Reaches(s, Accepted(s, nanos, address))
    ensures forall k: nat :: k < |s.conns| && s.conns[k].pc == Reading ==>
              Reaches(s, MessageCounted(s, k)) && Reaches(s, Removed(s, k))
    ensures forall id :: Reaches(s, Closed(s, id))
  {
    hide *;
    forall nanos, address ensures Reaches(s, Accepted(s, nanos, address)) {
      AcceptingAddsUp(s, nanos, address);
    }
    forall k: nat | k < |s.conns| && s.conns[k].pc == Reading
      ensures Reaches(s, MessageCounted(s, k)) && Reaches(s, Removed(s, k))
    {
      CountingAddsUp(s, k);
      CleaningAddsUp(s, k);
    }
    forall id ensures Reaches(s, Closed(s, id)) {
      ClosingAddsUp(s, id);
    }
  }

  /** The handler, with the rounds of its goroutines as methods. Each of them is a run of the
      step system. */
  class Handler {
    var conns: seq<Conn>
    var connections: map<string, nat>
    var messageCount: int
    ghost var closers: seq<Closer>   // the calls of CloseConnection so far
    ghost var casters: seq<Caster>   // and of BroadcastMessage

    ghost function View(): State
      reads this
    {
      State(conns, connections, messageCount, None, {}, closers, casters)
    }

    /** Between calls every connection is being read or has ended. */
    ghost predicate Valid()
      reads this
    {
      Tracks(View()) && forall k :: 0 <= k < |conns| ==> conns[k].pc.Reading? || conns[k].pc.Ended?
    }

    constructor ()
      ensures Valid() && Init(View())
    {
      conns, connections, messageCount := [], map[], 0;
      closers, casters := [], [];
    }

    /** Handle, once the upgrade has succeeded. */
    method Handle(nanos: int, address: string) returns (k: nat)
      requires Valid()
      modifies this
      ensures Valid() && k == |old(conns)|
      ensures View() == Accepted(old(View()), nanos, address)
      ensures conns == old(conns) + [Conn(nanos, address, 0, false, Reading)] && messageCount == old(messageCount)
      ensures connections == old(connections)[ConnectionId("ws_", nanos, address) := k]
      ensures Reaches(old(View()), View())
    {
      hide ConnectionId, Reaches;
      SectionsAddUp(View());
      k := |conns|;
      var connectionID := ConnectionId("ws_", nanos, address);
      conns := conns + [Conn(nanos, address, 0, false, Reading)];
      connections := connections[connectionID := k];
    }

    /** handleConnection, for one text or binary message. */
    method CountMessage(k: nat)
      requires Valid() && k < |conns| && conns[k].pc.Reading?
      modifies this
      ensures Valid() && View() == MessageCounted(old(View()), k)
      ensures messageCount == old(messageCount) + 1 && conns[k].messageCount == old(conns[k].messageCount) + 1
      ensures connections == old(connections) && conns == old(conns)[k := conns[k]]
      ensures Reaches(old(View()), View())
    {
      hide ConnectionId, Reaches;
      SectionsAddUp(View());
      conns := conns[k := conns[k].(messageCount := conns[k].messageCount + 1)];
      messageCount := messageCount + 1;
    }

    /** The deferred function of handleConnection. */
    method Cleanup(k: nat)
      requires Valid() && k < |conns| && conns[k].pc.Reading?
      modifies this
      ensures Valid() && View() == Removed(old(View()), k)
      ensures connections == old(connections) - {old(conns[k].Id())} && conns[k] == old(conns[k]).(pc := Ended)
      ensures messageCount == old(messageCount) && conns == old(conns)[k := conns[k]]
      ensures Reaches(old(View()), View())
    {
      hide ConnectionId, Reaches;
      SectionsAddUp(View());
      connections := connections - {conns[k].Id()};
      conns := conns[k := conns[k].(pc := Ended)];
    }

    method CloseConnection(connectionID: string) returns (found: bool)
      requires Valid()
      modifies this
      ensures Valid() && View() == Closed(old(View()), connectionID)
      ensures found == (connectionID in old(connections))
      ensures closers == old(closers) + [CReturned(found)] && messageCount == old(messageCount)
      ensures connections == old(connections) - {connectionID}
      ensures conns == if found && old(connections)[connectionID] < |old(conns)| then
                         var k := old(connections)[connectionID]; old(conns)[k := old(conns)[k].(closed := true)]
                       else old(conns)
      ensures Reaches(old(View()), View())
    {
      hide ConnectionId, Reaches;
      SectionsAddUp(View());
      found := connectionID in connections;
      closers := closers + [CReturned(found)];
      if found {
        var k := connections[connectionID];
        conns := conns[k := conns[k].(closed := true)];
        connections := connections - {connectionID};
      }
    }

    /** The snapshot BroadcastMessage sends to: a loop over the map in any order. */
    method BroadcastMessage() returns (snapshot: seq<nat>)
      requires Valid()
      modifies this`casters
      ensures Valid() && View() == Broadcasting(old(View()), snapshot)
      ensures Lists(View(), {}, snapshot)
      ensures Reaches(old(View()), View())
    {
      hide ConnectionId, Pc.Live, Lists, Reaches;
      ghost var s := View();
      var rest := connections.Keys;
      snapshot := [];
      assert Lists(s, rest, []) by { NothingListed(s); }
      CollectingBegins(s);
      while rest != {}
        invariant rest <= connections.Keys && View() == s
        invariant Lists(s, rest, snapshot)
        invariant Reaches(s, Collecting(s, rest, snapshot))
        decreases |rest|
      {
        var id :| id in rest;
        SnapshotGrows(s, rest, snapshot, id);
        CollectingGoesOn(s, rest, snapshot, id);
        rest := rest - {id};
        snapshot := snapshot + [connections[id]];
      }
      CollectingEnds(s, snapshot);
      casters := casters + [BSending(snapshot)];
      ListsDepends(s, View(), {}, snapshot);
    }
  }

  lemma NothingListed(s: State)
    ensures Lists(s, s.connections.Keys, [])
  {
  }
}
