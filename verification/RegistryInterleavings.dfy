/** Any number of threads inside the handler registry. The read-write lock, the map look-ups,
    the writes and every round of the listing loop are steps of their own; a step of any thread
    may come next. The registry refines a map whose operations are atomic. */
module RegistryInterleavings {
  import opened Options
  import opened HandlerRegistry

  /** Where a thread stands. It holds the lock in Inside, Looked, Listing and Decided. */
  datatype Pc =
    | Idle
    | Waiting(op: Op)                                 // called, not yet locked
    | Inside(op: Op)                                  // locked
    | Looked(op: Op, found: bool)                     // a writer that has read the map
    | Listing(names: seq<string>)                     // in the loop of GetRegisteredProtocols
    | Decided(op: Op, reply: Reply)                   // about to unlock
    | Returning(op: Op, reply: Reply)                 // unlocked, about to return

  datatype State = State(
    constructors: Table,
    writer: Option<nat>,          // who holds mu for writing
    readers: set<nat>,            // who holds mu for reading
    threads: map<nat, Pc>,
    log: seq<Entry>)              // history: the operations in the order they took effect

  /** What a caller can see of a step. */
  datatype Label = Call(t: nat, op: Op) | Return(t: nat, reply: Reply) | Hidden

  predicate At(s: State, t: nat) { t in s.threads }

  function Goto(s: State, t: nat, pc: Pc): State { s.(threads := s.threads[t := pc]) }

  function Take(s: State, t: nat, op: Op, reply: Reply): State {
    Goto(s, t, Decided(op, reply)).(constructors := Effect(s.constructors, op), log := s.log + [Entry(t, op, reply)])
  }

  /** One step of thread `t`. */
  ghost predicate Step(s: State, t: nat, l: Label, s': State) {
    At(s, t) &&
    match s.threads[t]
    case Idle =>
      l.Call? && l.t == t && s' == Goto(s, t, Waiting(l.op))
    case Waiting(op) =>
      && l == Hidden && s.writer == None
      && (if op.Writes() then s.readers == {} && s' == Goto(s, t, Inside(op)).(writer := Some(t))
          else s' == Goto(s, t, Inside(op)).(readers := s.readers + {t}))
    case Inside(op) =>
      && l == Hidden
      && (match op
          case Register(n, _) => s' == Goto(s, t, Looked(op, n in s.constructors))
          case Unregister(n) => s' == Goto(s, t, Looked(op, n in s.constructors))
          case CreateFactory(n) =>
            s' == Take(s, t, op, if n in s.constructors then Calls(s.constructors[n]) else Failed)
          case IsRegistered(n) => s' == Take(s, t, op, Is(n in s.constructors))
          case GetRegisteredProtocols => s' == Goto(s, t, Listing([])))
    case Looked(op, found) =>
      l == Hidden && op.Writes() &&
      (if found == op.Register? then
         s' == Goto(s, t, Decided(op, Failed)).(log := s.log + [Entry(t, op, Failed)])
       else
         s' == Goto(s, t, Decided(op, Ok)).(
           constructors := if op.Register? then s.constructors[op.name := op.constructor_]
                           else s.constructors - {op.name},
           log := s.log + [Entry(t, op, Ok)]))
    case Listing(names) =>
      && l == Hidden
      && (if forall k :: k in s.constructors ==> k in names
          then s' == Take(s, t, GetRegisteredProtocols, Names(names))
          else exists k :: k in s.constructors && k !in names && s' == Goto(s, t, Listing(names + [k])))
    case Decided(op, reply) =>
      && l == Hidden
      && (if op.Writes() then s' == Goto(s, t, Returning(op, reply)).(writer := None)
          else s' == Goto(s, t, Returning(op, reply)).(readers := s.readers - {t}))
    case Returning(op, reply) =>
      l == Return(t, reply) && s' == Goto(s, t, Idle)
  }

  ghost predicate Init(s: State) {
    && s.constructors == map[] && s.writer == None && s.readers == {} && s.log == []
    && forall t :: t in s.threads ==> s.threads[t] == Idle
  }

  // ---------------------------------------------------------------- invariant

  function HeldOp(pc: Pc): Option<Op> {
    match pc
    case Inside(op) => Some(op)
    case Looked(op, _) => Some(op)
    case Listing(_) => Some(GetRegisteredProtocols)
    case Decided(op, _) => Some(op)
    case _ => None
  }

  predicate HoldsWrite(pc: Pc) { HeldOp(pc).Some? && HeldOp(pc).value.Writes() }

  predicate HoldsRead(pc: Pc) { HeldOp(pc).Some? && !HeldOp(pc).value.Writes() }

  /** What a thread has read is still so, because it holds the lock. */
  predicate Fresh(s: State, pc: Pc) {
    match pc
    case Looked(op, found) => op.Writes() && found == (op.name in s.constructors)
    case Listing(names) =>
      && (forall i, j :: 0 <= i < j < |names| ==> names[i] != names[j])
      && (forall k :: k in names ==> k in s.constructors)
    case _ => true
  }

  /** The lock's own record of its holders is right, and a writer is alone. */
  predicate Locks(s: State) {
    && (forall t :: t in s.threads ==> (HoldsWrite(s.threads[t]) <==> s.writer == Some(t)))
    && (forall t :: t in s.threads ==> (HoldsRead(s.threads[t]) <==> t in s.readers))
    && (s.writer.Some? ==> s.readers == {} && s.writer.value in s.threads)
    && (forall t :: t in s.readers ==> t in s.threads)
  }

  ghost predicate Inv(s: State) {
    && Legal(s.log) && Replay(s.log) == s.constructors
    && (forall t :: t in s.threads ==> Fresh(s, s.threads[t]))
    && Locks(s)
  }

  // ---------------------------------------------------------------- the atomic map

  datatype APc = AIdle | ACalled(op: Op) | ADone(op: Op, reply: Reply)

  datatype AState = AState(constructors: Table, threads: map<nat, APc>, log: seq<Entry>)

  /** Call, take effect at one instant, return. */
  ghost predicate AStep(a: AState, l: Label, a': AState) {
    match l
    case Call(t, op) =>
      t in a.threads && a.threads[t] == AIdle && a' == a.(threads := a.threads[t := ACalled(op)])
    case Return(t, r) =>
      t in a.threads && a.threads[t].ADone? && a.threads[t].reply == r && a' == a.(threads := a.threads[t := AIdle])
    case Hidden => a' == a || exists t, r :: Perform(a, t, r, a')
  }

  ghost predicate Perform(a: AState, t: nat, r: Reply, a': AState) {
    t in a.threads && a.threads[t].ACalled? &&
    var op := a.threads[t].op;
    Allowed(a.constructors, op, r) &&
    a' == AState(Effect(a.constructors, op), a.threads[t := ADone(op, r)], a.log + [Entry(t, op, r)])
  }

  function AbsPc(pc: Pc): APc {
    match pc
    case Idle => AIdle
    case Waiting(op) => ACalled(op)
    case Inside(op) => ACalled(op)
    case Looked(op, _) => ACalled(op)
    case Listing(_) => ACalled(GetRegisteredProtocols)
    case Decided(op, r) => ADone(op, r)
    case Returning(op, r) => ADone(op, r)
  }

  function Abs(s: State): AState {
    AState(s.constructors, map t | t in s.threads :: AbsPc(s.threads[t]), s.log)
  }

  // ---------------------------------------------------------------- refinement

  lemma AbsGoto(s: State, t: nat, pc: Pc)
    requires At(s, t)
    ensures Abs(Goto(s, t, pc)) == Abs(s).(threads := Abs(s).threads[t := AbsPc(pc)])
  {
  }

  /** The moment an operation takes effect is one step of the atomic map. */
  lemma TakesEffect(s: State, t: nat, op: Op, r: Reply, s': State)
    requires Inv(s) && At(s, t) && HeldOp(s.threads[t]) == Some(op) && !s.threads[t].Decided?
    requires Allowed(s.constructors, op, r) && s' == Take(s, t, op, r)
    ensures Perform(Abs(s), t, r, Abs(s'))
    ensures Legal(s'.log) && Replay(s'.log) == s'.constructors
  {
    AbsGoto(s, t, Decided(op, r));
    LegalExtends(s.log, Entry(t, op, r));
  }

  /** A step that no caller sees and that takes no effect changes only the lock and one pc. */
  lemma SilentStep(s: State, t: nat, s': State)
    requires Step(s, t, Hidden, s') && s'.log == s.log
    ensures At(s', t) && AbsPc(s'.threads[t]) == AbsPc(s.threads[t])
    ensures s'.constructors == s.constructors && s'.threads == s.threads[t := s'.threads[t]]
  {
    hide Effect;
  }

  /** Every other hidden step performs the thread's operation on the map. */
  lemma EffectiveStep(s: State, t: nat, s': State)
    requires Step(s, t, Hidden, s') && s'.log != s.log && Fresh(s, s.threads[t])
    ensures HeldOp(s.threads[t]).Some? && !s.threads[t].Decided?
    ensures At(s', t) && s'.threads[t].Decided?
    ensures var op, r := HeldOp(s.threads[t]).value, s'.threads[t].reply;
            Allowed(s.constructors, op, r) && s' == Take(s, t, op, r)
    ensures s'.constructors == s.constructors || (s.threads[t].Looked? && s.threads[t].op.Writes())
  {
  }

  lemma ExternalStep(s: State, t: nat, l: Label, s': State)
    requires Step(s, t, l, s') && l != Hidden
    ensures AStep(Abs(s), l, Abs(s'))
    ensures s'.constructors == s.constructors && s'.log == s.log
  {
    hide Effect, Allowed, Abs;
    AbsThreads(s);
    AbsGoto(s, t, s'.threads[t]);
  }

  lemma StepEffect(s: State, t: nat, l: Label, s': State)
    requires Inv(s) && Step(s, t, l, s')
    ensures AStep(Abs(s), l, Abs(s'))
    ensures Legal(s'.log) && Replay(s'.log) == s'.constructors
    ensures s'.constructors == s.constructors || (s.threads[t].Looked? && s.threads[t].op.Writes())
  {
    hide Legal, Replay, Abs, Step, Perform, Allowed, Fresh, Locks, Take;
    assert At(s, t) by { StepAt(s, t, l, s'); }
    if l != Hidden {
      ExternalStep(s, t, l, s');
    } else if s'.log == s.log {
      SilentStep(s, t, s');
      AbsLock(s, t, s'.threads[t], s');
    } else {
      EffectiveStep(s, t, s');
      TakesEffect(s, t, HeldOp(s.threads[t]).value, s'.threads[t].reply, s');
    }
  }

  lemma StepAt(s: State, t: nat, l: Label, s': State)
    requires Step(s, t, l, s')
    ensures At(s, t)
  {
  }

  lemma AbsThreads(s: State)
    ensures Abs(s).threads.Keys == s.threads.Keys
    ensures forall t :: t in s.threads ==> Abs(s).threads[t] == AbsPc(s.threads[t])
  {
  }

  /** Locking, unlocking and looking are invisible to the atomic map. */
  lemma AbsLock(s: State, t: nat, pc: Pc, s': State)
    requires At(s, t) && AbsPc(pc) == AbsPc(s.threads[t])
    requires s'.constructors == s.constructors && s'.log == s.log && s'.threads == s.threads[t := pc]
    ensures Abs(s') == Abs(s)
  {
  }

  lemma LockKept(s: State, t: nat, s': State)
    requires Locks(s) && At(s, t) && At(s', t) && s'.threads == s.threads[t := s'.threads[t]]
    requires s'.writer == s.writer && s'.readers == s.readers
    requires HeldOp(s'.threads[t]) == HeldOp(s.threads[t])
    ensures Locks(s')
  {
  }

  lemma LockTaken(s: State, t: nat, op: Op, s': State)
    requires Locks(s) && At(s, t) && s.threads[t] == Waiting(op) && s.writer == None
    requires s'.threads == s.threads[t := Inside(op)]
    requires if op.Writes() then s.readers == {} && s'.readers == {} && s'.writer == Some(t)
             else s'.readers == s.readers + {t} && s'.writer == None
    ensures Locks(s')
  {
  }

  lemma LockReleased(s: State, t: nat, op: Op, s': State)
    requires Locks(s) && At(s, t) && HeldOp(s.threads[t]) == Some(op)
    requires At(s', t) && s'.threads == s.threads[t := s'.threads[t]] && HeldOp(s'.threads[t]) == None
    requires if op.Writes() then s'.readers == s.readers && s'.writer == None
             else s'.readers == s.readers - {t} && s'.writer == s.writer
    ensures Locks(s')
  {
  }

  lemma StepLocks(s: State, t: nat, l: Label, s': State)
    requires Locks(s) && Step(s, t, l, s')
    ensures Locks(s')
  {
    hide Effect, Locks;
    match s.threads[t]
    case Waiting(op) => LockTaken(s, t, op, s');
    case Decided(op, _) => LockReleased(s, t, op, s');
    case _ => LockKept(s, t, s');
  }

  lemma {:induction false} StepFresh(s: State, t: nat, l: Label, s': State)
    requires Inv(s) && Step(s, t, l, s')
    requires s'.constructors == s.constructors || (s.threads[t].Looked? && s.threads[t].op.Writes())
    ensures forall u :: u in s'.threads ==> Fresh(s', s'.threads[u])
  {
    hide Legal, Replay, Effect;
    forall u | u in s'.threads ensures Fresh(s', s'.threads[u]) {
      if u != t {
        assert s'.threads[u] == s.threads[u] && Fresh(s, s.threads[u]);
        if s'.constructors != s.constructors {
          assert HoldsWrite(s.threads[t]);
          assert s.writer == Some(t) && !HoldsWrite(s.threads[u]) && !HoldsRead(s.threads[u]);
        }
      } else {
        assert Fresh(s, s.threads[t]);
      }
    }
  }

  lemma StepKeepsInv(s: State, t: nat, l: Label, s': State)
    requires Inv(s) && Step(s, t, l, s')
    ensures Inv(s') && AStep(Abs(s), l, Abs(s'))
  {
    StepEffect(s, t, l, s');
    StepLocks(s, t, l, s');
    StepFresh(s, t, l, s');
  }

  // ---------------------------------------------------------------- whole runs

  datatype Move = Move(t: nat, seen: Label)

  ghost predicate Run(states: seq<State>, moves: seq<Move>) {
    && |states| == |moves| + 1 && Init(states[0])
    && forall i :: 0 <= i < |moves| ==> Step(states[i], moves[i].t, moves[i].seen, states[i + 1])
  }

  lemma {:induction false} RunInv(states: seq<State>, moves: seq<Move>, n: nat)
    requires Run(states, moves) && n <= |moves|
    ensures Inv(states[n])
  {
    hide Step, Inv;
    if n == 0 {
      assert Inv(states[0]) by { InitInv(states[0]); }
    } else {
      RunInv(states, moves, n - 1);
      StepKeepsInv(states[n - 1], moves[n - 1].t, moves[n - 1].seen, states[n]);
    }
  }

  lemma InitInv(s: State)
    requires Init(s)
    ensures Inv(s)
  {
  }

  /** Linearizability: every run of the locked registry is, call for call and reply for reply, a
      run of the atomic map, in which each operation takes effect at one instant between its
      call and its return. */
  lemma RegistryIsLinearizable(states: seq<State>, moves: seq<Move>)
    requires Run(states, moves)
    ensures Abs(states[0]).constructors == map[] && Abs(states[0]).log == []
    ensures forall i :: 0 <= i < |moves| ==> AStep(Abs(states[i]), moves[i].seen, Abs(states[i + 1]))
  {
    hide Step, Inv, AStep;
    forall i | 0 <= i < |moves| ensures AStep(Abs(states[i]), moves[i].seen, Abs(states[i + 1])) {
      RunInv(states, moves, i);
      StepKeepsInv(states[i], moves[i].t, moves[i].seen, states[i + 1]);
    }
  }

  /** No call or return of thread `t` among moves `a` up to `b`. */
  predicate Quiet(moves: seq<Move>, t: nat, a: nat, b: nat)
    requires b <= |moves|
  {
    forall j :: a <= j < b ==> !Concerns(moves[j].seen, t)
  }

  lemma QuietLonger(moves: seq<Move>, t: nat, a: nat, b: nat)
    requires b < |moves| && Quiet(moves, t, a, b) && !Concerns(moves[b].seen, t)
    ensures Quiet(moves, t, a, b + 1)
  {
  }

  /** Thread `t` performs `op` on the map in this very step, with reply `r`. */
  ghost predicate TakesEffectAt(s: State, s': State, t: nat, op: Op, r: Reply) {
    && Allowed(s.constructors, op, r) && s'.constructors == Effect(s.constructors, op)
    && s'.log == s.log + [Entry(t, op, r)]
  }

  predicate Concerns(seen: Label, t: nat) { seen != Hidden && seen.t == t }

  /** What one step does to thread `t`, as the atomic map sees it. */
  ghost predicate ThreadMove(s: State, seen: Label, s': State, t: nat, a: APc, a': APc) {
    || (a' == a && !Concerns(seen, t))
    || (a == AIdle && a'.ACalled? && seen == Call(t, a'.op))
    || (a.ADone? && a' == AIdle)
    || (a.ACalled? && a'.ADone? && a'.op == a.op && seen == Hidden && TakesEffectAt(s, s', t, a.op, a'.reply))
  }

  lemma ThreadMoves(s: State, m: Move, s': State, t: nat)
    requires Inv(s) && Step(s, m.t, m.seen, s') && At(s', t)
    ensures At(s, t) && ThreadMove(s, m.seen, s', t, AbsPc(s.threads[t]), AbsPc(s'.threads[t]))
  {
    hide Inv, Step, Allowed, Abs, Effect, AbsPc;
    StepKeepsInv(s, m.t, m.seen, s');
    AbsThreads(s);
    AbsThreads(s');
    AbsParts(s);
    AbsParts(s');
  }

  lemma AbsParts(s: State)
    ensures Abs(s).constructors == s.constructors && Abs(s).log == s.log
  {
  }

  lemma {:induction false} CalledAt(states: seq<State>, moves: seq<Move>, n: nat, t: nat) returns (c: nat)
    requires Run(states, moves) && n <= |moves| && At(states[n], t) && AbsPc(states[n].threads[t]).ACalled?
    ensures c < n && moves[c].seen == Call(t, AbsPc(states[n].threads[t]).op) && Quiet(moves, t, c + 1, n)
  {
    assert n > 0;
    RunStep(states, moves, n - 1, t);
    hide Inv, Step, AbsPc, TakesEffectAt, Run;
    if AbsPc(states[n - 1].threads[t]) == AIdle {
      c := n - 1;
    } else {
      c := CalledAt(states, moves, n - 1, t);
      QuietLonger(moves, t, c + 1, n - 1);
    }
  }

  /** One step of a run, as it looks to thread `t`. */
  lemma RunStep(states: seq<State>, moves: seq<Move>, i: nat, t: nat)
    requires Run(states, moves) && i < |moves| && At(states[i + 1], t)
    ensures At(states[i], t)
    ensures ThreadMove(states[i], moves[i].seen, states[i + 1], t,
                       AbsPc(states[i].threads[t]), AbsPc(states[i + 1].threads[t]))
  {
    hide Inv, Step, ThreadMove, AbsPc;
    RunInv(states, moves, i);
    ThreadMoves(states[i], moves[i], states[i + 1], t);
  }

  lemma {:induction false} PerformedAt(states: seq<State>, moves: seq<Move>, n: nat, t: nat) returns (c: nat, p: nat)
    requires Run(states, moves) && n <= |moves| && At(states[n], t) && AbsPc(states[n].threads[t]).ADone?
    ensures var op, r := AbsPc(states[n].threads[t]).op, AbsPc(states[n].threads[t]).reply;
            && c < p < n && moves[c].seen == Call(t, op) && Quiet(moves, t, c + 1, n)
            && TakesEffectAt(states[p], states[p + 1], t, op, r)
  {
    assert n > 0;
    RunStep(states, moves, n - 1, t);
    hide Inv, Step, AbsPc, TakesEffectAt, Run;
    if AbsPc(states[n - 1].threads[t]).ACalled? {
      p := n - 1;
      c := CalledAt(states, moves, n - 1, t);
    } else {
      c, p := PerformedAt(states, moves, n - 1, t);
    }
    QuietLonger(moves, t, c + 1, n - 1);
  }

  /** Seen from a caller: an operation that returns `r` was called at some move `c`, and at some
      move `p` between that call and the return the map as it then stood allowed `r`, and changed
      as the operation says. */
  lemma OperationsTakeEffectInside(states: seq<State>, moves: seq<Move>, i: nat, t: nat, r: Reply)
    requires Run(states, moves) && i < |moves| && moves[i].seen == Return(t, r)
    ensures exists c: nat, p: nat, op ::
              && c < p < i && moves[c].seen == Call(t, op) && Quiet(moves, t, c + 1, i)
              && TakesEffectAt(states[p], states[p + 1], t, op, r)
  {
    assert At(states[i], t) && AbsPc(states[i].threads[t]).ADone? && AbsPc(states[i].threads[t]).reply == r by {
      assert Step(states[i], moves[i].t, moves[i].seen, states[i + 1]);
    }
    hide Inv, Step, TakesEffectAt, Quiet, AbsPc;
    var c, p := PerformedAt(states, moves, i, t);
  }

  /** In every reachable state the operations performed so far form a legal sequential history
      that leads to the current map; registrations minus removals of a name are 1 while it is
      registered, 0 otherwise; and writers are alone under the lock. */
  lemma RegistryAccounts(states: seq<State>, moves: seq<Move>, n: nat, name: string)
    requires Run(states, moves) && n <= |moves|
    ensures var s := states[n];
            && Legal(s.log) && Replay(s.log) == s.constructors
            && Net(s.log, name) == (if name in s.constructors then 1 else 0)
            && forall t, u :: t in s.threads && u in s.threads && t != u && HoldsWrite(s.threads[t])
                 ==> HeldOp(s.threads[u]).None?
  {
    RunInv(states, moves, n);
    NetIsMembership(states[n].log, name);
  }
}
