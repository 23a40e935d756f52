/** The registry of protocol handler factories: its operations one at a time, and what an
    atomic map would do. */
module HandlerRegistry {
  import opened GoMaps

  /** A FactoryConstructor; constructors are only stored and handed back. */
  datatype Constructor = Constructor(id: nat)

  type Table = map<string, Constructor>

  datatype Op = Register(name: string, constructor_: Constructor) | Unregister(name: string)
              | CreateFactory(name: string) | IsRegistered(name: string) | GetRegisteredProtocols
  {
    predicate Writes() { Register? || Unregister? }
  }

  /** An operation's result; Failed stands for its error, Calls(c) for the call of constructor c. */
  datatype Reply = Ok | Failed | Calls(constructor_: Constructor) | Is(b: bool) | Names(names: seq<string>)

  /** The table after an operation. */
  function Effect(t: Table, op: Op): Table {
    match op
    case Register(n, c) => if n in t then t else t[n := c]
    case Unregister(n) => t - {n}
    case _ => t
  }

  /** The replies an atomic map may give. */
  ghost predicate Allowed(t: Table, op: Op, r: Reply) {
    match op
    case Register(n, _) => r == if n in t then Failed else Ok
    case Unregister(n) => r == if n in t then Ok else Failed
    case CreateFactory(n) => r == if n in t then Calls(t[n]) else Failed
    case IsRegistered(n) => r == Is(n in t)
    case GetRegisteredProtocols => r.Names? && Enumerates(r.names, t.Keys)
  }

  /** The operations as written, each run to its end while the lock is held. */
  class Registry {
    var constructors: Table

    constructor ()
      ensures constructors == map[]
    {
      constructors := map[];
    }

    method Register(name: string, constructor_: Constructor) returns (r: Reply)
      modifies this
      ensures Allowed(old(constructors), Op.Register(name, constructor_), r)
      ensures constructors == Effect(old(constructors), Op.Register(name, constructor_))
    {
      if name in constructors {
        return Failed;
      }
      constructors := constructors[name := constructor_];
      return Ok;
    }

    method CreateFactory(name: string) returns (r: Reply)
      ensures Allowed(constructors, Op.CreateFactory(name), r)
    {
      if name !in constructors {
        return Failed;
      }
      return Calls(constructors[name]);
    }

    method GetRegisteredProtocols() returns (r: Reply)
      ensures Allowed(constructors, Op.GetRegisteredProtocols, r)
    {
      var protocols := [];
      var rest := constructors.Keys;
      while rest != {}
        invariant rest <= constructors.Keys
        invariant Enumerates(protocols, constructors.Keys - rest)
        decreases |rest|
      {
        var name :| name in rest;
        rest := rest - {name};
        protocols := protocols + [name];
      }
      return Names(protocols);
    }

    method IsRegistered(name: string) returns (r: Reply)
      ensures Allowed(constructors, Op.IsRegistered(name), r)
    {
      return Is(name in constructors);
    }

    method Unregister(name: string) returns (r: Reply)
      modifies this
      ensures Allowed(old(constructors), Op.Unregister(name), r)
      ensures constructors == Effect(old(constructors), Op.Unregister(name))
    {
      if name !in constructors {
        return Failed;
      }
      constructors := constructors - {name};
      return Ok;
    }
  }

  // ---------------------------------------------------------------- sequential histories

  datatype Entry = Entry(thread: nat, op: Op, reply: Reply)

  /** The table after performing the operations of `log` one by one. */
  function Replay(log: seq<Entry>): Table {
    if log == [] then map[] else Effect(Replay(log[..|log| - 1]), log[|log| - 1].op)
  }

  /** Every reply in `log` is one an atomic map gives at that point. */
  ghost predicate Legal(log: seq<Entry>) {
    forall i :: 0 <= i < |log| ==> Allowed(Replay(log[..i]), log[i].op, log[i].reply)
  }

  lemma LegalExtends(log: seq<Entry>, e: Entry)
    requires Legal(log) && Allowed(Replay(log), e.op, e.reply)
    ensures Legal(log + [e]) && Replay(log + [e]) == Effect(Replay(log), e.op)
  {
    var more := log + [e];
    assert more[..|log|] == log;
    forall i | 0 <= i < |more| ensures Allowed(Replay(more[..i]), more[i].op, more[i].reply) {
      assert more[..i] == log[..i];
    }
  }

  /** Successful registrations of `name` minus successful removals. */
  function Net(log: seq<Entry>, name: string): int {
    if log == [] then 0 else
      var e := log[|log| - 1];
      Net(log[..|log| - 1], name)
      + (if e.reply != Ok then 0
         else if e.op.Register? && e.op.name == name then 1
         else if e.op.Unregister? && e.op.name == name then -1
         else 0)
  }

  /** The balance of a name is 1 while it is registered and 0 otherwise. */
  lemma {:induction false} NetIsMembership(log: seq<Entry>, name: string)
    requires Legal(log)
    ensures Net(log, name) == if name in Replay(log) then 1 else 0
  {
    if log != [] {
      hide Legal, Replay;
      LegalLast(log);
      NetIsMembership(log[..|log| - 1], name);
    }
  }

  /** `log[i]` registered `name`, and nothing after it removed it. */
  ghost predicate RegisteredBy(log: seq<Entry>, name: string, i: nat) {
    && i < |log| && log[i].reply == Ok && log[i].op.Register? && log[i].op.name == name
    && forall j :: i < j < |log| && log[j].reply == Ok ==> log[j].op != Unregister(name)
  }

  /** A legal history is a legal shorter one and one more operation. */
  lemma LegalLast(log: seq<Entry>)
    requires Legal(log) && log != []
    ensures var before, last := log[..|log| - 1], log[|log| - 1];
            && Legal(before) && Allowed(Replay(before), last.op, last.reply)
            && Replay(log) == Effect(Replay(before), last.op)
  {
    LegalPrefix(log, |log| - 1);
  }

  lemma {:induction false} RegistrationInForce(log: seq<Entry>, name: string, i: nat)
    requires Legal(log) && RegisteredBy(log, name, i)
    ensures name in Replay(log) && Replay(log)[name] == log[i].op.constructor_
  {
    hide Legal, Replay;
    var n := |log| - 1;
    LegalLast(log);
    if i < n {
      RegistrationInForce(log[..n], name, i);
    }
  }

  lemma RegisteredStill(log: seq<Entry>, name: string, i: nat)
    requires log != [] && RegisteredBy(log[..|log| - 1], name, i)
    requires log[|log| - 1].reply == Ok ==> log[|log| - 1].op != Unregister(name)
    ensures RegisteredBy(log, name, i)
  {
    var before := log[..|log| - 1];
    forall j | i < j < |log| && log[j].reply == Ok ensures log[j].op != Unregister(name) {
      assert j < |log| - 1 ==> before[j] == log[j];
    }
  }

  lemma RegisteredNow(log: seq<Entry>, name: string)
    requires log != [] && log[|log| - 1].reply == Ok
    requires log[|log| - 1].op.Register? && log[|log| - 1].op.name == name
    ensures RegisteredBy(log, name, |log| - 1)
  {
  }

  lemma {:induction false} RegistrationExists(log: seq<Entry>, name: string) returns (i: nat)
    requires Legal(log) && name in Replay(log)
    ensures RegisteredBy(log, name, i)
  {
    assert log != [] by { assert Replay([]) == map[]; }
    hide Legal, Replay, RegisteredBy;
    var n := |log| - 1;
    LegalLast(log);
    if log[n].op.Register? && log[n].op.name == name && log[n].reply == Ok {
      RegisteredNow(log, name);
      i := n;
    } else {
      i := RegistrationExists(log[..n], name);
      RegisteredStill(log, name, i);
    }
  }

  /** What the table holds under a name is the constructor of the registration still in force:
      a factory request is served by the last constructor registered and not removed since. */
  lemma TableIsLastRegistration(log: seq<Entry>, name: string)
    requires Legal(log)
    ensures name in Replay(log) <==> exists i: nat :: RegisteredBy(log, name, i)
    ensures forall i: nat :: RegisteredBy(log, name, i) ==>
              name in Replay(log) && Replay(log)[name] == log[i].op.constructor_
  {
    hide Legal, Replay;
    forall i: nat | RegisteredBy(log, name, i)
      ensures name in Replay(log) && Replay(log)[name] == log[i].op.constructor_
    {
      RegistrationInForce(log, name, i);
    }
    if name in Replay(log) {
      var i := RegistrationExists(log, name);
    }
  }

  lemma LegalPrefix(log: seq<Entry>, n: nat)
    requires Legal(log) && n <= |log|
    ensures Legal(log[..n])
  {
    forall i | 0 <= i < n ensures Allowed(Replay(log[..n][..i]), log[..n][i].op, log[..n][i].reply) {
      assert log[..n][..i] == log[..i];
    }
  }

  /** What each reply in a legal history says about the operations before it: who may register, who
      may unregister, who is served and by which constructor, and what is listed. */
  lemma RepliesMean(log: seq<Entry>, i: nat)
    requires Legal(log) && i < |log|
    ensures var past, r := log[..i], log[i].reply;
            match log[i].op
            case Register(n, _) => r == if Net(past, n) == 0 then Ok else Failed
            case Unregister(n) => r == if Net(past, n) == 1 then Ok else Failed
            case IsRegistered(n) => r == Is(Net(past, n) == 1)
            case CreateFactory(n) =>
              if Net(past, n) == 0 then r == Failed
              else exists j: nat :: RegisteredBy(past, n, j) && r == Calls(past[j].op.constructor_)
            case GetRegisteredProtocols =>
              && r.Names?
              && (forall j, k :: 0 <= j < k < |r.names| ==> r.names[j] != r.names[k])
              && (forall n :: n in r.names <==> Net(past, n) == 1)
  {
    var past := log[..i];
    assert Allowed(Replay(past), log[i].op, log[i].reply);
    LegalPrefix(log, i);
    hide Legal, Replay, Net, RegisteredBy;
    forall n ensures Net(past, n) == if n in Replay(past) then 1 else 0 {
      NetIsMembership(past, n);
    }
    if log[i].op.CreateFactory? {
      var n := log[i].op.name;
      if n in Replay(past) {
        var j := RegistrationExists(past, n);
        RegistrationInForce(past, n, j);
      }
    }
  }

  /** While a registration is in force there is no other under its name. */
  lemma OneInForce(log: seq<Entry>, name: string, i: nat, j: nat)
    requires Legal(log) && RegisteredBy(log, name, i) && i < j < |log|
    ensures !RegisteredBy(log, name, j)
  {
    var past := log[..j];
    assert Allowed(Replay(past), log[j].op, log[j].reply);
    LegalPrefix(log, j);
    RegistrationInForce(past, name, i);
  }
}
