/** Two runs of two write servers, showing that neither bad step is harmless. */
module BookingFaults {
  import opened BookingServer
  import opened BookingRuns

  function Kinds(): map<Pid, Kind> {
    map[1 := WriteServer, 2 := WriteServer]
  }

  function NoVis(): seq<bool> {
    seq(RECORDS, _ => false)
  }

  function Writer(sessions: map<Conn, Session>, vis: seq<bool>, pc: Pc): Process {
    Process(WriteServer, sessions, vis, seq(RECORDS, _ => 0), pc)
  }

  function Two(a: Process, b: Process, locks: Locks, file: File, log: seq<(Id, Counts)>): System {
    System(map[1 := a, 2 := b], locks, file, log)
  }

  // ---------- one step at a time ----------

  lemma RunThen(s: System, es: seq<Event>, e: Event)
    requires Legal(s, es) && Enabled(Run(s, es), e)
    ensures Legal(s, es + [e]) && Run(s, es + [e]) == Next(Run(s, es), e)
    decreases |es|
  {
    if es == [] {
      assert ([] + [e])[1..] == [];
    } else {
      RunThen(Next(s, es[0]), es[1..], e);
      assert (es + [e])[1..] == es[1..] + [e];
    }
  }

  /** The run so far, and the system it leads to. */
  ghost predicate Leads(init: File, es: seq<Event>, s: System) {
    Legal(Start(Kinds(), init), es) && Run(Start(Kinds(), init), es) == s
  }

  lemma FirstSteps(init: File, es: seq<Event>, a: Process, b: Process, locks: Locks, file: File, log: seq<(Id, Counts)>, e: Event, v: View)
    requires Leads(init, es, Two(a, b, locks, file, log))
    requires e.p == 1 && Enabled(Two(a, b, locks, file, log), e) && After(Two(a, b, locks, file, log), e) == v
    ensures Leads(init, es + [e], Two(v.proc, b, v.locks, v.file, Logged(Two(a, b, locks, file, log), e)))
  {
    RunThen(Start(Kinds(), init), es, e);
    assert map[1 := a, 2 := b][1 := v.proc] == map[1 := v.proc, 2 := b];
  }

  lemma SecondSteps(init: File, es: seq<Event>, a: Process, b: Process, locks: Locks, file: File, log: seq<(Id, Counts)>, e: Event, v: View)
    requires Leads(init, es, Two(a, b, locks, file, log))
    requires e.p == 2 && Enabled(Two(a, b, locks, file, log), e) && After(Two(a, b, locks, file, log), e) == v
    ensures Leads(init, es + [e], Two(a, v.proc, v.locks, v.file, Logged(Two(a, b, locks, file, log), e)))
  {
    RunThen(Start(Kinds(), init), es, e);
    assert map[1 := a, 2 := b][2 := v.proc] == map[1 := a, 2 := v.proc];
  }

  lemma Opened(init: File)
    ensures Leads(init, [], Two(Writer(map[], NoVis(), Idle), Writer(map[], NoVis(), Idle), map[], init, []))
  {
    assert Start(Kinds(), init).procs == map[1 := Writer(map[], NoVis(), Idle), 2 := Writer(map[], NoVis(), Idle)];
  }

  // ---------- two tests before either lock ----------

  function Asked(pc: Pc): Process {
    Writer(map[0 := Asking], NoVis(), pc)
  }

  function Served(init: File, id: Id, pc: Pc): Process {
    Writer(map[0 := Ordering(id, init[id])], NoVis()[id := true], pc)
  }

  lemma BothGranted(init: File, id: Id) returns (es: seq<Event>)
    ensures Leads(init, es, Two(Asked(Granted(0, id)), Asked(Granted(0, id)), map[], init, []))
  {
    var idle := Writer(map[], NoVis(), Idle);
    Opened(init);
    FirstSteps(init, [], idle, idle, map[], init, [], Accept(1, 0), View(Asked(Idle), map[], init));
    es := [] + [Accept(1, 0)];
    SecondSteps(init, es, Asked(Idle), idle, map[], init, [], Accept(2, 0), View(Asked(Idle), map[], init));
    es := es + [Accept(2, 0)];
    FirstSteps(init, es, Asked(Idle), Asked(Idle), map[], init, [], GiveId(1, 0, 6, FIRST_ID + id), View(Asked(Granted(0, id)), map[], init));
    es := es + [GiveId(1, 0, 6, FIRST_ID + id)];
    SecondSteps(init, es, Asked(Granted(0, id)), Asked(Idle), map[], init, [], GiveId(2, 0, 6, FIRST_ID + id), View(Asked(Granted(0, id)), map[], init));
    es := es + [GiveId(2, 0, 6, FIRST_ID + id)];
  }

  lemma BothLocking(init: File, id: Id) returns (es: seq<Event>)
    ensures Leads(init, es, Two(Asked(Locking(0, id)), Asked(Locking(0, id)), map[(1, id) := Exclusive], init, []))
  {
    es := BothGranted(init, id);
    var locks := map[(1, id) := Exclusive];
    FirstSteps(init, es, Asked(Granted(0, id)), Asked(Granted(0, id)), map[], init, [], SetLock(1), View(Asked(Locking(0, id)), locks, init));
    es := es + [SetLock(1)];
    assert (1, id) in locks;
    SecondSteps(init, es, Asked(Locking(0, id)), Asked(Granted(0, id)), locks, init, [], SetLock(2), View(Asked(Locking(0, id)), locks, init));
    es := es + [SetLock(2)];
  }

  /** When both tests come before both locks, two write servers serve the same record at once. */
  lemma BothServed(init: File, id: Id) returns (es: seq<Event>)
    ensures Leads(init, es, Two(Served(init, id, Idle), Served(init, id, Idle), map[(1, id) := Exclusive], init, []))
  {
    es := BothLocking(init, id);
    var locks := map[(1, id) := Exclusive];
    assert map[0 := Asking][0 := Ordering(id, init[id])] == map[0 := Ordering(id, init[id])];
    FirstSteps(init, es, Asked(Locking(0, id)), Asked(Locking(0, id)), locks, init, [], Show(1), View(Served(init, id, Idle), locks, init));
    es := es + [Show(1)];
    SecondSteps(init, es, Served(init, id, Idle), Asked(Locking(0, id)), locks, init, [], Show(2), View(Served(init, id, Idle), locks, init));
    es := es + [Show(2)];
  }

  /** And then an update is lost: both commands are stored, but the file shows only the second. */
  lemma RaceLosesUpdate(init: File, id: Id, a: Counts, b: Counts) returns (es: seq<Event>)
    requires Acceptable(Plus(init[id], a)) && Acceptable(Plus(init[id], b))
    ensures Legal(Start(Kinds(), init), es)
    ensures var s := Run(Start(Kinds(), init), es);
      s.log == [(id, a), (id, b)] && s.file[id] == Plus(init[id], b)
  {
    es := BothServed(init, id);
    var locks := map[(1, id) := Exclusive];
    var one, two := Loaded(0, id, init[id], a), Loaded(0, id, init[id], b);
    FirstSteps(init, es, Served(init, id, Idle), Served(init, id, Idle), locks, init, [], Give(1, 0, Order(a)), View(Served(init, id, one), locks, init));
    es := es + [Give(1, 0, Order(a))];
    SecondSteps(init, es, Served(init, id, one), Served(init, id, Idle), locks, init, [], Give(2, 0, Order(b)), View(Served(init, id, two), locks, init));
    es := es + [Give(2, 0, Order(b))];
    var left := Writer(map[], NoVis()[id := true], Leaving(id));
    assert Close(map[0 := Ordering(id, init[id])], 0) == map[];
    var file := init[id := Plus(init[id], a)];
    FirstSteps(init, es, Served(init, id, one), Served(init, id, two), locks, init, [], Store(1), View(left, locks, file));
    es := es + [Store(1)];
    SecondSteps(init, es, left, Served(init, id, two), locks, file, [] + [(id, a)], Store(2), View(left, locks, file[id := Plus(init[id], b)]));
    es := es + [Store(2)];
  }

  // ---------- a client that leaves before giving an id ----------

  lemma ZeroServed(init: File) returns (es: seq<Event>)
    ensures Leads(init, es, Two(Served(init, 0, Idle), Writer(map[], NoVis(), Idle), map[(1, 0) := Exclusive], init, []))
  {
    var idle := Writer(map[], NoVis(), Idle);
    var locks := map[(1, 0) := Exclusive];
    Opened(init);
    FirstSteps(init, [], idle, idle, map[], init, [], Accept(1, 0), View(Asked(Idle), map[], init));
    es := [] + [Accept(1, 0)];
    FirstSteps(init, es, Asked(Idle), idle, map[], init, [], GiveId(1, 0, 6, FIRST_ID), View(Asked(Granted(0, 0)), map[], init));
    es := es + [GiveId(1, 0, 6, FIRST_ID)];
    FirstSteps(init, es, Asked(Granted(0, 0)), idle, map[], init, [], SetLock(1), View(Asked(Locking(0, 0)), locks, init));
    es := es + [SetLock(1)];
    assert map[0 := Asking][0 := Ordering(0, init[0])] == map[0 := Ordering(0, init[0])];
    FirstSteps(init, es, Asked(Locking(0, 0)), idle, locks, init, [], Show(1), View(Served(init, 0, Idle), locks, init));
    es := es + [Show(1)];
  }

  /** The first server still serves record 0 on connection 0, with nothing to show for it. */
  function Bare(init: File): Process {
    Writer(map[0 := Ordering(0, init[0])], NoVis(), Idle)
  }

  lemma LockDropped(init: File) returns (es: seq<Event>)
    ensures Leads(init, es, Two(Bare(init), Writer(map[], NoVis(), Idle), map[], init, []))
  {
    es := ZeroServed(init);
    var idle := Writer(map[], NoVis(), Idle);
    var locks := map[(1, 0) := Exclusive];
    var both := Writer(map[0 := Ordering(0, init[0]), 1 := Asking], NoVis()[0 := true], Idle);
    assert map[0 := Ordering(0, init[0])][1 := Asking] == map[0 := Ordering(0, init[0]), 1 := Asking];
    FirstSteps(init, es, Served(init, 0, Idle), idle, locks, init, [], Accept(1, 1), View(both, locks, init));
    es := es + [Accept(1, 1)];
    assert Close(both.sessions, 1) == Bare(init).sessions && NoVis()[0 := true][0 := false] == NoVis();
    assert Unlocked(locks, 1, 0) == map[];
    FirstSteps(init, es, both, idle, locks, init, [], Eof(1, 1), View(Bare(init), map[], init));
    es := es + [Eof(1, 1)];
  }

  /** While the first server serves record 0, another of its clients hangs up unasked: the lock
      is gone, and the second server is granted the record that is still being served. */
  lemma EarlyEofFreesRecordZero(init: File) returns (es: seq<Event>)
    ensures Leads(init, es, Two(Bare(init), Asked(Granted(0, 0)), map[], init, []))
  {
    es := LockDropped(init);
    SecondSteps(init, es, Bare(init), Writer(map[], NoVis(), Idle), map[], init, [], Accept(2, 0), View(Asked(Idle), map[], init));
    es := es + [Accept(2, 0)];
    SecondSteps(init, es, Bare(init), Asked(Idle), map[], init, [], GiveId(2, 0, 6, FIRST_ID), View(Asked(Granted(0, 0)), map[], init));
    es := es + [GiveId(2, 0, 6, FIRST_ID)];
  }
}
