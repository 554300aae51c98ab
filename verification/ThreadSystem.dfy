/** The whole thread program as a state machine: the environment chooses the signals and when
    data arrives, and every choice is a run. */
module ThreadSystem {
  import opened Bags
  import opened Scheduler
  import opened SchedulerRuns
  import opened ThreadBodies

  /** A thread with what it was started with, what it printed, and its pipe: everything ever
      written to it, of which the first `taken` numbers were read. */
  datatype Record = Record(arg0: int, regs: Regs, printed: seq<int>, pipe: seq<int>, taken: nat)

  datatype Mode = Running | Blocked | Finished

  datatype System = System(q: Queues, threads: map<Thread, Record>, mode: Mode)

  /** The environment's moves: a number arrives, RUNNING takes a turn and a signal is or is not
      pending when it offers to yield, the blocking `select` comes back. */
  datatype Event = Arrive(t: Thread, v: int) | Go(signal: bool) | Unblock

  // ---------- steps ----------

  predicate HasData(threads: map<Thread, Record>, t: Thread) {
    t in threads && threads[t].taken < |threads[t].pipe|
  }

  /** What `select` reports for the waiting queue. */
  function Readable(s: System): set<Thread> {
    set t | t in s.q.waiting && HasData(s.threads, t)
  }

  function ModeOf(q: Queues): Mode {
    if q.ready != [] then Running else if q.waiting != [] then Blocked else Finished
  }

  /** A jump into `scheduler`, up to the point where it resumes a thread, blocks or returns. */
  function Jump(s: System, where: Where): System
    requires where != Entry ==> s.q.cur < |s.q.ready|
  {
    var q := Switched(Woken(s.q, Readable(s)), where);
    s.(q := q, mode := ModeOf(q))
  }

  /** RUNNING, which exists whenever the mode says so. */
  function Current(s: System): Thread {
    if s.q.cur < |s.q.ready| then s.q.ready[s.q.cur] else NULL
  }

  /** The number an interrupted `async_read` will find; there must be one. */
  function NextInput(r: Record): int {
    if r.taken < |r.pipe| then r.pipe[r.taken] else 0
  }

  predicate Enabled(s: System, e: Event) {
    match e
    case Arrive(t, _) => t in s.threads && s.threads[t].regs.point != Freed && s.mode != Finished
    case Go(_) =>
      && s.mode == Running && s.q.cur < |s.q.ready| && Current(s) in s.threads
      && s.threads[Current(s)].regs.point != Freed
      && (s.threads[Current(s)].regs.point == InRead ==> HasData(s.threads, Current(s)))
    case Unblock => s.mode == Blocked && Readable(s) != {}
  }

  function TakeTurn(r: Record): Record
    requires r.regs.point != Freed
  {
    var t := Turn(r.regs, NextInput(r));
    r.(regs := t.regs, printed := Appended(r.printed, t.output),
       taken := if r.regs.point == InRead then r.taken + 1 else r.taken)
  }

  function Next(s: System, e: Event): System
    requires Enabled(s, e)
  {
    match e
    case Arrive(t, v) =>
      s.(threads := s.threads[t := s.threads[t].(pipe := s.threads[t].pipe + [v])])
    case Go(signal) =>
      var r := s.threads[Current(s)];
      var s' := s.(threads := s.threads[Current(s) := TakeTurn(r)]);
      (match Turn(r.regs, NextInput(r)).next
       case MayYield => if signal then Jump(s', YIELD) else s'
       case MustRead => Jump(s', AREAD)
       case MustExit => Jump(s', EXIT))
    case Unblock =>
      var q := Woken(s.q, Readable(s));
      s.(q := q, mode := ModeOf(q))
  }

  /** What `init_threads` starts: a body and its argument per thread. */
  type Spec = seq<(Body, int)>

  function NewRecord(spec: (Body, int)): Record {
    Record(spec.1, Regs(spec.0, spec.1, 0, 0, 0, Point.Created), [], [], 0)
  }

  /** One `thread_setup` after the other, then the first call of `scheduler`. */
  function Created(spec: Spec): System {
    if spec == [] then System(Queues([], 0, []), map[], Finished)
    else
      var n := |spec|;
      var s := Created(spec[..n - 1]);
      System(s.q.(ready := s.q.ready + [n]), s.threads[n := NewRecord(spec[n - 1])], Running)
  }

  ghost predicate Reached(spec: Spec, n: nat, s: System) {
    if n == 0 then s == Created(spec)
    else exists s0, e :: Reached(spec, n - 1, s0) && Enabled(s0, e) && s == Next(s0, e)
  }

  // ---------- the invariant ----------

  /** The queues hold exactly the threads that have not exited, each of them once. */
  ghost predicate Accounted(s: System) {
    && CurrentInRange(s.q)
    && s.mode == ModeOf(s.q)
    && forall t :: Count(Live(s.q), t) == if t in s.threads && s.threads[t].regs.point != Freed then 1 else 0
  }

  /** Waiting threads are inside `async_read`; a ready one that is has something to read. */
  ghost predicate ReadersFed(s: System) {
    && (forall t | t in s.q.waiting :: t in s.threads && s.threads[t].regs.point == InRead)
    && (forall t | t in s.q.ready && t in s.threads && s.threads[t].regs.point == InRead :: HasData(s.threads, t))
  }

  ghost predicate RecordFaithful(r: Record) {
    r.taken <= |r.pipe| && Faithful(r.arg0, r.regs, r.printed, if r.regs.body == MaxSubarray then r.pipe[..r.taken] else [])
  }

  ghost predicate Sound(spec: Spec, s: System) {
    && Accounted(s) && ReadersFed(s)
    && (forall t :: t in s.threads <==> 1 <= t <= |spec|)
    && (forall t | t in s.threads :: RecordFaithful(s.threads[t]))
    && (forall t | t in s.threads :: (s.threads[t].regs.body, s.threads[t].arg0) == spec[t - 1])
  }

  /** Setting up one more thread. */
  lemma SetupSound(spec: Spec, s: System, s': System)
    requires spec != [] && Sound(spec[..|spec| - 1], s) && s.q.cur == 0 && s.q.waiting == []
    requires s' == System(s.q.(ready := s.q.ready + [|spec|]), s.threads[|spec| := NewRecord(spec[|spec| - 1])], Running)
    ensures Sound(spec, s')
  {
    var n := |spec|;
    StartsFaithful(spec[n - 1].0, spec[n - 1].1, 0);
    assert RecordFaithful(s'.threads[n]);
    forall t ensures Count(Live(s'.q), t) == if t in s'.threads && s'.threads[t].regs.point != Freed then 1 else 0 {
      assert Live(s.q) == s.q.ready && Live(s'.q) == s.q.ready + [n];
      assert Count(Live(s.q), t) == if t in s.threads && s.threads[t].regs.point != Freed then 1 else 0;
      assert [n][1..] == [];
      CountAppend(s.q.ready, [n], t);
    }
  }

  lemma {:induction false} CreatedSound(spec: Spec)
    ensures Sound(spec, Created(spec)) && Created(spec).q.cur == 0 && Created(spec).q.waiting == []
  {
    if spec != [] {
      CreatedSound(spec[..|spec| - 1]);
      SetupSound(spec, Created(spec[..|spec| - 1]), Created(spec));
    }
  }

  // ---------- the scheduler's part of a step ----------

  /** Between a thread's jump and the scheduler's switch: RUNNING alone may be out of order, by
      having been freed or by having to read without data. */
  ghost predicate Jumping(s: System, where: Where) {
    && s.q.cur < |s.q.ready|
    && (forall t :: Count(Live(s.q), t) == if t in s.threads && (s.threads[t].regs.point != Freed || (where == EXIT && t == Current(s))) then 1 else 0)
    && Current(s) in s.threads
    && (where == EXIT <==> s.threads[Current(s)].regs.point == Freed)
    && (where == AREAD ==> s.threads[Current(s)].regs.point == InRead)
    && (forall t | t in s.q.waiting :: t in s.threads && s.threads[t].regs.point == InRead)
    && (forall t | t in s.q.ready && t in s.threads && s.threads[t].regs.point == InRead && !(where == AREAD && t == Current(s)) :: HasData(s.threads, t))
  }

  lemma JumpAccounts(s: System, where: Where)
    requires where != Entry && Jumping(s, where)
    ensures Accounted(Jump(s, where))
  {
    var s' := Jump(s, where);
    var w := Woken(s.q, Readable(s));
    forall t ensures Count(Live(s'.q), t) == if t in s'.threads && s'.threads[t].regs.point != Freed then 1 else 0 {
      WokenCount(s.q, Readable(s), t);
      SwitchedCount(w, where, t);
      assert Count(Live(s.q), t) == if t in s.threads && (s.threads[t].regs.point != Freed || (where == EXIT && t == Current(s))) then 1 else 0;
    }
  }

  lemma PartsMembers(s: seq<Thread>, isSet: set<Thread>, t: Thread)
    ensures t in Picked(s, isSet) <==> t in s && t in isSet
    ensures t in Others(s, isSet) <==> t in s && t !in isSet
  {
    PartsCount(s, isSet, t);
    CountMember(s, t);
    CountMember(Picked(s, isSet), t);
    CountMember(Others(s, isSet), t);
  }

  /** After AREAD the thread itself is no longer ready. */
  lemma ReaderLeaves(q: Queues, t: Thread)
    requires q.cur < |q.ready| && t == q.ready[q.cur] && Count(q.ready, t) == 1
    ensures t !in WithoutRunning(q).ready
  {
    WithoutRunningCount(q, t);
    CountMember(WithoutRunning(q).ready, t);
  }

  lemma OnceReady(s: System, w: Queues, t: Thread)
    requires w.ready == s.q.ready + Picked(s.q.waiting, Readable(s)) && t in s.q.ready && Count(Live(s.q), t) == 1
    ensures Count(w.ready, t) == 1
  {
    CountAppend(s.q.ready, s.q.waiting, t);
    CountMember(s.q.ready, t);
    PartsCount(s.q.waiting, Readable(s), t);
    CountAppend(s.q.ready, Picked(s.q.waiting, Readable(s)), t);
  }

  lemma JumpFeeds(s: System, where: Where)
    requires where != Entry && Jumping(s, where)
    ensures ReadersFed(Jump(s, where))
  {
    var s' := Jump(s, where);
    var w := Woken(s.q, Readable(s));
    assert w.ready[w.cur] == Current(s);
    forall t | t in s'.q.waiting ensures t in s'.threads && s'.threads[t].regs.point == InRead {
      PartsMembers(s.q.waiting, Readable(s), t);
    }
    forall t | t in s'.q.ready && t in s'.threads && s'.threads[t].regs.point == InRead
      ensures HasData(s'.threads, t)
    {
      assert t in w.ready;
      PartsMembers(s.q.waiting, Readable(s), t);
      if where == AREAD && t == Current(s) {
        assert Count(Live(s.q), t) == 1;
        OnceReady(s, w, t);
        ReaderLeaves(w, t);
      }
    }
  }

  // ---------- every step keeps the invariant ----------

  lemma TurnFaithful(r: Record)
    requires RecordFaithful(r) && r.regs.point != Freed
    requires r.regs.point == InRead ==> r.taken < |r.pipe|
    ensures RecordFaithful(TakeTurn(r))
    ensures TakeTurn(r).regs.body == r.regs.body
  {
    match r.regs.body
    case Fibonacci => FibonacciTurnFaithful(r.arg0, r.regs, r.printed);
    case Collatz => CollatzTurnFaithful(r.arg0, r.regs, r.printed);
    case MaxSubarray =>
      MaxSubarrayTurnFaithful(r.arg0, r.regs, r.printed, r.pipe[..r.taken], NextInput(r));
      if r.regs.point == InRead {
        assert r.pipe[..r.taken + 1] == r.pipe[..r.taken] + [NextInput(r)];
      }
  }

  /** How a turn ends says where its thread will resume. */
  lemma TurnPoint(r: Record)
    requires r.regs.point != Freed
    ensures var t := Turn(r.regs, NextInput(r));
      t.regs.point == match t.next case MayYield => AtYield case MustRead => InRead case MustExit => Freed
  {
  }

  lemma RunningIsOnce(s: System)
    requires Accounted(s) && Enabled(s, Go(false))
    ensures Count(Live(s.q), Current(s)) == 1 && Current(s) !in s.q.waiting
  {
    var t := Current(s);
    CountAppend(s.q.ready, s.q.waiting, t);
    CountMember(s.q.ready, t);
    CountMember(s.q.waiting, t);
  }

  function JumpCode(next: Checkpoint): Where {
    match next case MayYield => YIELD case MustRead => AREAD case MustExit => EXIT
  }

  /** RUNNING's own part of a step leaves the queues ready for the jump that follows. */
  lemma GoJumps(s: System, r': Record, next: Checkpoint)
    requires Accounted(s) && ReadersFed(s) && Enabled(s, Go(false))
    requires r'.regs.point == match next case MayYield => AtYield case MustRead => InRead case MustExit => Freed
    ensures Jumping(s.(threads := s.threads[Current(s) := r']), JumpCode(next))
  {
    RunningIsOnce(s);
  }

  /** The records after RUNNING's turn. */
  ghost predicate RecordsSound(spec: Spec, threads: map<Thread, Record>) {
    && (forall t :: t in threads <==> 1 <= t <= |spec|)
    && (forall t | t in threads :: RecordFaithful(threads[t]))
    && (forall t | t in threads :: (threads[t].regs.body, threads[t].arg0) == spec[t - 1])
  }

  lemma UpdateSound(spec: Spec, threads: map<Thread, Record>, t: Thread, r: Record)
    requires RecordsSound(spec, threads) && t in threads
    requires RecordFaithful(r) && r.regs.body == threads[t].regs.body && r.arg0 == threads[t].arg0
    ensures RecordsSound(spec, threads[t := r])
  {
  }

  lemma GoKeeps(spec: Spec, s: System, signal: bool)
    requires Sound(spec, s) && Enabled(s, Go(signal))
    ensures Sound(spec, Next(s, Go(signal)))
  {
    var t := Current(s);
    var r := s.threads[t];
    TurnFaithful(r);
    UpdateSound(spec, s.threads, t, TakeTurn(r));
    var s' := s.(threads := s.threads[t := TakeTurn(r)]);
    TurnPoint(r);
    GoJumps(s, TakeTurn(r), Turn(r.regs, NextInput(r)).next);
    match Turn(r.regs, NextInput(r)).next
    case MayYield =>
      if signal {
        JumpAccounts(s', YIELD);
        JumpFeeds(s', YIELD);
      }
    case MustRead =>
      JumpAccounts(s', AREAD);
      JumpFeeds(s', AREAD);
    case MustExit =>
      JumpAccounts(s', EXIT);
      JumpFeeds(s', EXIT);
  }

  lemma ArriveKeeps(spec: Spec, s: System, t: Thread, v: int)
    requires Sound(spec, s) && Enabled(s, Arrive(t, v))
    ensures Sound(spec, Next(s, Arrive(t, v)))
  {
    var r := s.threads[t];
    var r' := r.(pipe := r.pipe + [v]);
    assert r'.pipe[..r.taken] == r.pipe[..r.taken];
    UpdateSound(spec, s.threads, t, r');
  }

  lemma UnblockKeeps(spec: Spec, s: System)
    requires Sound(spec, s) && Enabled(s, Unblock)
    ensures Sound(spec, Next(s, Unblock))
  {
    var s' := Next(s, Unblock);
    forall t ensures Count(Live(s'.q), t) == Count(Live(s.q), t) {
      WokenCount(s.q, Readable(s), t);
    }
    forall t | t in s.q.waiting || t in s'.q.waiting || t in s'.q.ready
      ensures t in s'.q.waiting ==> t in s.q.waiting
      ensures t in s'.q.ready ==> t in s.q.ready || HasData(s.threads, t)
    {
      PartsMembers(s.q.waiting, Readable(s), t);
    }
  }

  lemma StepKeeps(spec: Spec, s: System, e: Event)
    requires Sound(spec, s) && Enabled(s, e)
    ensures Sound(spec, Next(s, e))
  {
    match e
    case Arrive(t, v) => ArriveKeeps(spec, s, t, v);
    case Go(signal) => GoKeeps(spec, s, signal);
    case Unblock => UnblockKeeps(spec, s);
  }

  // ---------- whole runs ----------

  lemma {:induction false} ReachedSound(spec: Spec, n: nat, s: System)
    requires Reached(spec, n, s)
    ensures Sound(spec, s)
  {
    if n == 0 {
      CreatedSound(spec);
    } else {
      var s0, e :| Reached(spec, n - 1, s0) && Enabled(s0, e) && s == Next(s0, e);
      ReachedSound(spec, n - 1, s0);
      StepKeeps(spec, s0, e);
    }
  }

  /** Under every schedule of signals and arrivals, each thread prints what it would print alone
      on the same input, up to where it has got; and it has exited exactly when that is all. */
  lemma Noninterference(spec: Spec, n: nat, s: System, t: Thread)
    requires Reached(spec, n, s) && 1 <= t <= |spec|
    ensures t in s.threads
    ensures var (body, arg) := spec[t - 1]; var r := s.threads[t]; var k := |r.printed|;
      match body
      case Fibonacci =>
        && (forall i | 0 <= i < k :: r.printed[i] == Fib(i + 1))
        && (r.regs.point == Freed <==> k == arg >= 1)
      case Collatz =>
        && (forall i | 0 <= i < k :: r.printed[i] == CollatzIter(arg, i + 1))
        && (forall i | 0 <= i < k - 1 :: r.printed[i] != 1)
        && (r.regs.point == Freed <==> k > 0 && r.printed[k - 1] == 1)
      case MaxSubarray =>
        && k == r.taken <= |r.pipe|
        && (forall i | 0 <= i < k :: BestPart(r.pipe[..i + 1], r.printed[i]))
        && (r.regs.point == Freed <==> k == arg >= 1)
  {
    ReachedSound(spec, n, s);
    var r := s.threads[t];
    assert RecordFaithful(r);
    if r.regs.body == MaxSubarray {
      forall i | 0 <= i < |r.printed| ensures BestPart(r.pipe[..i + 1], r.printed[i]) {
        assert r.pipe[..r.taken][..i + 1] == r.pipe[..i + 1];
      }
    }
  }

  /** No freed block is resumed, no read finds its pipe empty, the queues hold exactly the
      threads that have not exited, and the program ends exactly when all of them have. */
  lemma RunningIsFit(spec: Spec, n: nat, s: System)
    requires Reached(spec, n, s)
    ensures s.mode == Running ==> Enabled(s, Go(false)) && Enabled(s, Go(true))
    ensures forall t | 1 <= t <= |spec| :: t in s.threads
    ensures s.mode == Finished <==> forall t | 1 <= t <= |spec| :: s.threads[t].regs.point == Freed
    ensures forall t | 1 <= t <= |spec| :: Count(Live(s.q), t) == if s.threads[t].regs.point == Freed then 0 else 1
  {
    ReachedSound(spec, n, s);
    if s.mode == Running {
      var t := Current(s);
      CountMember(Live(s.q), t);
      assert Count(Live(s.q), t) > 0;
    }
    if s.mode == Finished {
      forall t | 1 <= t <= |spec| ensures s.threads[t].regs.point == Freed {
        assert Count(Live(s.q), t) == 0;
      }
    } else {
      var t := Live(s.q)[0];
      CountMember(Live(s.q), t);
      assert Count(Live(s.q), t) > 0;
    }
  }

  /** The environment is free: a number can arrive for any thread that has not exited, and a blocked
      program goes on exactly when a waiting thread has something to read. */
  lemma EnvironmentIsFree(spec: Spec, n: nat, s: System, t: Thread, v: int)
    requires Reached(spec, n, s) && 1 <= t <= |spec|
    ensures t in s.threads
    ensures s.threads[t].regs.point != Freed ==> Enabled(s, Arrive(t, v))
    ensures s.mode == Blocked && t in s.q.waiting && s.threads[t].taken < |s.threads[t].pipe| ==> Enabled(s, Unblock)
    ensures Enabled(s, Unblock) ==> exists u :: u in s.q.waiting && u in s.threads && s.threads[u].taken < |s.threads[u].pipe|
  {
    ReachedSound(spec, n, s);
    RunningIsFit(spec, n, s);
    if t in s.q.waiting && s.threads[t].taken < |s.threads[t].pipe| {
      assert t in Readable(s);
    }
    if Enabled(s, Unblock) {
      var u :| u in Readable(s);
    }
  }

  /** The jump and the blocking `select` together are one pass of the scheduler's routine. */
  lemma PassOfSystem(s: System, where: Where, arrived: set<Thread>)
    requires where != Entry ==> s.q.cur < |s.q.ready|
    ensures var s' := Jump(s, where);
      Scheduled(s.q, where, Readable(s), arrived) == if s'.mode == Blocked then Woken(s'.q, arrived) else s'.q
  {
  }
}
