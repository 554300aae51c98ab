/** How long a ready thread waits in a run of the whole program, whatever signals and data come. */
module ThreadWaiting {
  import opened Bags
  import opened Scheduler
  import opened SchedulerRuns
  import opened ThreadBodies
  import opened ThreadSystem

  // ---------- runs ----------

  predicate Legal(s: System, es: seq<Event>)
    decreases |es|
  {
    es == [] || (Enabled(s, es[0]) && Legal(Next(s, es[0]), es[1..]))
  }

  /** With which code a step jumps into `scheduler`; `Entry` if it does not. */
  function JumpAt(s: System, e: Event): Where
    requires Enabled(s, e)
  {
    match e
    case Go(signal) =>
      var r := s.threads[Current(s)];
      (match Turn(r.regs, NextInput(r)).next
       case MayYield => if signal then YIELD else Entry
       case MustRead => AREAD
       case MustExit => EXIT)
    case _ => Entry
  }

  /** The jumps of a run, and those of them that are YIELDs. */
  function Jumps(s: System, es: seq<Event>): nat
    requires Legal(s, es)
    decreases |es|
  {
    if es == [] then 0 else (if JumpAt(s, es[0]) != Entry then 1 else 0) + Jumps(Next(s, es[0]), es[1..])
  }

  function Yields(s: System, es: seq<Event>): nat
    requires Legal(s, es)
    decreases |es|
  {
    if es == [] then 0 else (if JumpAt(s, es[0]) == YIELD then 1 else 0) + Yields(Next(s, es[0]), es[1..])
  }

  /** The thread is not RUNNING in any state of the run. */
  predicate PassedOver(s: System, es: seq<Event>, t: Thread)
    requires Legal(s, es)
    decreases |es|
  {
    Current(s) != t && (es == [] || PassedOver(Next(s, es[0]), es[1..], t))
  }

  // ---------- one step ----------

  lemma {:induction false} NonePicked(s: seq<Thread>)
    ensures Picked(s, {}) == [] && Others(s, {}) == s
  {
    if s != [] {
      NonePicked(s[1..]);
      assert s == [s[0]] + s[1..];
    }
  }

  function LiveSize(q: Queues): nat {
    |q.ready| + |q.waiting|
  }

  lemma SwitchedSize(q: Queues, where: Where)
    requires where != Entry ==> q.cur < |q.ready|
    ensures LiveSize(Switched(q, where)) == LiveSize(q) - (if where == EXIT then 1 else 0)
  {
  }

  /** A jump while another thread than RUNNING is ready: that thread stays ready. */
  lemma JumpApproaches(s: System, where: Where, p: nat) returns (p': nat)
    requires where != Entry && s.q.cur < |s.q.ready| && p < |s.q.ready| && p != s.q.cur
    ensures var s' := Jump(s, where);
      && s'.q.cur < |s'.q.ready| && p' < |s'.q.ready| && s'.q.ready[p'] == s.q.ready[p]
      && Distance(s'.q, p') + (if where == YIELD then 1 else 0) <= Distance(s.q, p)
      && LiveSize(s'.q) == LiveSize(s.q) - (if where == EXIT then 1 else 0)
  {
    var pass := Pass(where, Readable(s), {});
    PassApproaches(s.q, pass, p);
    p' := SchedulerRuns.Pos(s.q, pass, p);
    var w := Woken(s.q, Readable(s));
    WokenSize(s.q, Readable(s));
    SwitchedSize(w, where);
    NonePicked(Switched(w, where).waiting);
    assert Passed(s.q, pass) == Switched(w, where);
  }

  /** What a step means for a ready thread that is not RUNNING. */
  ghost predicate Approaches(s: System, e: Event, s': System, p: nat, p': nat)
    requires Enabled(s, e) && s.q.cur < |s.q.ready| && p < |s.q.ready|
  {
    && s'.q.cur < |s'.q.ready| && p' < |s'.q.ready| && s'.q.ready[p'] == s.q.ready[p]
    && Distance(s'.q, p') + (if JumpAt(s, e) == YIELD then 1 else 0) <= Distance(s.q, p)
    && LiveSize(s'.q) == LiveSize(s.q) - (if JumpAt(s, e) == EXIT then 1 else 0)
    && (JumpAt(s, e) == Entry ==> s'.q == s.q && p' == p)
  }

  lemma StepApproaches(spec: Spec, s: System, e: Event, p: nat) returns (p': nat)
    requires Sound(spec, s) && Enabled(s, e) && s.q.cur < |s.q.ready| && p < |s.q.ready| && p != s.q.cur
    ensures Approaches(s, e, Next(s, e), p, p')
  {
    p' := p;
    if JumpAt(s, e) != Entry {
      var r := s.threads[Current(s)];
      p' := JumpApproaches(s.(threads := s.threads[Current(s) := TakeTurn(r)]), JumpAt(s, e), p);
    }
  }

  lemma DistanceBelow(q: Queues, p: nat)
    requires q.cur < |q.ready| && p < |q.ready| && p != q.cur
    ensures 0 < Distance(q, p) < LiveSize(q)
  {
  }

  // ---------- at most as many YIELDs as live threads, less one ----------

  lemma {:induction false} PassedOverYields(spec: Spec, s: System, es: seq<Event>, p: nat)
    requires Sound(spec, s) && Legal(s, es) && s.q.cur < |s.q.ready| && p < |s.q.ready|
    requires PassedOver(s, es, s.q.ready[p])
    ensures Yields(s, es) < Distance(s.q, p) < LiveSize(s.q)
    decreases |es|
  {
    DistanceBelow(s.q, p);
    if es != [] {
      var p' := StepApproaches(spec, s, es[0], p);
      StepKeeps(spec, s, es[0]);
      PassedOverYields(spec, Next(s, es[0]), es[1..], p');
    }
  }

  lemma StepLive(s: System, e: Event)
    requires Enabled(s, e)
    ensures LiveSize(Next(s, e).q) <= LiveSize(s.q)
  {
    match e
    case Arrive(_, _) =>
    case Unblock => WokenSize(s.q, Readable(s));
    case Go(_) =>
      if JumpAt(s, e) != Entry {
        var r := s.threads[Current(s)];
        var s' := s.(threads := s.threads[Current(s) := TakeTurn(r)]);
        WokenSize(s'.q, Readable(s'));
        SwitchedSize(Woken(s'.q, Readable(s')), JumpAt(s, e));
      }
  }

  lemma {:induction false} ReachedLive(spec: Spec, n: nat, s: System)
    requires Reached(spec, n, s)
    ensures LiveSize(s.q) <= |spec|
  {
    if n == 0 {
      CreatedLive(spec);
    } else {
      var s0, e :| Reached(spec, n - 1, s0) && Enabled(s0, e) && s == Next(s0, e);
      ReachedLive(spec, n - 1, s0);
      StepLive(s0, e);
    }
  }

  lemma {:induction false} CreatedLive(spec: Spec)
    ensures LiveSize(ThreadSystem.Created(spec).q) == |spec|
  {
    if spec != [] {
      CreatedLive(spec[..|spec| - 1]);
    }
  }

  /** From every reachable state: by the time as many YIELDs have happened as there are threads,
      less one, every thread that was ready has been RUNNING. */
  lemma YieldsBoundWaiting(spec: Spec, n: nat, s: System, t: Thread, es: seq<Event>)
    requires Reached(spec, n, s) && t in s.q.ready && Legal(s, es)
    requires Yields(s, es) >= |spec| - 1
    ensures !PassedOver(s, es, t)
  {
    ReachedSound(spec, n, s);
    ReachedLive(spec, n, s);
    if PassedOver(s, es, t) {
      var p :| 0 <= p < |s.q.ready| && s.q.ready[p] == t;
      PassedOverYields(spec, s, es, p);
    }
  }

  // ---------- with one reader, any jumps ----------

  predicate Reads(s: System, t: Thread) {
    t in s.threads && s.threads[t].regs.body == MaxSubarray
  }

  /** At most one thread of the program ever reads. */
  predicate OneReader(spec: Spec) {
    forall i, j | 0 <= i < |spec| && 0 <= j < |spec| && spec[i].0 == spec[j].0 == MaxSubarray :: i == j
  }

  lemma OnlyReader(spec: Spec, s: System, t: Thread, u: Thread)
    requires OneReader(spec) && Sound(spec, s) && Reads(s, t) && Reads(s, u)
    ensures t == u
  {
    assert s.threads[t].regs.body == spec[t - 1].0 && s.threads[u].regs.body == spec[u - 1].0;
  }

  lemma AreadWaits(s: System, e: Event)
    requires Enabled(s, e) && JumpAt(s, e) == AREAD
    ensures Reads(s, Current(s)) && Reads(Next(s, e), Current(s)) && Current(s) in Next(s, e).q.waiting
  {
  }

  /** Right after AREAD the reader waits, so RUNNING is another thread. */
  lemma ReaderWaits(spec: Spec, s: System, e: Event)
    requires OneReader(spec) && Sound(spec, s) && Enabled(s, e) && JumpAt(s, e) == AREAD
    requires Next(s, e).q.cur < |Next(s, e).q.ready|
    ensures Reads(s, Current(s)) && !Reads(Next(s, e), Current(Next(s, e)))
  {
    var s', t := Next(s, e), Current(s);
    AreadWaits(s, e);
    StepKeeps(spec, s, e);
    WaitingNotReady(spec, s', t);
    assert Current(s') in s'.q.ready;
    if Reads(s', Current(s')) {
      OnlyReader(spec, s', t, Current(s'));
    }
  }

  lemma WaitingNotReady(spec: Spec, s: System, t: Thread)
    requires Sound(spec, s) && t in s.q.waiting
    ensures t !in s.q.ready
  {
    assert Count(Live(s.q), t) <= 1;
    CountAppend(s.q.ready, s.q.waiting, t);
    CountMember(s.q.ready, t);
    CountMember(s.q.waiting, t);
  }

  /** What the remaining jumps are paid from: each YIELD and each EXIT pays for itself and for one
      AREAD, which only the reader can make and which makes somebody else RUNNING. */
  function Credit(s: System, p: nat): nat
    requires s.q.cur < |s.q.ready| && p < |s.q.ready|
  {
    2 * (Distance(s.q, p) + LiveSize(s.q)) + (if Reads(s, Current(s)) then 1 else 0)
  }

  lemma JumpPays(spec: Spec, s: System, e: Event, p: nat, p': nat)
    requires OneReader(spec) && Sound(spec, s) && Enabled(s, e)
    requires s.q.cur < |s.q.ready| && p < |s.q.ready| && Approaches(s, e, Next(s, e), p, p')
    ensures Credit(Next(s, e), p') + (if JumpAt(s, e) != Entry then 1 else 0) <= Credit(s, p)
  {
    if JumpAt(s, e) == AREAD {
      ReaderWaits(spec, s, e);
    } else if JumpAt(s, e) == Entry {
      SameReader(s, e);
    }
  }

  lemma SameReader(s: System, e: Event)
    requires Enabled(s, e) && JumpAt(s, e) == Entry && Next(s, e).q == s.q && s.q.cur < |s.q.ready|
    ensures Reads(Next(s, e), Current(Next(s, e))) <==> Reads(s, Current(s))
  {
  }

  lemma {:induction false} PassedOverJumps(spec: Spec, s: System, es: seq<Event>, p: nat)
    requires OneReader(spec) && Sound(spec, s) && Legal(s, es) && s.q.cur < |s.q.ready| && p < |s.q.ready|
    requires PassedOver(s, es, s.q.ready[p])
    ensures Jumps(s, es) <= Credit(s, p)
    decreases |es|
  {
    if es != [] {
      var p' := StepApproaches(spec, s, es[0], p);
      JumpPays(spec, s, es[0], p, p');
      StepKeeps(spec, s, es[0]);
      PassedOverJumps(spec, Next(s, es[0]), es[1..], p');
    }
  }

  /** From every reachable state of a program with at most one reading thread, as main.c makes it:
      within four jumps per thread, of whatever kind, every ready thread has been RUNNING. */
  lemma JumpsBoundWaiting(spec: Spec, n: nat, s: System, t: Thread, es: seq<Event>)
    requires OneReader(spec) && Reached(spec, n, s) && t in s.q.ready && Legal(s, es)
    requires Jumps(s, es) >= 4 * |spec|
    ensures !PassedOver(s, es, t)
  {
    ReachedSound(spec, n, s);
    ReachedLive(spec, n, s);
    if PassedOver(s, es, t) {
      var p :| 0 <= p < |s.q.ready| && s.q.ready[p] == t;
      PassedOverYields(spec, s, es, p);
      PassedOverJumps(spec, s, es, p);
    }
  }

  /** What `init_threads` starts: one thread of each kind whose argument is not negative. */
  function InitThreads(fib: int, col: int, sub: int): Spec {
    (if fib >= 0 then [(Fibonacci, fib)] else [])
    + (if col >= 0 then [(Collatz, col)] else [])
    + (if sub >= 0 then [(MaxSubarray, sub)] else [])
  }

  /** At most three threads, in this order, and of each kind one just when its argument allows it. */
  lemma InitThreadsExact(fib: int, col: int, sub: int, body: Body, arg: int)
    ensures var spec := InitThreads(fib, col, sub);
      && |spec| <= 3 < THREAD_MAX
      && ((body, arg) in spec <==> arg >= 0 && arg == match body case Fibonacci => fib case Collatz => col case MaxSubarray => sub)
      && (forall i, j | 0 <= i < j < |spec| :: spec[i].0 != spec[j].0 && spec[i].0 != MaxSubarray && spec[j].0 != Fibonacci)
  {
  }

  /** The program as main.c starts it has one reader at most: within twelve jumps every ready
      thread has been RUNNING, whatever signals and data come. */
  lemma MainBoundsWaiting(fib: int, col: int, sub: int, n: nat, s: System, t: Thread, es: seq<Event>)
    requires Reached(InitThreads(fib, col, sub), n, s) && t in s.q.ready && Legal(s, es)
    requires Jumps(s, es) >= 12
    ensures !PassedOver(s, es, t)
  {
    JumpsBoundWaiting(InitThreads(fib, col, sub), n, s, t, es);
  }

  // ---------- with two readers, no bound ----------

  /** A reader that has read all there is. */
  predicate Drained(s: System, t: Thread, a: int) {
    && t in s.threads
    && var r := s.threads[t];
       r.regs.body == MaxSubarray && r.regs.arg == a && r.taken == |r.pipe|
  }

  /** Thread 1 is ready; `x` is RUNNING and about to read, `y` waits for input; neither has gone
      through its loop more than `k` times. */
  predicate Starving(s: System, x: Thread, y: Thread, a: int, k: nat) {
    && s.mode == Running && s.q == Queues([1, x], 1, [y])
    && x != 1 && y != 1 && x != y && x != NULL && y != NULL
    && Drained(s, x, a) && Drained(s, y, a)
    && s.threads[x].regs.point in {Point.Created, AtYield} && (s.threads[x].regs.point == AtYield ==> 0 <= s.threads[x].regs.i <= k)
    && s.threads[y].regs.point == InRead && 0 < s.threads[y].regs.i <= k
  }

  lemma ConsRun(s: System, e: Event, es: seq<Event>)
    requires Enabled(s, e) && Legal(Next(s, e), es)
    ensures Legal(s, [e] + es)
    ensures Jumps(s, [e] + es) == (if JumpAt(s, e) != Entry then 1 else 0) + Jumps(Next(s, e), es)
    ensures Yields(s, [e] + es) == (if JumpAt(s, e) == YIELD then 1 else 0) + Yields(Next(s, e), es)
    ensures forall t :: PassedOver(s, [e] + es, t) <==> Current(s) != t && PassedOver(Next(s, e), es, t)
  {
    assert ([e] + es)[1..] == es;
  }

  /** Input for the waiting reader comes, then RUNNING reads: the two change places. */
  lemma ReadersSwap(s: System, x: Thread, y: Thread, a: int, k: nat) returns (s1: System, s2: System)
    requires Starving(s, x, y, a, k)
    ensures Enabled(s, Arrive(y, 0)) && s1 == Next(s, Arrive(y, 0)) && Enabled(s1, Go(false)) && s2 == Next(s1, Go(false))
    ensures Current(s) == Current(s1) == x && JumpAt(s1, Go(false)) == AREAD
    ensures s2.mode == Running && s2.q == Queues([1, y], 1, [x])
    ensures Drained(s2, x, a) && s2.threads[x].regs.point == InRead && 0 < s2.threads[x].regs.i <= k + 1
    ensures y in s2.threads && s2.threads[y] == s.threads[y].(pipe := s.threads[y].pipe + [0])
  {
    s1 := Next(s, Arrive(y, 0));
    s2 := Next(s1, Go(false));
    var t := s1.(threads := s1.threads[x := TakeTurn(s1.threads[x])]);
    assert Readable(t) == {y};
    assert [y][1..] == [];
    assert Picked([y], {y}) == [y] && Others([y], {y}) == [];
    assert Woken(t.q, {y}) == Queues([1, x, y], 1, []);
  }

  /** Then the one that is RUNNING now takes its input, with no signal pending. */
  lemma ReaderTakes(s: System, x: Thread, y: Thread, a: int, k: nat) returns (s': System)
    requires s.mode == Running && s.q == Queues([1, y], 1, [x]) && x != 1 && y != 1 && x != y && x != NULL && y != NULL
    requires Drained(s, x, a) && s.threads[x].regs.point == InRead && 0 < s.threads[x].regs.i <= k + 1
    requires y in s.threads && var r := s.threads[y];
      r.regs.body == MaxSubarray && r.regs.arg == a != r.regs.i && r.taken + 1 == |r.pipe| && r.regs.point == InRead && 0 < r.regs.i <= k
    ensures Enabled(s, Go(false)) && s' == Next(s, Go(false)) && JumpAt(s, Go(false)) == Entry && Current(s) == y
    ensures Starving(s', y, x, a, k + 1)
  {
    s' := Next(s, Go(false));
  }

  /** Two readers that hand the slot to each other `n` times. */
  lemma {:induction false} ReadersGoOn(s: System, x: Thread, y: Thread, a: int, k: nat, n: nat) returns (es: seq<Event>)
    requires Starving(s, x, y, a, k) && (a <= 0 || a > k + n)
    ensures Legal(s, es) && PassedOver(s, es, 1) && Jumps(s, es) == n && Yields(s, es) == 0
    decreases n
  {
    es := [];
    if n > 0 {
      var s1, s2 := ReadersSwap(s, x, y, a, k);
      var s3 := ReaderTakes(s2, x, y, a, k);
      es := ReadersGoOn(s3, y, x, a, k + 1, n - 1);
      ConsRun(s2, Go(false), es);
      ConsRun(s1, Go(false), [Go(false)] + es);
      ConsRun(s, Arrive(y, 0), [Go(false)] + ([Go(false)] + es));
      es := [Arrive(y, 0)] + ([Go(false)] + ([Go(false)] + es));
    }
  }

  lemma CreatedOfThree(a: (Body, int), b: (Body, int), c: (Body, int))
    ensures var s := ThreadSystem.Created([a, b, c]);
      s.q == Queues([1, 2, 3], 0, []) && s.mode == Running
      && s.threads == map[1 := NewRecord(a), 2 := NewRecord(b), 3 := NewRecord(c)]
  {
    assert [a, b, c][..2] == [a, b] && [a, b][..1] == [a] && [a][..0] == [];
    assert ThreadSystem.Created([]) == System(Queues([], 0, []), map[], Finished);
    assert ThreadSystem.Created([a]).q.ready == [1] && ThreadSystem.Created([a]).threads == map[1 := NewRecord(a)];
    assert ThreadSystem.Created([a, b]).q.ready == [1, 2] && ThreadSystem.Created([a, b]).threads == map[1 := NewRecord(a), 2 := NewRecord(b)];
  }

  /** With a Fibonacci thread and two readers: the first thread is switched out once, and then the
      readers can make any number of jumps while it stays ready and is never RUNNING. */
  lemma TwoReadersStarve(f: int, a: int, n: nat) returns (s: System, es: seq<Event>)
    requires f != 1 && (a <= 0 || a > 1 + n)
    ensures Reached([(Fibonacci, f), (MaxSubarray, a), (MaxSubarray, a)], 2, s) && 1 in s.q.ready
    ensures Legal(s, es) && Jumps(s, es) == n && PassedOver(s, es, 1)
  {
    var spec := [(Fibonacci, f), (MaxSubarray, a), (MaxSubarray, a)];
    var s0 := ThreadSystem.Created(spec);
    CreatedOfThree(spec[0], spec[1], spec[2]);
    var s1 := Next(s0, Go(true));
    assert s1.q == Queues([1, 2, 3], 1, []);
    s := Next(s1, Go(false));
    assert s.q == Queues([1, 3], 1, [2]);
    assert Reached(spec, 0, s0);
    assert Reached(spec, 1, s1);
    assert Reached(spec, 2, s);
    es := ReadersGoOn(s, 3, 2, a, 1, n);
  }
}
