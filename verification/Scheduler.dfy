/** The user-level thread scheduler: one pass as a function on queue values, and the
    source's routine on its arrays proved to compute it. */
module Scheduler {
  import opened Bags

  const THREAD_MAX: nat := 16

  /** A pointer to a thread control block; NULL is none of them. */
  type Thread = int

  const NULL: Thread := 0

  /** Why control is in `scheduler`: called, or jumped to with one of the three codes. */
  datatype Where = Entry | YIELD | AREAD | EXIT

  /** How control leaves `scheduler`: it returns, or jumps to RUNNING, which may be NULL. */
  datatype WayOut = Returned | Resumed(running: Thread) | NullRunning

  /** The queues as values: `ready[cur]` is RUNNING. */
  datatype Queues = Queues(ready: seq<Thread>, cur: nat, waiting: seq<Thread>)

  // ---------- specification ----------

  function Picked(s: seq<Thread>, isSet: set<Thread>): seq<Thread> {
    if s == [] then [] else if s[0] in isSet then [s[0]] + Picked(s[1..], isSet) else Picked(s[1..], isSet)
  }

  function Others(s: seq<Thread>, isSet: set<Thread>): seq<Thread> {
    if s == [] then [] else if s[0] in isSet then Others(s[1..], isSet) else [s[0]] + Others(s[1..], isSet)
  }

  /** Every waiting thread in `isSet` becomes ready, both queues keeping their order. */
  function Woken(q: Queues, isSet: set<Thread>): Queues {
    Queues(q.ready + Picked(q.waiting, isSet), q.cur, Others(q.waiting, isSet))
  }

  /** RUNNING leaves the ready queue: the last ready thread takes its slot. */
  function WithoutRunning(q: Queues): Queues
    requires q.cur < |q.ready|
  {
    var last := |q.ready| - 1;
    Queues(q.ready[q.cur := q.ready[last]][..last], if q.cur == last then 0 else q.cur, q.waiting)
  }

  function Switched(q: Queues, where: Where): Queues
    requires where != Entry ==> q.cur < |q.ready|
  {
    match where
    case Entry => q
    case YIELD => q.(cur := if q.cur + 1 == |q.ready| then 0 else q.cur + 1)
    case AREAD => WithoutRunning(q).(waiting := q.waiting + [q.ready[q.cur]])
    case EXIT => WithoutRunning(q)
  }

  /** One pass through `scheduler`: poll, switch, and block when nothing is ready.
      `polled` and `arrived` are what the two calls of `select` report. */
  function Scheduled(q: Queues, where: Where, polled: set<Thread>, arrived: set<Thread>): Queues
    requires where != Entry ==> q.cur < |q.ready|
  {
    var s := Switched(Woken(q, polled), where);
    if s.ready == [] && s.waiting != [] then Woken(s, arrived) else s
  }

  lemma {:induction false} PartsSize(s: seq<Thread>, isSet: set<Thread>)
    ensures |Picked(s, isSet)| + |Others(s, isSet)| == |s|
  {
    if s != [] {
      PartsSize(s[1..], isSet);
    }
  }

  /** A poll wakes threads, but neither makes nor loses one. */
  lemma WokenSize(q: Queues, isSet: set<Thread>)
    ensures |Woken(q, isSet).ready| + |Woken(q, isSet).waiting| == |q.ready| + |q.waiting|
  {
    PartsSize(q.waiting, isSet);
  }

  /** A poll of `q` under way, at the queues `v`: `p` was picked, `o` stays, `rest` is still to be
      looked at. */
  ghost predicate Polling(q: Queues, isSet: set<Thread>, v: Queues, p: seq<Thread>, o: seq<Thread>, rest: seq<Thread>) {
    && v == Queues(q.ready + p, q.cur, o + rest)
    && Picked(q.waiting, isSet) == p + Picked(rest, isSet)
    && Others(q.waiting, isSet) == o + Others(rest, isSet)
  }

  /** Waiting thread `i` becomes the last ready one. */
  function Moved(q: Queues, i: nat): Queues
    requires i < |q.waiting|
  {
    Queues(q.ready + [q.waiting[i]], q.cur, q.waiting[..i] + q.waiting[i + 1..])
  }

  lemma PollMoves(q: Queues, isSet: set<Thread>, v: Queues, p: seq<Thread>, o: seq<Thread>, rest: seq<Thread>)
    requires Polling(q, isSet, v, p, o, rest) && rest != [] && rest[0] in isSet
    ensures v.waiting[|o|] == rest[0]
    ensures Polling(q, isSet, Moved(v, |o|), p + [rest[0]], o, rest[1..])
  {
    AppendNext(p, rest[0], Picked(rest[1..], isSet));
    assert v.waiting[..|o|] + v.waiting[|o| + 1..] == o + rest[1..];
    assert v.ready + [rest[0]] == q.ready + (p + [rest[0]]);
  }

  lemma PollStays(q: Queues, isSet: set<Thread>, v: Queues, p: seq<Thread>, o: seq<Thread>, rest: seq<Thread>)
    requires Polling(q, isSet, v, p, o, rest) && rest != [] && rest[0] !in isSet
    ensures v.waiting[|o|] == rest[0]
    ensures Polling(q, isSet, v, p, o + [rest[0]], rest[1..])
  {
    AppendNext(o, rest[0], Others(rest[1..], isSet));
    assert v.waiting == (o + [rest[0]]) + rest[1..];
  }

  lemma PollEnds(q: Queues, isSet: set<Thread>, v: Queues, p: seq<Thread>, o: seq<Thread>)
    requires Polling(q, isSet, v, p, o, [])
    ensures v == Woken(q, isSet)
  {
  }

  // ---------- what the specification means ----------

  /** Both parts of a waiting queue keep its order, and each entry goes to exactly one. */
  lemma {:induction false} PartsInOrder(s: seq<Thread>, t: seq<Thread>, x: Thread, isSet: set<Thread>)
    ensures Picked(s + t, isSet) == Picked(s, isSet) + Picked(t, isSet)
    ensures Others(s + t, isSet) == Others(s, isSet) + Others(t, isSet)
    ensures Picked([x], isSet) == (if x in isSet then [x] else []) && Others([x], isSet) == (if x in isSet then [] else [x])
  {
    assert [x][1..] == [];
    if s == [] {
      assert s + t == t;
    } else {
      PartsInOrder(s[1..], t, x, isSet);
      assert (s + t)[0] == s[0] && (s + t)[1..] == s[1..] + t;
    }
  }

  /** A switch, slot by slot. YIELD goes round; AREAD and EXIT vacate the slot of RUNNING, which the
      last ready thread then fills, and keep all others where they are; AREAD alone adds to the
      waiting queue, at its end. */
  lemma SwitchPlaces(q: Queues, k: nat)
    requires q.cur < |q.ready| && k < |q.ready| - 1
    ensures Switched(q, YIELD) == q.(cur := if q.cur == |q.ready| - 1 then 0 else q.cur + 1)
    ensures Switched(q, AREAD).ready == Switched(q, EXIT).ready && Switched(q, AREAD).cur == Switched(q, EXIT).cur
    ensures |Switched(q, EXIT).ready| == |q.ready| - 1
    ensures Switched(q, EXIT).ready[k] == if k == q.cur then q.ready[|q.ready| - 1] else q.ready[k]
    ensures Switched(q, EXIT).cur == if q.cur == |q.ready| - 1 then 0 else q.cur
    ensures Switched(q, EXIT).waiting == q.waiting && Switched(q, AREAD).waiting == q.waiting + [q.ready[q.cur]]
  {
  }

  /** The poll comes before the switch: a thread that has just asked to read is not woken by it. */
  lemma PollComesFirst(q: Queues, polled: set<Thread>, arrived: set<Thread>)
    requires q.cur < |q.ready|
    ensures var q' := Scheduled(q, AREAD, polled, arrived);
      q'.ready != [] && |q.ready| + |Picked(q.waiting, polled)| > 1 ==>
        q'.waiting == Others(q.waiting, polled) + [q.ready[q.cur]]
  {
  }

  // ---------- the source's routine, in place ----------

  class Threads {
    const ready_queue: array<Thread>
    const waiting_queue: array<Thread>
    var rq_size: nat
    var rq_current: nat
    var wq_size: nat

    constructor ()
      ensures Valid() && fresh(ready_queue) && fresh(waiting_queue)
      ensures Value() == Queues([], 0, [])
    {
      ready_queue := new Thread[THREAD_MAX](_ => NULL);
      waiting_queue := new Thread[THREAD_MAX](_ => NULL);
      rq_size, rq_current, wq_size := 0, 0, 0;
    }

    /** The slots in use hold threads, the others NULL. */
    ghost predicate Filled(a: array<Thread>, size: nat)
      reads a
    {
      && a.Length == THREAD_MAX && size <= THREAD_MAX
      && (forall k | 0 <= k < size :: a[k] != NULL)
      && (forall k | size <= k < THREAD_MAX :: a[k] == NULL)
    }

    ghost predicate Valid()
      reads this, ready_queue, waiting_queue
    {
      && ready_queue != waiting_queue
      && Filled(ready_queue, rq_size)
      && Filled(waiting_queue, wq_size)
      && rq_size + wq_size <= THREAD_MAX
    }

    ghost function Value(): Queues
      requires Valid()
      reads this, ready_queue, waiting_queue
    {
      Queues(ready_queue[..rq_size], rq_current, waiting_queue[..wq_size])
    }

    /** `thread_setup`: a new thread goes to the end of the ready queue. */
    method ThreadSetup(t: Thread)
      requires Valid() && t != NULL && rq_size + wq_size < THREAD_MAX
      modifies this, ready_queue
      ensures Valid() && Value() == old(Value()).(ready := old(Value()).ready + [t])
    {
      ready_queue[rq_size] := t;
      rq_size := rq_size + 1;
    }

    /** The inner loop of the poll: entry `i` is taken out and the later ones move up. */
    method ShiftOut(i: nat)
      requires ready_queue != waiting_queue && Filled(waiting_queue, wq_size) && i < wq_size
      modifies this`wq_size, waiting_queue
      ensures Filled(waiting_queue, wq_size) && wq_size == old(wq_size) - 1
      ensures waiting_queue[..wq_size] == old(waiting_queue[..i]) + old(waiting_queue[i + 1..wq_size])
    {
      ghost var w := waiting_queue[..];
      var j := i;
      while j < wq_size - 1
        invariant i <= j <= wq_size - 1 && wq_size == old(wq_size)
        invariant forall k | 0 <= k < THREAD_MAX && !(i <= k < j) :: waiting_queue[k] == w[k]
        invariant forall k | i <= k < j :: waiting_queue[k] == w[k + 1]
      {
        waiting_queue[j] := waiting_queue[j + 1];
        j := j + 1;
      }
      wq_size := wq_size - 1;
      waiting_queue[wq_size] := NULL;
    }

    /** The loop body of the poll for the entry at `i`, when its descriptor is set. */
    method MoveToReady(i: nat)
      requires Valid() && i < wq_size
      modifies this`rq_size, this`wq_size, ready_queue, waiting_queue
      ensures Valid() && Value() == Moved(old(Value()), i)
    {
      ready_queue[rq_size] := waiting_queue[i];
      rq_size := rq_size + 1;
      ShiftOut(i);
    }

    /** The loop after a successful `select`: the threads whose descriptor is set become ready. */
    method Wake(isSet: set<Thread>)
      requires Valid()
      modifies this`rq_size, this`wq_size, ready_queue, waiting_queue
      ensures Valid() && Value() == Woken(old(Value()), isSet)
    {
      ghost var q := Value();
      ghost var p, o, rest := [], [], q.waiting;
      var i := 0;
      while i < wq_size
        invariant Valid() && Polling(q, isSet, Value(), p, o, rest) && i == |o|
        decreases |rest|
      {
        ghost var v := Value();
        assert waiting_queue[i] == v.waiting[|o|];
        if waiting_queue[i] in isSet {
          PollMoves(q, isSet, v, p, o, rest);
          MoveToReady(i);
          p := p + [rest[0]];
        } else {
          PollStays(q, isSet, v, p, o, rest);
          i := i + 1;
          o := o + [rest[0]];
        }
        rest := rest[1..];
      }
      PollEnds(q, isSet, Value(), p, o);
    }

    method OnAread()
      requires Valid() && rq_current < rq_size
      modifies this, ready_queue, waiting_queue
      ensures Valid() && Value() == Switched(old(Value()), AREAD)
    {
      waiting_queue[wq_size] := ready_queue[rq_current];
      wq_size := wq_size + 1;
      rq_size := rq_size - 1;
      ready_queue[rq_current] := ready_queue[rq_size];
      ready_queue[rq_size] := NULL;
      if rq_current == rq_size { rq_current := 0; }
    }

    method OnExit()
      requires Valid() && rq_current < rq_size
      modifies this, ready_queue
      ensures Valid() && Value() == Switched(old(Value()), EXIT)
    {
      if rq_current == rq_size - 1 {
        rq_current, rq_size := 0, rq_size - 1;
        ready_queue[rq_size] := NULL;
      } else {
        rq_size := rq_size - 1;
        ready_queue[rq_current] := ready_queue[rq_size];
        ready_queue[rq_size] := NULL;
      }
    }

    /** The `switch (where)`. */
    method Switch(where: Where)
      requires Valid() && (where != Entry ==> rq_current < rq_size)
      modifies this, ready_queue, waiting_queue
      ensures Valid() && Value() == Switched(old(Value()), where)
    {
      match where
      case Entry =>
      case YIELD =>
        rq_current := rq_current + 1;
        if rq_current == rq_size { rq_current := 0; }
      case AREAD =>
        OnAread();
      case EXIT =>
        OnExit();
    }

    /** One call of, or jump into, `scheduler`; the two sets are what `select` reports. It returns
        exactly when no thread is left; otherwise it resumes RUNNING, or, when the blocking
        `select` woke nobody, jumps through a RUNNING that is NULL. */
    method Schedule(where: Where, polled: set<Thread>, arrived: set<Thread>) returns (way: WayOut)
      requires Valid() && (where != Entry ==> rq_current < rq_size)
      modifies this, ready_queue, waiting_queue
      ensures Valid() && Value() == Scheduled(old(Value()), where, polled, arrived)
      ensures way == Returned <==> Value().ready == [] && Value().waiting == []
      ensures way.Resumed? <==> Value().cur < |Value().ready|
      ensures way.Resumed? ==> way.running == Value().ready[Value().cur]
    {
      Wake(polled);
      Switch(where);
      if rq_size == 0 {
        if wq_size == 0 {
          return Returned;
        }
        WokenSize(Value(), arrived);
        Wake(arrived);
      }
      way := if rq_current < rq_size then Resumed(ready_queue[rq_current]) else NullRunning;
    }
  }
}
