/** What every run of the scheduler keeps: no thread is lost or doubled, and how long a ready
    thread can be passed over. */
module SchedulerRuns {
  import opened Bags
  import opened Scheduler

  function Live(q: Queues): seq<Thread> {
    q.ready + q.waiting
  }

  /** RUNNING names a ready thread whenever there is one. */
  predicate CurrentInRange(q: Queues) {
    if q.ready == [] then q.cur == 0 else q.cur < |q.ready|
  }

  // ---------- conservation ----------

  lemma {:induction false} PartsCount(s: seq<Thread>, isSet: set<Thread>, t: Thread)
    ensures Count(Picked(s, isSet), t) == (if t in isSet then Count(s, t) else 0)
    ensures Count(Others(s, isSet), t) == (if t in isSet then 0 else Count(s, t))
  {
    if s != [] {
      PartsCount(s[1..], isSet, t);
      if s[0] in isSet {
        assert Picked(s, isSet)[1..] == Picked(s[1..], isSet);
      } else {
        assert Others(s, isSet)[1..] == Others(s[1..], isSet);
      }
    }
  }

  lemma WokenCount(q: Queues, isSet: set<Thread>, t: Thread)
    ensures Count(Live(Woken(q, isSet)), t) == Count(Live(q), t)
  {
    PartsCount(q.waiting, isSet, t);
    CountAppend(q.ready, Picked(q.waiting, isSet), t);
    CountAppend(q.ready + Picked(q.waiting, isSet), Others(q.waiting, isSet), t);
    CountAppend(q.ready, q.waiting, t);
  }

  lemma WithoutRunningCount(q: Queues, t: Thread)
    requires q.cur < |q.ready|
    ensures Count(q.ready, t) == Count(WithoutRunning(q).ready, t) + (if t == q.ready[q.cur] then 1 else 0)
  {
    var s, k, last := q.ready, q.cur, |q.ready| - 1;
    var u := s[k := s[last]];
    CountAt(s, last, t);
    CountAt(u, last, t);
    if k < last {
      CountAt(s[..last], k, t);
      CountAt(u[..last], k, t);
      assert u[..last][..k] == s[..last][..k] && u[..last][k + 1..] == s[..last][k + 1..];
    } else {
      assert u[..last] == s[..last];
    }
  }

  lemma SwitchedCount(q: Queues, where: Where, t: Thread)
    requires where != Entry ==> q.cur < |q.ready|
    ensures Count(Live(Switched(q, where)), t)
         == Count(Live(q), t) - (if where == EXIT && t == q.ready[q.cur] then 1 else 0)
  {
    CountAppend(q.ready, q.waiting, t);
    if where == AREAD || where == EXIT {
      var r := WithoutRunning(q).ready;
      WithoutRunningCount(q, t);
      CountAppend(r, q.waiting, t);
      CountAppend(q.waiting, [q.ready[q.cur]], t);
      assert [q.ready[q.cur]][1..] == [];
      CountAppend(r, q.waiting + [q.ready[q.cur]], t);
    } else {
      assert Live(Switched(q, where)) == Live(q);
    }
  }

  /** A pass keeps every thread once, except that EXIT drops RUNNING; and RUNNING stays in range. */
  lemma PassConserves(q: Queues, where: Where, polled: set<Thread>, arrived: set<Thread>)
    requires where != Entry ==> q.cur < |q.ready|
    requires CurrentInRange(q)
    ensures forall t ::
              Count(Live(Scheduled(q, where, polled, arrived)), t)
              == Count(Live(q), t) - (if where == EXIT && t == q.ready[q.cur] then 1 else 0)
    ensures CurrentInRange(Scheduled(q, where, polled, arrived))
  {
    var w := Woken(q, polled);
    var s := Switched(w, where);
    forall t
      ensures Count(Live(Scheduled(q, where, polled, arrived)), t)
           == Count(Live(q), t) - (if where == EXIT && t == q.ready[q.cur] then 1 else 0)
    {
      WokenCount(q, polled, t);
      SwitchedCount(w, where, t);
      WokenCount(s, arrived, t);
    }
  }

  lemma {:induction false} SomePicked(s: seq<Thread>, isSet: set<Thread>, t: Thread)
    requires t in s && t in isSet
    ensures t in Picked(s, isSet)
  {
    if s[0] != t {
      SomePicked(s[1..], isSet, t);
    }
  }

  /** What the blocking `select` promises when it is needed: a waiting thread with input. */
  predicate SelectDelivers(q: Queues, where: Where, polled: set<Thread>, arrived: set<Thread>)
    requires where != Entry ==> q.cur < |q.ready|
  {
    var s := Switched(Woken(q, polled), where);
    s.ready == [] && s.waiting != [] ==> exists t :: t in s.waiting && t in arrived
  }

  /** `scheduler` returns exactly when no thread is left, and otherwise resumes a ready one. */
  lemma ReturnsWhenDone(q: Queues, where: Where, polled: set<Thread>, arrived: set<Thread>)
    requires where != Entry ==> q.cur < |q.ready|
    requires CurrentInRange(q) && SelectDelivers(q, where, polled, arrived)
    ensures var q' := Scheduled(q, where, polled, arrived);
      q'.cur >= |q'.ready| <==> Live(q') == []
  {
    PassConserves(q, where, polled, arrived);
    var s := Switched(Woken(q, polled), where);
    if s.ready == [] && s.waiting != [] {
      var t :| t in s.waiting && t in arrived;
      SomePicked(s.waiting, arrived, t);
    }
  }

  // ---------- bounded waiting ----------

  datatype Pass = Pass(where: Where, polled: set<Thread>, arrived: set<Thread>)

  /** How far ahead of RUNNING the thread at position `p` is, over all live threads. */
  function Distance(q: Queues, p: nat): nat
    requires q.cur < |q.ready| && p < |q.ready|
  {
    if p >= q.cur then p - q.cur else |Live(q)| - q.cur + p
  }

  function Pos(q: Queues, pass: Pass, p: nat): nat
    requires q.cur < |q.ready| && p < |q.ready|
  {
    if pass.where in {AREAD, EXIT} && p + 1 == |Woken(q, pass.polled).ready| then q.cur else p
  }

  function Passed(q: Queues, pass: Pass): Queues
    requires q.cur < |q.ready|
  {
    Scheduled(q, pass.where, pass.polled, pass.arrived)
  }

  /** One pass for a ready thread that is not RUNNING: it stays ready, AREAD and EXIT never take
      it further away, YIELD brings it nearer, and at distance 0 it is resumed. */
  lemma PassApproaches(q: Queues, pass: Pass, p: nat)
    requires q.cur < |q.ready| && p < |q.ready| && p != q.cur
    ensures var q', p' := Passed(q, pass), Pos(q, pass, p);
      && q'.cur < |q'.ready| && p' < |q'.ready| && q'.ready[p'] == q.ready[p]
      && Distance(q', p') + (if pass.where == YIELD then 1 else 0) <= Distance(q, p)
      && (Distance(q', p') == 0 <==> p' == q'.cur)
  {
    PartsSize(q.waiting, pass.polled);
  }

  function Yields(passes: seq<Pass>): nat {
    if passes == [] then 0 else (if passes[0].where == YIELD then 1 else 0) + Yields(passes[1..])
  }

  /** RUNNING after the passes; NULL once `scheduler` has returned. */
  function RunningAfter(q: Queues, passes: seq<Pass>): Thread
    decreases |passes|
  {
    if q.cur >= |q.ready| then NULL
    else if passes == [] then q.ready[q.cur]
    else RunningAfter(Passed(q, passes[0]), passes[1..])
  }

  /** However many AREAD and EXIT switches and wake-ups happen, a ready thread is resumed by the
      time as many YIELDs have happened as its distance, at most one less than the live threads. */
  lemma {:induction false} BoundedWaiting(q: Queues, p: nat, passes: seq<Pass>) returns (k: nat)
    requires q.cur < |q.ready| && p < |q.ready| && p != q.cur
    requires Yields(passes) >= Distance(q, p)
    ensures 0 < k <= |passes| && RunningAfter(q, passes[..k]) == q.ready[p]
    ensures Distance(q, p) <= |Live(q)| - 1
    decreases |passes|
  {
    var q', p' := Passed(q, passes[0]), Pos(q, passes[0], p);
    PassApproaches(q, passes[0], p);
    if p' == q'.cur {
      k := 1;
      assert passes[..1][1..] == [];
    } else {
      k := BoundedWaiting(q', p', passes[1..]);
      k := k + 1;
      assert passes[..k][1..] == passes[1..][..k - 1];
    }
  }
}
