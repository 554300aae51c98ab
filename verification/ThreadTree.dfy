/** The fork/join tree of `Tmerge` as concurrent threads over one shared row: every node of
    the tree is a thread, and a run interleaves in any order the turns of their loops, each of
    which looks at, swaps, marks, merges or copies one entry. */
module ThreadTree {
  import opened Bags
  import opened Ranking
  import opened SortLibrary
  import opened ThreadMerge

  /** Where the thread of one node is: in `sort` at the start of a round, in the loop of `argmax`,
      or between `swap` and `add_secret`; in `pthread_join` for its two children; merging into
      the temporaries; copying them back. */
  datatype Task =
    | Started
    | Selecting(round: nat)
    | Scanning(round: nat, i: nat, ret: nat, max: real)
    | Marking(round: nat)
    | Forked(left: Task, right: Task)
    | Combining(ls: nat, rs: nat, out: Row)
    | Copying(out: Row, j: nat)
    | Done

  datatype State = State(row: Row, task: Task)

  // ---------- steps of one thread, on its own range ----------

  /** A round of `sort` starts by searching; the last entry is only marked. */
  ghost predicate SelectStep(cur: Row, round: nat, cur': Row, task': Task) {
    if round + 1 < |cur| then
      cur' == cur && task' == Scanning(round, round, round, -1.0)
    else
      round + 1 == |cur| && task' == Done && cur' == Placed(cur, round, round)
  }

  function Swapped(cur: Row, i: nat, idx: nat): Row
    requires i < |cur| && idx < |cur|
  {
    cur[idx := cur[i]][i := cur[idx]]
  }

  /** One turn of `argmax`, or, when its assertion holds, the swap after it. */
  ghost predicate ScanStep(cur: Row, task: Task, cur': Row, task': Task)
    requires task.Scanning?
  {
    var Scanning(round, i, ret, max) := task;
    && round < |cur| && ret < |cur|
    && if i < |cur| then
         var (ret', max') := ScanTurn(cur[i], i, ret, max, cur[ret].title);
         cur' == cur && task' == Scanning(round, i + 1, ret', max')
       else
         max >= 0.0 && cur' == Swapped(cur, round, ret) && task' == Marking(round)
  }

  function Marked(cur: Row, k: nat): Row
    requires k < |cur|
  {
    cur[k := Mark(cur[k])]
  }

  /** One turn of the merge loops: take from the right, take from the left, or be finished. */
  function CombineStep(x: Row, y: Row, ls: nat, rs: nat, out: Row): (task': Task)
    requires ls <= |x| && rs <= |y|
  {
    if ls == |x| && rs == |y| then Copying(out, 0)
    else if ls == |x| || (rs < |y| && Behind(x[ls], y[rs])) then Combining(ls, rs + 1, out + [y[rs]])
    else Combining(ls + 1, rs, out + [x[ls]])
  }

  /** The thread itself moves: `cur` is the range it works on. A forked thread only joins. */
  ghost predicate ThreadStep(p: Plan, cur: Row, num: Pos, task: Task, cur': Row, task': Task) {
    match task
    case Started =>
      cur' == cur && task' == if IsLeaf(p, |cur|, num) then Selecting(0) else Forked(Started, Started)
    case Selecting(round) =>
      SelectStep(cur, round, cur', task')
    case Scanning(_, _, _, _) =>
      ScanStep(cur, task, cur', task')
    case Marking(round) =>
      round < |cur| && cur' == Marked(cur, round) && task' == Selecting(round + 1)
    case Forked(a, b) =>
      a.Done? && b.Done? && cur' == cur && task' == Combining(0, 0, [])
    case Combining(ls, rs, out) =>
      && ls <= |Halves(cur).0| && rs <= |Halves(cur).1|
      && cur' == cur && task' == CombineStep(Halves(cur).0, Halves(cur).1, ls, rs, out)
    case Copying(out, j) =>
      if j < |cur| then j < |out| && cur' == cur[j := out[j]] && task' == Copying(out, j + 1)
      else cur' == cur && task' == Done
    case Done =>
      false
  }

  // ---------- steps of the whole tree, on the shared row ----------

  /** `row'` differs from `row` in [l, r) at most. */
  ghost predicate OnlyWithin(row: Row, row': Row, l: nat, r: nat)
    requires l <= r <= |row|
  {
    |row'| == |row| && row'[..l] == row[..l] && row'[r..] == row[r..]
  }

  /** Some thread of the tree over [l, r) takes one step. */
  ghost predicate Next(p: Plan, row: Row, l: nat, r: nat, num: Pos, task: Task, row': Row, task': Task)
    requires l < r <= |row|
    decreases task
  {
    || (OnlyWithin(row, row', l, r) && ThreadStep(p, row[l..r], num, task, row'[l..r], task'))
    || (&& task.Forked? && task'.Forked? && l < Mid(l, r)
        && (|| (task'.right == task.right && Next(p, row, l, Mid(l, r), 2 * num, task.left, row', task'.left))
            || (task'.left == task.left && Next(p, row, Mid(l, r), r, 2 * num + 1, task.right, row', task'.right))))
  }

  /** Some leaf is about to fail its `assert(max >= 0.0)`, which ends the whole program. */
  ghost predicate Aborts(row: Row, l: nat, r: nat, task: Task)
    requires l < r <= |row|
    decreases task
  {
    match task
    case Scanning(_, i, _, max) => i == r - l && max < 0.0
    case Forked(a, b) => l < Mid(l, r) && (Aborts(row, l, Mid(l, r), a) || Aborts(row, Mid(l, r), r, b))
    case _ => false
  }

  ghost predicate Step(p: Plan, s: State, s': State) {
    s.row != [] && Next(p, s.row, 0, |s.row|, 1, s.task, s'.row, s'.task)
  }

  /** `s` is reached from the request's row after `n` steps of any threads in any order. */
  ghost predicate Reached(p: Plan, es: Row, n: nat, s: State) {
    if n == 0 then s == State(es, Started)
    else exists s0 :: Reached(p, es, n - 1, s0) && Step(p, s0, s)
  }

  // ---------- the invariant ----------

  /** A leaf after `round` rounds, none of which failed its assertion. */
  ghost predicate InRounds(es: Row, cur: Row, round: nat) {
    Sorting(es, cur, round) && forall k | 0 <= k < round :: Ranked(es)[k].pts >= 0.0
  }

  /** What a thread that is not waiting for children knows about its range, which began as `es`. */
  ghost predicate ThreadInv(p: Plan, es: Row, cur: Row, num: Pos, task: Task) {
    match task
    case Started =>
      cur == es
    case Selecting(round) =>
      IsLeaf(p, |es|, num) && round < |es| && InRounds(es, cur, round)
    case Scanning(round, i, ret, max) =>
      IsLeaf(p, |es|, num) && round + 1 < |es| && InRounds(es, cur, round) && BestSoFar(cur, round, i, ret, max)
    case Marking(round) =>
      IsLeaf(p, |es|, num) && round + 1 < |es| == |cur| && InRounds(es, Marked(cur, round), round + 1)
    case Forked(a, b) =>
      false
    case Combining(ls, rs, out) =>
      && !IsLeaf(p, |es|, num) && LeavesComplete(p, es, num)
      && |cur| == |es|
      && Halves(cur).0 == TreeResult(p, Halves(es).0, 2 * num)
      && Halves(cur).1 == TreeResult(p, Halves(es).1, 2 * num + 1)
      && Merging(Halves(cur).0, Halves(cur).1, ls, rs, out)
    case Copying(out, j) =>
      && LeavesComplete(p, es, num)
      && out == TreeResult(p, es, num)
      && j <= |es| == |cur| && cur[..j] == out[..j]
    case Done =>
      cur == TreeResult(p, es, num) && LeavesComplete(p, es, num)
  }

  ghost predicate Inv(p: Plan, es: Row, row: Row, l: nat, r: nat, num: Pos, task: Task)
    requires l < r <= |row| && |es| == r - l
    decreases task
  {
    match task
    case Forked(a, b) =>
      && !IsLeaf(p, |es|, num)
      && l < Mid(l, r)
      && Inv(p, Halves(es).0, row, l, Mid(l, r), 2 * num, a)
      && Inv(p, Halves(es).1, row, Mid(l, r), r, 2 * num + 1, b)
    case _ =>
      ThreadInv(p, es, row[l..r], num, task)
  }

  // ---------- every step of a thread keeps its invariant ----------

  lemma SelectKeeps(p: Plan, es: Row, cur: Row, num: Pos, round: nat, cur': Row, task': Task)
    requires ThreadInv(p, es, cur, num, Selecting(round))
    requires SelectStep(cur, round, cur', task')
    ensures |cur'| == |cur| && ThreadInv(p, es, cur', num, task')
  {
    if round + 1 == |cur| {
      LastIsMarked(es, cur);
      NoNegativesLeft(es);
    }
  }

  lemma SwapKeeps(es: Row, cur: Row, round: nat, idx: nat)
    requires InRounds(es, cur, round) && Picks(cur, round, idx)
    ensures InRounds(es, Marked(Swapped(cur, round, idx), round), round + 1)
  {
    assert Marked(Swapped(cur, round, idx), round) == Placed(cur, round, idx);
    PickIsNext(es, cur, round, idx);
    PlaceKeeps(es, cur, round, idx);
  }

  lemma ScanKeeps(p: Plan, es: Row, cur: Row, num: Pos, task: Task, cur': Row, task': Task)
    requires task.Scanning? && ThreadInv(p, es, cur, num, task) && ScanStep(cur, task, cur', task')
    ensures |cur'| == |cur| && ThreadInv(p, es, cur', num, task')
  {
    if task.i < |cur| {
      ScanNext(cur, task.round, task.i, task.ret, task.max);
    } else {
      ScanEnds(cur, task.round, task.ret, task.max);
      SwapKeeps(es, cur, task.round, task.ret);
    }
  }

  lemma CombineKeeps(x: Row, y: Row, ls: nat, rs: nat, out: Row)
    requires ls <= |x| && rs <= |y| && Merging(x, y, ls, rs, out)
    ensures var t := CombineStep(x, y, ls, rs, out);
      if t.Copying? then t.out == Merge(x, y) else Merging(x, y, t.ls, t.rs, t.out)
  {
    if ls == |x| && rs == |y| {
      MergingEnds(x, y, out);
    } else if ls == |x| || (rs < |y| && Behind(x[ls], y[rs])) {
      MergingTakesRight(x, y, ls, rs, out);
    } else {
      MergingTakesLeft(x, y, ls, rs, out);
    }
  }

  lemma CopyKeeps(cur: Row, out: Row, j: nat)
    requires |cur| == |out| && j <= |cur| && cur[..j] == out[..j]
    ensures j < |cur| ==> cur[j := out[j]][..j + 1] == out[..j + 1]
    ensures j == |cur| ==> cur == out
  {
    if j < |cur| {
      assert cur[j := out[j]][..j + 1] == cur[..j] + [out[j]];
    } else {
      assert cur[..j] == cur && out[..j] == out;
    }
  }

  lemma LeafKeeps(p: Plan, es: Row, cur: Row, num: Pos, task: Task, cur': Row, task': Task)
    requires |cur| == |es| > 0 && (task.Selecting? || task.Scanning? || task.Marking?)
    requires ThreadInv(p, es, cur, num, task) && ThreadStep(p, cur, num, task, cur', task')
    ensures |cur'| == |cur| && ThreadInv(p, es, cur', num, task')
  {
    match task
    case Selecting(round) => SelectKeeps(p, es, cur, num, round, cur', task');
    case Scanning(_, _, _, _) => ScanKeeps(p, es, cur, num, task, cur', task');
    case Marking(_) =>
  }

  lemma ThreadKeeps(p: Plan, es: Row, cur: Row, num: Pos, task: Task, cur': Row, task': Task)
    requires |cur| == |es| > 0 && !task'.Forked?
    requires ThreadInv(p, es, cur, num, task) && ThreadStep(p, cur, num, task, cur', task')
    ensures |cur'| == |cur| && ThreadInv(p, es, cur', num, task')
  {
    if task.Selecting? || task.Scanning? || task.Marking? {
      LeafKeeps(p, es, cur, num, task, cur', task');
    } else {
      match task
      case Started => SortingStarts(es);
      case Combining(ls, rs, out) => CombineKeeps(Halves(cur).0, Halves(cur).1, ls, rs, out);
      case Copying(out, j) => CopyKeeps(cur, out, j);
      case _ =>
    }
  }

  // ---------- every step of the tree keeps the invariant ----------

  /** A node depends on nothing outside its range. */
  lemma {:induction false} InvLocal(p: Plan, es: Row, row: Row, row': Row, l: nat, r: nat, num: Pos, task: Task)
    requires l < r <= |row| == |row'| && |es| == r - l
    requires Inv(p, es, row, l, r, num, task) && row'[l..r] == row[l..r]
    ensures Inv(p, es, row', l, r, num, task)
    decreases task
  {
    if task.Forked? {
      RangeHalves(row, l, r);
      RangeHalves(row', l, r);
      InvLocal(p, Halves(es).0, row, row', l, Mid(l, r), 2 * num, task.left);
      InvLocal(p, Halves(es).1, row, row', Mid(l, r), r, 2 * num + 1, task.right);
    }
  }

  lemma WithinLeft(row: Row, row': Row, l: nat, mid: nat, r: nat)
    requires l <= mid <= r <= |row| && OnlyWithin(row, row', l, mid)
    ensures OnlyWithin(row, row', l, r) && row'[mid..r] == row[mid..r]
  {
    assert row'[r..] == row'[mid..][r - mid..] && row[r..] == row[mid..][r - mid..];
    assert row'[mid..r] == row'[mid..][..r - mid] && row[mid..r] == row[mid..][..r - mid];
  }

  lemma WithinRight(row: Row, row': Row, l: nat, mid: nat, r: nat)
    requires l <= mid <= r <= |row| && OnlyWithin(row, row', mid, r)
    ensures OnlyWithin(row, row', l, r) && row'[l..mid] == row[l..mid]
  {
    assert row'[..l] == row'[..mid][..l] && row[..l] == row[..mid][..l];
    assert row'[l..mid] == row'[..mid][l..] && row[l..mid] == row[..mid][l..];
  }

  /** A node's threads change nothing outside its range. */
  lemma {:induction false} NextLocal(p: Plan, row: Row, l: nat, r: nat, num: Pos, task: Task, row': Row, task': Task)
    requires l < r <= |row| && Next(p, row, l, r, num, task, row', task')
    ensures OnlyWithin(row, row', l, r)
    decreases task
  {
    if !OnlyWithin(row, row', l, r) {
      if Next(p, row, l, Mid(l, r), 2 * num, task.left, row', task'.left) {
        NextLocal(p, row, l, Mid(l, r), 2 * num, task.left, row', task'.left);
        WithinLeft(row, row', l, Mid(l, r), r);
      } else {
        NextLocal(p, row, Mid(l, r), r, 2 * num + 1, task.right, row', task'.right);
        WithinRight(row, row', l, Mid(l, r), r);
      }
    }
  }

  lemma JoinKeeps(p: Plan, es: Row, row: Row, l: nat, r: nat, num: Pos)
    requires l < r <= |row| && |es| == r - l
    requires Inv(p, es, row, l, r, num, Forked(Done, Done))
    ensures ThreadInv(p, es, row[l..r], num, Combining(0, 0, []))
  {
    RangeHalves(row, l, r);
    MergingStarts(row[l..Mid(l, r)], row[Mid(l, r)..r]);
  }

  lemma ForkKeeps(p: Plan, es: Row, row: Row, l: nat, r: nat, num: Pos)
    requires l < r <= |row| && row[l..r] == es && !IsLeaf(p, |es|, num)
    ensures Inv(p, es, row, l, r, num, Forked(Started, Started))
  {
    RangeHalves(row, l, r);
  }

  lemma {:induction false} NextKeeps(p: Plan, es: Row, row: Row, l: nat, r: nat, num: Pos, task: Task, row': Row, task': Task)
    requires l < r <= |row| && |es| == r - l
    requires Inv(p, es, row, l, r, num, task)
    requires Next(p, row, l, r, num, task, row', task')
    ensures |row'| == |row| && Inv(p, es, row', l, r, num, task')
    decreases task, 0
  {
    if OnlyWithin(row, row', l, r) && ThreadStep(p, row[l..r], num, task, row'[l..r], task') {
      if task'.Forked? {
        ForkKeeps(p, es, row', l, r, num);
      } else if task.Forked? {
        JoinKeeps(p, es, row, l, r, num);
      } else {
        ThreadKeeps(p, es, row[l..r], num, task, row'[l..r], task');
      }
    } else if task'.right == task.right && Next(p, row, l, Mid(l, r), 2 * num, task.left, row', task'.left) {
      LeftKeeps(p, es, row, l, r, num, task.left, task.right, row', task'.left);
    } else {
      RightKeeps(p, es, row, l, r, num, task.left, task.right, row', task'.right);
    }
  }

  lemma {:induction false} LeftKeeps(p: Plan, es: Row, row: Row, l: nat, r: nat, num: Pos, a: Task, b: Task, row': Row, a': Task)
    requires l < r <= |row| && |es| == r - l
    requires Inv(p, es, row, l, r, num, Forked(a, b))
    requires Next(p, row, l, Mid(l, r), 2 * num, a, row', a')
    ensures |row'| == |row| && Inv(p, es, row', l, r, num, Forked(a', b))
    decreases a, 1
  {
    NextKeeps(p, Halves(es).0, row, l, Mid(l, r), 2 * num, a, row', a');
    NextLocal(p, row, l, Mid(l, r), 2 * num, a, row', a');
    WithinLeft(row, row', l, Mid(l, r), r);
    InvLocal(p, Halves(es).1, row, row', Mid(l, r), r, 2 * num + 1, b);
  }

  lemma {:induction false} RightKeeps(p: Plan, es: Row, row: Row, l: nat, r: nat, num: Pos, a: Task, b: Task, row': Row, b': Task)
    requires l < r <= |row| && |es| == r - l
    requires Inv(p, es, row, l, r, num, Forked(a, b))
    requires Next(p, row, Mid(l, r), r, 2 * num + 1, b, row', b')
    ensures |row'| == |row| && Inv(p, es, row', l, r, num, Forked(a, b'))
    decreases b, 1
  {
    NextKeeps(p, Halves(es).1, row, Mid(l, r), r, 2 * num + 1, b, row', b');
    NextLocal(p, row, Mid(l, r), r, 2 * num + 1, b, row', b');
    WithinRight(row, row', l, Mid(l, r), r);
    InvLocal(p, Halves(es).0, row, row', l, Mid(l, r), 2 * num, a);
  }

  // ---------- how much is left to do ----------

  /** The steps of `sort` from a round on: a round starts, looks at every entry left, swaps and marks. */
  function RoundsWork(size: nat, round: nat): (n: nat)
    ensures n > 0
    decreases size - round
  {
    if round + 1 >= size then 1 else (size - round) + 3 + RoundsWork(size, round + 1)
  }

  /** The steps the threads over [l, r) still have to take, whatever the order. */
  function Work(p: Plan, l: nat, r: nat, num: Pos, task: Task): int
    requires l <= r
    decreases r - l, task
  {
    match task
    case Started =>
      if IsLeaf(p, r - l, num) then 1 + RoundsWork(r - l, 0)
      else 1 + Work(p, l, Mid(l, r), 2 * num, Started) + Work(p, Mid(l, r), r, 2 * num + 1, Started) + 2 * (r - l) + 3
    case Selecting(round) => RoundsWork(r - l, round)
    case Scanning(round, i, _, _) => (r - l - i) + 2 + RoundsWork(r - l, round + 1)
    case Marking(round) => 1 + RoundsWork(r - l, round + 1)
    case Forked(a, b) => Work(p, l, Mid(l, r), 2 * num, a) + Work(p, Mid(l, r), r, 2 * num + 1, b) + 2 * (r - l) + 3
    case Combining(ls, rs, _) => (r - l - ls - rs) + (r - l) + 2
    case Copying(_, j) => r - l - j + 1
    case Done => 0
  }

  lemma {:induction false} StartedWork(p: Plan, l: nat, r: nat, num: Pos)
    requires l <= r
    ensures Work(p, l, r, num, Started) > 0
    decreases r - l
  {
    if !IsLeaf(p, r - l, num) {
      StartedWork(p, l, Mid(l, r), 2 * num);
      StartedWork(p, Mid(l, r), r, 2 * num + 1);
    }
  }

  /** The counters of a thread are within its range. */
  predicate InRange(size: nat, task: Task) {
    match task
    case Selecting(round) => round < size
    case Scanning(round, i, _, _) => round + 1 < size && i <= size
    case Marking(round) => round + 1 < size
    case Combining(ls, rs, _) => ls + rs <= size
    case Copying(_, j) => j <= size
    case _ => true
  }

  lemma ThreadInRange(p: Plan, es: Row, cur: Row, num: Pos, task: Task)
    requires |cur| == |es| > 0 && ThreadInv(p, es, cur, num, task)
    ensures InRange(|cur|, task)
  {
  }

  lemma {:induction false} WorkRemains(p: Plan, es: Row, row: Row, l: nat, r: nat, num: Pos, task: Task)
    requires l < r <= |row| && |es| == r - l && Inv(p, es, row, l, r, num, task)
    ensures Work(p, l, r, num, task) >= 0
    decreases task
  {
    if task.Forked? {
      WorkRemains(p, Halves(es).0, row, l, Mid(l, r), 2 * num, task.left);
      WorkRemains(p, Halves(es).1, row, Mid(l, r), r, 2 * num + 1, task.right);
      assert Work(p, l, r, num, task)
          == Work(p, l, Mid(l, r), 2 * num, task.left) + Work(p, Mid(l, r), r, 2 * num + 1, task.right) + 2 * (r - l) + 3;
    } else if task.Started? {
      StartedWork(p, l, r, num);
    } else {
      ThreadInRange(p, es, row[l..r], num, task);
      OwnWorkRemains(p, l, r, num, task);
    }
  }

  lemma OwnWorkRemains(p: Plan, l: nat, r: nat, num: Pos, task: Task)
    requires l < r && InRange(r - l, task) && !task.Forked? && !task.Started?
    ensures Work(p, l, r, num, task) >= 0
  {
    match task
    case Selecting(_) =>
    case Scanning(_, _, _, _) =>
    case Marking(_) =>
    case Combining(_, _, _) =>
    case Copying(_, _) =>
    case Done =>
  }

  lemma SortWorks(p: Plan, l: nat, r: nat, cur: Row, num: Pos, task: Task, cur': Row, task': Task)
    requires |cur| == r - l > 0 && ThreadStep(p, cur, num, task, cur', task') && InRange(|cur|, task)
    requires task.Selecting? || task.Scanning? || task.Marking?
    ensures Work(p, l, r, num, task) == Work(p, l, r, num, task') + 1
  {
  }

  lemma ThreadWorks(p: Plan, l: nat, r: nat, cur: Row, num: Pos, task: Task, cur': Row, task': Task)
    requires |cur| == r - l > 0 && ThreadStep(p, cur, num, task, cur', task') && InRange(|cur|, task)
    ensures Work(p, l, r, num, task) == Work(p, l, r, num, task') + 1
  {
    if task.Selecting? || task.Scanning? || task.Marking? {
      SortWorks(p, l, r, cur, num, task, cur', task');
    } else {
      match task
      case Started =>
      case Forked(_, _) =>
      case Combining(_, _, _) =>
      case Copying(_, _) =>
    }
  }

  lemma {:induction false} NextWorks(p: Plan, es: Row, row: Row, l: nat, r: nat, num: Pos, task: Task, row': Row, task': Task)
    requires l < r <= |row| && |es| == r - l
    requires Inv(p, es, row, l, r, num, task) && Next(p, row, l, r, num, task, row', task')
    ensures Work(p, l, r, num, task) == Work(p, l, r, num, task') + 1
    decreases task
  {
    if OnlyWithin(row, row', l, r) && ThreadStep(p, row[l..r], num, task, row'[l..r], task') {
      if !task.Forked? { ThreadInRange(p, es, row[l..r], num, task); }
      ThreadWorks(p, l, r, row[l..r], num, task, row'[l..r], task');
    } else if task'.right == task.right && Next(p, row, l, Mid(l, r), 2 * num, task.left, row', task'.left) {
      NextWorks(p, Halves(es).0, row, l, Mid(l, r), 2 * num, task.left, row', task'.left);
    } else {
      NextWorks(p, Halves(es).1, row, Mid(l, r), r, 2 * num + 1, task.right, row', task'.right);
    }
  }

  // ---------- progress ----------

  /** Some thread of the tree over [l, r) can move. */
  ghost predicate CanMove(p: Plan, row: Row, l: nat, r: nat, num: Pos, task: Task)
    requires l < r <= |row|
  {
    exists row', task' :: Next(p, row, l, r, num, task, row', task')
  }

  lemma ThreadMoves(p: Plan, row: Row, l: nat, r: nat, num: Pos, task: Task, cur': Row, task': Task)
    requires l < r <= |row| && |cur'| == r - l
    requires ThreadStep(p, row[l..r], num, task, cur', task')
    ensures CanMove(p, row, l, r, num, task)
  {
    var row' := row[..l] + cur' + row[r..];
    assert row'[l..r] == cur' && OnlyWithin(row, row', l, r);
    assert Next(p, row, l, r, num, task, row', task');
  }

  lemma ChildMoves(p: Plan, row: Row, l: nat, r: nat, num: Pos, a: Task, b: Task)
    requires l < r <= |row| && l < Mid(l, r)
    ensures CanMove(p, row, l, Mid(l, r), 2 * num, a) ==> CanMove(p, row, l, r, num, Forked(a, b))
    ensures CanMove(p, row, Mid(l, r), r, 2 * num + 1, b) ==> CanMove(p, row, l, r, num, Forked(a, b))
  {
    if CanMove(p, row, l, Mid(l, r), 2 * num, a) {
      var row', a' :| Next(p, row, l, Mid(l, r), 2 * num, a, row', a');
      assert Next(p, row, l, r, num, Forked(a, b), row', Forked(a', b));
    }
    if CanMove(p, row, Mid(l, r), r, 2 * num + 1, b) {
      var row', b' :| Next(p, row, Mid(l, r), r, 2 * num + 1, b, row', b');
      assert Next(p, row, l, r, num, Forked(a, b), row', Forked(a, b'));
    }
  }

  lemma LeafMoves(p: Plan, es: Row, row: Row, l: nat, r: nat, num: Pos, task: Task)
    requires l < r <= |row| && |es| == r - l && (task.Selecting? || task.Scanning? || task.Marking?)
    requires ThreadInv(p, es, row[l..r], num, task)
    ensures Aborts(row, l, r, task) || CanMove(p, row, l, r, num, task)
  {
    var cur := row[l..r];
    match task
    case Selecting(round) =>
      if round + 1 < |cur| {
        ThreadMoves(p, row, l, r, num, task, cur, Scanning(round, round, round, -1.0));
      } else {
        ThreadMoves(p, row, l, r, num, task, Placed(cur, round, round), Done);
      }
    case Scanning(round, i, ret, max) =>
      if i < |cur| {
        var (ret', max') := ScanTurn(cur[i], i, ret, max, cur[ret].title);
        ThreadMoves(p, row, l, r, num, task, cur, Scanning(round, i + 1, ret', max'));
      } else if max >= 0.0 {
        ThreadMoves(p, row, l, r, num, task, Swapped(cur, round, ret), Marking(round));
      }
    case Marking(round) =>
      ThreadMoves(p, row, l, r, num, task, Marked(cur, round), Selecting(round + 1));
  }

  /** An unfinished node can move, unless a leaf is about to abort. */
  lemma {:induction false} NeverStuck(p: Plan, es: Row, row: Row, l: nat, r: nat, num: Pos, task: Task)
    requires l < r <= |row| && |es| == r - l
    requires Inv(p, es, row, l, r, num, task) && task != Done
    ensures Aborts(row, l, r, task) || CanMove(p, row, l, r, num, task)
    decreases task
  {
    var cur := row[l..r];
    match task
    case Started =>
      ThreadMoves(p, row, l, r, num, task, cur, if IsLeaf(p, |cur|, num) then Selecting(0) else Forked(Started, Started));
    case Selecting(_) => LeafMoves(p, es, row, l, r, num, task);
    case Scanning(_, _, _, _) => LeafMoves(p, es, row, l, r, num, task);
    case Marking(_) => LeafMoves(p, es, row, l, r, num, task);
    case Forked(a, b) =>
      if a != Done {
        NeverStuck(p, Halves(es).0, row, l, Mid(l, r), 2 * num, a);
        ChildMoves(p, row, l, r, num, a, b);
      } else if b != Done {
        NeverStuck(p, Halves(es).1, row, Mid(l, r), r, 2 * num + 1, b);
        ChildMoves(p, row, l, r, num, a, b);
      } else {
        ThreadMoves(p, row, l, r, num, task, cur, Combining(0, 0, []));
      }
    case Combining(ls, rs, out) =>
      ThreadMoves(p, row, l, r, num, task, cur, CombineStep(Halves(cur).0, Halves(cur).1, ls, rs, out));
    case Copying(out, j) =>
      if j < |cur| {
        ThreadMoves(p, row, l, r, num, task, cur[j := out[j]], Copying(out, j + 1));
      } else {
        ThreadMoves(p, row, l, r, num, task, cur, Done);
      }
  }

  /** No leaf aborts when each leaf started with at most one negative score. */
  lemma {:induction false} NoAbort(p: Plan, es: Row, row: Row, l: nat, r: nat, num: Pos, task: Task)
    requires l < r <= |row| && |es| == r - l
    requires Inv(p, es, row, l, r, num, task) && LeavesComplete(p, es, num)
    ensures !Aborts(row, l, r, task)
    decreases task
  {
    match task
    case Scanning(round, i, ret, max) =>
      if Aborts(row, l, r, task) {
        ScanEnds(row[l..r], round, ret, max);
        NegativesLeft(es, row[l..r], round);
      }
    case Forked(a, b) =>
      NoAbort(p, Halves(es).0, row, l, Mid(l, r), 2 * num, a);
      NoAbort(p, Halves(es).1, row, Mid(l, r), r, 2 * num + 1, b);
    case _ =>
  }

  // ---------- whole runs ----------

  ghost predicate Good(p: Plan, es: Row, s: State) {
    es != [] && |s.row| == |es| && Inv(p, es, s.row, 0, |es|, 1, s.task)
  }

  lemma StepKeeps(p: Plan, es: Row, s: State, s': State)
    requires Good(p, es, s) && Step(p, s, s')
    ensures Good(p, es, s') && Work(p, 0, |es|, 1, s.task) == Work(p, 0, |es|, 1, s'.task) + 1
  {
    NextKeeps(p, es, s.row, 0, |es|, 1, s.task, s'.row, s'.task);
    NextWorks(p, es, s.row, 0, |es|, 1, s.task, s'.row, s'.task);
  }

  /** Every step counts: after `n` of them exactly `n` fewer are left, in every order. */
  lemma {:induction false} ReachedKeeps(p: Plan, es: Row, n: nat, s: State)
    requires es != [] && Reached(p, es, n, s)
    ensures Good(p, es, s) && n + Work(p, 0, |es|, 1, s.task) == Work(p, 0, |es|, 1, Started)
  {
    if n == 0 {
      assert es[0..|es|] == es;
    } else {
      var s0 :| Reached(p, es, n - 1, s0) && Step(p, s0, s);
      ReachedKeeps(p, es, n - 1, s0);
      StepKeeps(p, es, s0, s);
    }
  }

  /** Whatever the interleaving, a finished run leaves the tree's result, each entry marked once;
      and that is what one `sort` of the whole row gives exactly when the ties survive every merge. It takes the
      same number of steps as every other finished run, and no leaf held two negative scores. */
  lemma AnyInterleaving(p: Plan, es: Row, n: nat, s: State)
    requires es != [] && Reached(p, es, n, s) && s.task == Done
    ensures s.row == TreeResult(p, es, 1)
    ensures Permutes(s.row, MarkAll(es))
    ensures s.row == MarkAll(Ranked(es)) <==> SplitsSurvive(p, es, 1)
    ensures n == Work(p, 0, |es|, 1, Started)
    ensures LeavesComplete(p, es, 1)
  {
    ReachedKeeps(p, es, n, s);
    assert s.row[0..|es|] == s.row;
    TreePermutes(p, es, 1);
    TreeRanks(p, es, 1);
  }

  /** No deadlock and no endless run: when no leaf holds two negative scores the program never
      aborts and an unfinished state can always go on; and there are never more than `Work` steps. */
  lemma RunsGoOn(p: Plan, es: Row, n: nat, s: State) returns (s': State)
    requires es != [] && Reached(p, es, n, s)
    ensures s.row != []
    ensures n <= Work(p, 0, |es|, 1, Started)
    ensures LeavesComplete(p, es, 1) ==> !Aborts(s.row, 0, |s.row|, s.task)
    ensures LeavesComplete(p, es, 1) && s.task != Done ==> Reached(p, es, n + 1, s')
  {
    ReachedKeeps(p, es, n, s);
    WorkRemains(p, es, s.row, 0, |es|, 1, s.task);
    s' := s;
    if LeavesComplete(p, es, 1) {
      NoAbort(p, es, s.row, 0, |es|, 1, s.task);
      if s.task != Done {
        NeverStuck(p, es, s.row, 0, |es|, 1, s.task);
        var row', task' :| Next(p, s.row, 0, |es|, 1, s.task, row', task');
        s' := State(row', task');
        assert Step(p, s, s');
      }
    }
  }
}
