/** `Pmerge` of server.c: the same tree, forked into processes. Each works on its own copy of
    the row; what they share is a table of pointers to text buffers and a table of scores. */
module ProcessTree {
  import opened Bags
  import opened Titles
  import opened Ranking
  import opened SortLibrary
  import opened ThreadMerge
  import Threads = ThreadTree

  /** `Mmap`, the buffers its pointers lead to, and `Pmap`. */
  datatype Memory = Memory(mmap: seq<nat>, texts: seq<Title>, pmap: seq<real>)

  /** Where the process of one node is: forked with its copy of the row; its range sorted and
      being stored; waiting for two children; merging; putting the merged range back; gone. */
  datatype Task =
    | Forked(mine: Row)
    | Storing(mine: Row, i: nat)
    | Waiting(left: Task, right: Task)
    | Combining(ls: nat, rs: nat, tmp: seq<nat>, scores: seq<real>)
    | Linking(tmp: seq<nat>, scores: seq<real>, j: nat)
    | Over

  datatype State = State(mem: Memory, task: Task)

  predicate Valid(m: Memory) {
    && |m.mmap| == |m.texts| == |m.pmap|
    && forall k | 0 <= k < |m.mmap| :: m.mmap[k] < |m.texts|
  }

  /** What is found through position `k`. */
  function At(m: Memory, k: nat): Entry
    requires Valid(m) && k < |m.mmap|
  {
    Entry(m.texts[m.mmap[k]], m.pmap[k])
  }

  function Slice(m: Memory, l: nat, r: nat): (es: Row)
    requires Valid(m) && l <= r <= |m.mmap|
    ensures |es| == r - l && forall k | 0 <= k < r - l :: es[k] == At(m, l + k)
  {
    seq(r - l, k requires 0 <= k < r - l => At(m, l + k))
  }

  // ---------- steps ----------

  /** `strcpy(Mmap[i], e.title)` and `Pmap[i] = e.pts`. */
  function Stored(m: Memory, i: nat, e: Entry): Memory
    requires Valid(m) && i < |m.mmap|
  {
    m.(texts := m.texts[m.mmap[i] := e.title], pmap := m.pmap[i := e.pts])
  }

  function Linked(m: Memory, i: nat, ptr: nat, score: real): Memory
    requires i < |m.mmap| == |m.pmap|
  {
    m.(mmap := m.mmap[i := ptr], pmap := m.pmap[i := score])
  }

  /** The private row after `sort` on its range. */
  ghost function SortedWithin(mine: Row, l: nat, r: nat): (row: Row)
    requires l <= r <= |mine|
    ensures |row| == |mine| && row[l..r] == MarkAll(Ranked(mine[l..r]))
  {
    mine[..l] + MarkAll(Ranked(mine[l..r])) + mine[r..]
  }

  /** A process forks, or sorts its leaf; a failed assertion in `sort` ends this process only,
      before it has stored anything. */
  ghost predicate FirstStep(p: Plan, mine: Row, l: nat, r: nat, num: Pos, t': Task)
    requires l < r
  {
    && r <= |mine|
    && if !IsLeaf(p, r - l, num) then t' == Waiting(Forked(mine), Forked(mine))
       else if AtMostOneNegative(mine[l..r]) then t' == Storing(SortedWithin(mine, l, r), l)
       else t' == Over
  }

  /** One turn of the merge loops, over the shared tables. */
  function CombineTurn(m: Memory, l: nat, r: nat, t: Task): Task
    requires Valid(m) && l < r <= |m.mmap| && t.Combining?
    requires t.ls <= Mid(l, r) - l && t.rs <= r - Mid(l, r)
  {
    var a, b := l + t.ls, Mid(l, r) + t.rs;
    if a == Mid(l, r) && b == r then Linking(t.tmp, t.scores, 0)
    else if a == Mid(l, r) || (b < r && Behind(At(m, a), At(m, b))) then
      Combining(t.ls, t.rs + 1, t.tmp + [m.mmap[b]], t.scores + [m.pmap[b]])
    else
      Combining(t.ls + 1, t.rs, t.tmp + [m.mmap[a]], t.scores + [m.pmap[a]])
  }

  ghost predicate OwnStep(p: Plan, m: Memory, l: nat, r: nat, num: Pos, t: Task, m': Memory, t': Task)
    requires Valid(m) && l < r <= |m.mmap|
  {
    match t
    case Forked(mine) =>
      m' == m && FirstStep(p, mine, l, r, num, t')
    case Storing(mine, i) =>
      if i < r then i < |mine| && m' == Stored(m, i, mine[i]) && t' == Storing(mine, i + 1)
      else m' == m && t' == Over
    case Waiting(a, b) =>
      a == Over && b == Over && m' == m && t' == Combining(0, 0, [], [])
    case Combining(ls, rs, _, _) =>
      ls <= Mid(l, r) - l && rs <= r - Mid(l, r) && m' == m && t' == CombineTurn(m, l, r, t)
    case Linking(tmp, scores, j) =>
      if j < r - l then
        j < |tmp| && j < |scores| && m' == Linked(m, l + j, tmp[j], scores[j]) && t' == Linking(tmp, scores, j + 1)
      else m' == m && t' == Over
    case Over =>
      false
  }

  /** Some process of the tree over [l, r) takes one step. */
  ghost predicate Next(p: Plan, m: Memory, l: nat, r: nat, num: Pos, t: Task, m': Memory, t': Task)
    requires Valid(m) && l < r <= |m.mmap|
    decreases t
  {
    || OwnStep(p, m, l, r, num, t, m', t')
    || (&& t.Waiting? && t'.Waiting? && l < Mid(l, r)
        && (|| (t'.right == t.right && Next(p, m, l, Mid(l, r), 2 * num, t.left, m', t'.left))
            || (t'.left == t.left && Next(p, m, Mid(l, r), r, 2 * num + 1, t.right, m', t'.right))))
  }

  // ---------- what a tree of processes leaves ----------

  /** What a fresh shared mapping reads as. */
  const BLANK: Entry := Entry([], 0.0)

  function Blanks(n: nat): (es: Row)
    ensures |es| == n && forall k | 0 <= k < n :: es[k] == BLANK
  {
    if n == 0 then [] else [BLANK] + Blanks(n - 1)
  }

  ghost function Outcome(p: Plan, es: Row, num: Pos): (r: Row)
    ensures |r| == |es|
    decreases |es|
  {
    if IsLeaf(p, |es|, num) then (if AtMostOneNegative(es) then MarkAll(Ranked(es)) else Blanks(|es|))
    else Merge(Outcome(p, Halves(es).0, 2 * num), Outcome(p, Halves(es).1, 2 * num + 1))
  }

  // ---------- the invariant ----------

  function Ids(l: nat, r: nat): (ids: seq<nat>)
    requires l <= r
    ensures |ids| == r - l && forall k | 0 <= k < r - l :: ids[k] == l + k
  {
    seq(r - l, k requires 0 <= k < r - l => l + k)
  }

  /** The pointers in [l, r) are the range's own buffers, each once. */
  ghost predicate Owns(m: Memory, l: nat, r: nat)
    requires l <= r <= |m.mmap|
  {
    Permutes(m.mmap[l..r], Ids(l, r))
  }

  predicate InPlace(m: Memory, l: nat, r: nat)
    requires Valid(m) && l <= r <= |m.mmap|
  {
    forall k | l <= k < r :: m.mmap[k] == k
  }

  predicate Inside(tmp: seq<nat>, l: nat, r: nat) {
    forall k | 0 <= k < |tmp| :: l <= tmp[k] < r
  }

  /** The temporaries, read through their pointers. */
  function Read(m: Memory, tmp: seq<nat>, scores: seq<real>): (es: Row)
    requires |tmp| == |scores| && Inside(tmp, 0, |m.texts|)
    ensures |es| == |tmp| && forall k | 0 <= k < |tmp| :: es[k] == Entry(m.texts[tmp[k]], scores[k])
  {
    seq(|tmp|, k requires 0 <= k < |tmp| => Entry(m.texts[tmp[k]], scores[k]))
  }

  /** Every pointer of the range is either still on its side or in the temporaries. */
  ghost predicate CombinePointers(m: Memory, l: nat, r: nat, ls: nat, rs: nat, tmp: seq<nat>)
    requires l < r <= |m.mmap|
  {
    && ls <= Mid(l, r) - l && rs <= r - Mid(l, r)
    && Owns(m, l, Mid(l, r)) && Owns(m, Mid(l, r), r)
    && Inside(tmp, l, r)
    && Permutes(tmp + (m.mmap[l + ls..Mid(l, r)] + m.mmap[Mid(l, r) + rs..r]), Ids(l, r))
  }

  ghost predicate CombineInv(m: Memory, l: nat, r: nat, x: Row, y: Row, t: Task)
    requires Valid(m) && l < r <= |m.mmap| && t.Combining?
  {
    && Slice(m, l, Mid(l, r)) == x && Slice(m, Mid(l, r), r) == y
    && CombinePointers(m, l, r, t.ls, t.rs, t.tmp)
    && |t.tmp| == |t.scores|
    && Merging(x, y, t.ls, t.rs, Read(m, t.tmp, t.scores))
  }

  /** A process that is not waiting; its range of the row began as `es`. */
  ghost predicate ProcInv(p: Plan, es: Row, m: Memory, l: nat, r: nat, num: Pos, t: Task)
    requires Valid(m) && l < r <= |m.mmap| && |es| == r - l
  {
    match t
    case Forked(mine) =>
      && r <= |mine| && mine[l..r] == es
      && InPlace(m, l, r) && Slice(m, l, r) == Blanks(r - l)
    case Storing(mine, i) =>
      && IsLeaf(p, |es|, num) && AtMostOneNegative(es)
      && l <= i <= r <= |mine| && mine[l..r] == MarkAll(Ranked(es))
      && InPlace(m, l, r) && forall k | l <= k < i :: At(m, k) == mine[k]
    case Waiting(_, _) =>
      false
    case Combining(_, _, _, _) =>
      && !IsLeaf(p, |es|, num)
      && CombineInv(m, l, r, Outcome(p, Halves(es).0, 2 * num), Outcome(p, Halves(es).1, 2 * num + 1), t)
    case Linking(tmp, scores, j) =>
      && |tmp| == |scores| == r - l && Inside(tmp, l, r) && Permutes(tmp, Ids(l, r))
      && Read(m, tmp, scores) == Outcome(p, es, num)
      && j <= r - l && forall k | l <= k < l + j :: m.mmap[k] == tmp[k - l] && m.pmap[k] == scores[k - l]
    case Over =>
      Owns(m, l, r) && Slice(m, l, r) == Outcome(p, es, num)
  }

  ghost predicate Inv(p: Plan, es: Row, m: Memory, l: nat, r: nat, num: Pos, t: Task)
    requires Valid(m) && l < r <= |m.mmap| && |es| == r - l
    decreases t
  {
    match t
    case Waiting(a, b) =>
      && !IsLeaf(p, |es|, num)
      && l < Mid(l, r)
      && Inv(p, Halves(es).0, m, l, Mid(l, r), 2 * num, a)
      && Inv(p, Halves(es).1, m, Mid(l, r), r, 2 * num + 1, b)
    case _ =>
      ProcInv(p, es, m, l, r, num, t)
  }

  // ---------- a process keeps to its range ----------

  /** Position `k` and buffer `k` are as they were. */
  predicate SameAt(m: Memory, m': Memory, k: nat) {
    && k < |m.mmap| == |m'.mmap| && m'.mmap[k] == m.mmap[k]
    && k < |m.texts| == |m'.texts| && m'.texts[k] == m.texts[k]
    && k < |m.pmap| == |m'.pmap| && m'.pmap[k] == m.pmap[k]
  }

  predicate Same(m: Memory, m': Memory, l: nat, r: nat) {
    forall k | l <= k < r :: SameAt(m, m', k)
  }

  predicate OnlyWithin(m: Memory, m': Memory, l: nat, r: nat) {
    && |m'.mmap| == |m.mmap| && |m'.texts| == |m.texts| && |m'.pmap| == |m.pmap|
    && forall k | 0 <= k < |m.mmap| && !(l <= k < r) :: SameAt(m, m', k)
  }

  lemma OwnsInside(m: Memory, l: nat, r: nat)
    requires l <= r <= |m.mmap| && Owns(m, l, r)
    ensures Inside(m.mmap[l..r], l, r)
  {
    forall k | 0 <= k < r - l ensures l <= m.mmap[l..r][k] < r {
      var j := PermutesFinds(m.mmap[l..r], Ids(l, r), k);
    }
  }

  lemma SlicesAgree(m: Memory, m': Memory, l: nat, r: nat)
    requires Valid(m) && Valid(m') && l <= r <= |m.mmap| == |m'.mmap| && Same(m, m', l, r)
    requires Inside(m.mmap[l..r], l, r)
    ensures Slice(m', l, r) == Slice(m, l, r) && m'.mmap[l..r] == m.mmap[l..r]
  {
    forall k | 0 <= k < r - l
      ensures m'.mmap[l..r][k] == m.mmap[l..r][k] && Slice(m', l, r)[k] == Slice(m, l, r)[k]
    {
      assert SameAt(m, m', l + k);
      var ptr := m.mmap[l..r][k];
      assert m.mmap[l + k] == ptr && l <= ptr < r;
      assert SameAt(m, m', ptr);
    }
  }

  /** Pointers that stand in place stay there, and what they lead to stays too. */
  lemma InPlaceAgrees(m: Memory, m': Memory, l: nat, r: nat)
    requires Valid(m) && Valid(m') && l <= r <= |m.mmap| == |m'.mmap| && Same(m, m', l, r) && InPlace(m, l, r)
    ensures InPlace(m', l, r) && forall k | l <= k < r :: At(m', k) == At(m, k)
  {
    forall k | l <= k < r ensures m'.mmap[k] == k && At(m', k) == At(m, k) {
      assert SameAt(m, m', k);
    }
  }

  lemma ReadsAgree(m: Memory, m': Memory, l: nat, r: nat, tmp: seq<nat>, scores: seq<real>)
    requires Valid(m) && Valid(m') && l <= r <= |m.mmap| == |m'.mmap| && Same(m, m', l, r)
    requires |tmp| == |scores| && Inside(tmp, l, r)
    ensures Read(m', tmp, scores) == Read(m, tmp, scores)
  {
    forall k | 0 <= k < |tmp| ensures m'.texts[tmp[k]] == m.texts[tmp[k]] {
      assert SameAt(m, m', tmp[k]);
    }
  }

  lemma CombineLocal(m: Memory, m': Memory, l: nat, r: nat, x: Row, y: Row, t: Task)
    requires Valid(m) && Valid(m') && l < r <= |m.mmap| == |m'.mmap| && Same(m, m', l, r)
    requires t.Combining? && CombineInv(m, l, r, x, y, t)
    ensures CombineInv(m', l, r, x, y, t)
  {
    var mid := Mid(l, r);
    OwnsInside(m, l, mid);
    OwnsInside(m, mid, r);
    SlicesAgree(m, m', l, mid);
    SlicesAgree(m, m', mid, r);
    ReadsAgree(m, m', l, r, t.tmp, t.scores);
    assert m'.mmap[l + t.ls..mid] == m'.mmap[l..mid][t.ls..] && m.mmap[l + t.ls..mid] == m.mmap[l..mid][t.ls..];
    assert m'.mmap[mid + t.rs..r] == m'.mmap[mid..r][t.rs..] && m.mmap[mid + t.rs..r] == m.mmap[mid..r][t.rs..];
  }

  lemma InPlaceInside(m: Memory, l: nat, r: nat)
    requires Valid(m) && l <= r <= |m.mmap| && InPlace(m, l, r)
    ensures m.mmap[l..r] == Ids(l, r) && Inside(m.mmap[l..r], l, r) && Owns(m, l, r)
  {
  }

  lemma ProcLocal(p: Plan, es: Row, m: Memory, m': Memory, l: nat, r: nat, num: Pos, t: Task)
    requires Valid(m) && Valid(m') && l < r <= |m.mmap| == |m'.mmap| && |es| == r - l && Same(m, m', l, r)
    requires ProcInv(p, es, m, l, r, num, t)
    ensures ProcInv(p, es, m', l, r, num, t)
  {
    match t
    case Forked(mine) =>
      InPlaceInside(m, l, r);
      SlicesAgree(m, m', l, r);
      InPlaceAgrees(m, m', l, r);
    case Storing(mine, i) =>
      InPlaceAgrees(m, m', l, r);
    case Combining(_, _, _, _) =>
      CombineLocal(m, m', l, r, Outcome(p, Halves(es).0, 2 * num), Outcome(p, Halves(es).1, 2 * num + 1), t);
    case Linking(tmp, scores, j) =>
      ReadsAgree(m, m', l, r, tmp, scores);
      forall k | l <= k < l + j ensures m'.mmap[k] == m.mmap[k] && m'.pmap[k] == m.pmap[k] {
        assert SameAt(m, m', k);
      }
    case Over =>
      OwnsInside(m, l, r);
      SlicesAgree(m, m', l, r);
  }

  /** A node depends on nothing outside its range. */
  lemma {:induction false} InvLocal(p: Plan, es: Row, m: Memory, m': Memory, l: nat, r: nat, num: Pos, t: Task)
    requires Valid(m) && Valid(m') && l < r <= |m.mmap| == |m'.mmap| && |es| == r - l && Same(m, m', l, r)
    requires Inv(p, es, m, l, r, num, t)
    ensures Inv(p, es, m', l, r, num, t)
    decreases t
  {
    if t.Waiting? {
      InvLocal(p, Halves(es).0, m, m', l, Mid(l, r), 2 * num, t.left);
      InvLocal(p, Halves(es).1, m, m', Mid(l, r), r, 2 * num + 1, t.right);
    } else {
      ProcLocal(p, es, m, m', l, r, num, t);
    }
  }

  // ---------- every step of a process keeps its invariant ----------

  lemma StoreKeeps(p: Plan, es: Row, m: Memory, l: nat, r: nat, num: Pos, t: Task, m': Memory, t': Task)
    requires Valid(m) && l < r <= |m.mmap| && |es| == r - l && t.Storing?
    requires ProcInv(p, es, m, l, r, num, t) && OwnStep(p, m, l, r, num, t, m', t')
    ensures Valid(m') && OnlyWithin(m, m', l, r) && ProcInv(p, es, m', l, r, num, t')
  {
    if t.i == r {
      InPlaceInside(m, l, r);
      forall k | 0 <= k < r - l ensures Slice(m, l, r)[k] == t.mine[l..r][k] {
        assert At(m, l + k) == t.mine[l + k];
      }
      assert Slice(m, l, r) == t.mine[l..r];
    } else {
      assert m.mmap[t.i] == t.i;
    }
  }

  lemma LinkEnds(m: Memory, l: nat, r: nat, tmp: seq<nat>, scores: seq<real>)
    requires Valid(m) && l <= r <= |m.mmap| && |tmp| == |scores| == r - l && Inside(tmp, l, r)
    requires forall k | l <= k < r :: m.mmap[k] == tmp[k - l] && m.pmap[k] == scores[k - l]
    ensures m.mmap[l..r] == tmp && Slice(m, l, r) == Read(m, tmp, scores)
  {
    forall k | 0 <= k < r - l ensures m.mmap[l..r][k] == tmp[k] && Slice(m, l, r)[k] == Read(m, tmp, scores)[k] {
      assert m.mmap[l + k] == tmp[l + k - l];
    }
  }

  lemma LinkKeeps(p: Plan, es: Row, m: Memory, l: nat, r: nat, num: Pos, t: Task, m': Memory, t': Task)
    requires Valid(m) && l < r <= |m.mmap| && |es| == r - l && t.Linking?
    requires ProcInv(p, es, m, l, r, num, t) && OwnStep(p, m, l, r, num, t, m', t')
    ensures Valid(m') && OnlyWithin(m, m', l, r) && ProcInv(p, es, m', l, r, num, t')
  {
    if t.j == r - l {
      LinkEnds(m, l, r, t.tmp, t.scores);
    } else {
      assert Read(m', t.tmp, t.scores) == Read(m, t.tmp, t.scores);
    }
  }

  lemma ReadAppend(m: Memory, tmp: seq<nat>, scores: seq<real>, ptr: nat, score: real)
    requires |tmp| == |scores| && Inside(tmp, 0, |m.texts|) && ptr < |m.texts|
    ensures Read(m, tmp + [ptr], scores + [score]) == Read(m, tmp, scores) + [Entry(m.texts[ptr], score)]
  {
  }

  /** Moving the head of the left or of the right rest behind `tmp` loses no pointer. */
  lemma PointersMove(tmp: seq<nat>, u: seq<nat>, v: seq<nat>, ids: seq<nat>)
    requires Permutes(tmp + (u + v), ids)
    ensures u != [] ==> Permutes(tmp + [u[0]] + (u[1..] + v), ids)
    ensures v != [] ==> Permutes(tmp + [v[0]] + (u + v[1..]), ids)
  {
    if u != [] {
      assert tmp + [u[0]] + (u[1..] + v) == tmp + (u + v);
    }
    if v != [] {
      forall x ensures Count(tmp + [v[0]] + (u + v[1..]), x) == Count(tmp + (u + v), x) {
        CountAppend(tmp, u + v, x);
        CountAppend(u, v, x);
        CountAppend(tmp + [v[0]], u + v[1..], x);
        CountAppend(tmp, [v[0]], x);
        CountAppend(u, v[1..], x);
      }
      forall x ensures Count(tmp + [v[0]] + (u + v[1..]), x) == Count(ids, x) {
        assert Count(tmp + (u + v), x) == Count(ids, x);
      }
    }
  }

  lemma PointersMoveRight(m: Memory, l: nat, r: nat, ls: nat, rs: nat, tmp: seq<nat>)
    requires l < r <= |m.mmap| && CombinePointers(m, l, r, ls, rs, tmp) && Mid(l, r) + rs < r
    ensures CombinePointers(m, l, r, ls, rs + 1, tmp + [m.mmap[Mid(l, r) + rs]])
  {
    var mid := Mid(l, r);
    var v := m.mmap[mid + rs..r];
    OwnsInside(m, mid, r);
    assert m.mmap[mid + rs] == m.mmap[mid..r][rs] == v[0];
    assert v[1..] == m.mmap[mid + (rs + 1)..r];
    PointersMove(tmp, m.mmap[l + ls..mid], v, Ids(l, r));
  }

  lemma PointersMoveLeft(m: Memory, l: nat, r: nat, ls: nat, rs: nat, tmp: seq<nat>)
    requires l < r <= |m.mmap| && CombinePointers(m, l, r, ls, rs, tmp) && l + ls < Mid(l, r)
    ensures CombinePointers(m, l, r, ls + 1, rs, tmp + [m.mmap[l + ls]])
  {
    var mid := Mid(l, r);
    var u := m.mmap[l + ls..mid];
    OwnsInside(m, l, mid);
    assert m.mmap[l + ls] == m.mmap[l..mid][ls] == u[0];
    assert u[1..] == m.mmap[l + (ls + 1)..mid];
    PointersMove(tmp, u, m.mmap[mid + rs..r], Ids(l, r));
  }

  lemma ReadsRight(m: Memory, x: Row, y: Row, ls: nat, rs: nat, tmp: seq<nat>, scores: seq<real>, ptr: nat, score: real)
    requires |tmp| == |scores| && Inside(tmp, 0, |m.texts|) && ptr < |m.texts|
    requires Merging(x, y, ls, rs, Read(m, tmp, scores)) && rs < |y| && y[rs] == Entry(m.texts[ptr], score)
    requires ls == |x| || Behind(x[ls], y[rs])
    ensures Merging(x, y, ls, rs + 1, Read(m, tmp + [ptr], scores + [score]))
  {
    ReadAppend(m, tmp, scores, ptr, score);
    MergingTakesRight(x, y, ls, rs, Read(m, tmp, scores));
  }

  lemma ReadsLeft(m: Memory, x: Row, y: Row, ls: nat, rs: nat, tmp: seq<nat>, scores: seq<real>, ptr: nat, score: real)
    requires |tmp| == |scores| && Inside(tmp, 0, |m.texts|) && ptr < |m.texts|
    requires Merging(x, y, ls, rs, Read(m, tmp, scores)) && ls < |x| && x[ls] == Entry(m.texts[ptr], score)
    requires rs == |y| || !Behind(x[ls], y[rs])
    ensures Merging(x, y, ls + 1, rs, Read(m, tmp + [ptr], scores + [score]))
  {
    ReadAppend(m, tmp, scores, ptr, score);
    MergingTakesLeft(x, y, ls, rs, Read(m, tmp, scores));
  }

  lemma Combines(m: Memory, l: nat, r: nat, x: Row, y: Row, t: Task)
    requires Valid(m) && l < r <= |m.mmap| && t.Combining? && CombinePointers(m, l, r, t.ls, t.rs, t.tmp)
    requires Slice(m, l, Mid(l, r)) == x && Slice(m, Mid(l, r), r) == y && |t.tmp| == |t.scores|
    requires Merging(x, y, t.ls, t.rs, Read(m, t.tmp, t.scores))
    ensures CombineInv(m, l, r, x, y, t)
  {
  }

  lemma TakesRight(m: Memory, l: nat, r: nat, x: Row, y: Row, t: Task)
    requires Valid(m) && l < r <= |m.mmap| && t.Combining? && CombineInv(m, l, r, x, y, t) && t.rs < |y|
    requires t.ls == |x| || Behind(x[t.ls], y[t.rs])
    ensures var b := Mid(l, r) + t.rs;
      CombineInv(m, l, r, x, y, Combining(t.ls, t.rs + 1, t.tmp + [m.mmap[b]], t.scores + [m.pmap[b]]))
  {
    var b := Mid(l, r) + t.rs;
    PointersMoveRight(m, l, r, t.ls, t.rs, t.tmp);
    assert y[t.rs] == At(m, b);
    ReadsRight(m, x, y, t.ls, t.rs, t.tmp, t.scores, m.mmap[b], m.pmap[b]);
    Combines(m, l, r, x, y, Combining(t.ls, t.rs + 1, t.tmp + [m.mmap[b]], t.scores + [m.pmap[b]]));
  }

  lemma TakesLeft(m: Memory, l: nat, r: nat, x: Row, y: Row, t: Task)
    requires Valid(m) && l < r <= |m.mmap| && t.Combining? && CombineInv(m, l, r, x, y, t) && t.ls < |x|
    requires t.rs == |y| || !Behind(x[t.ls], y[t.rs])
    ensures var a := l + t.ls;
      CombineInv(m, l, r, x, y, Combining(t.ls + 1, t.rs, t.tmp + [m.mmap[a]], t.scores + [m.pmap[a]]))
  {
    var a := l + t.ls;
    PointersMoveLeft(m, l, r, t.ls, t.rs, t.tmp);
    assert x[t.ls] == At(m, a);
    ReadsLeft(m, x, y, t.ls, t.rs, t.tmp, t.scores, m.mmap[a], m.pmap[a]);
    Combines(m, l, r, x, y, Combining(t.ls + 1, t.rs, t.tmp + [m.mmap[a]], t.scores + [m.pmap[a]]));
  }

  lemma TakesKeep(m: Memory, l: nat, r: nat, x: Row, y: Row, t: Task, t': Task)
    requires Valid(m) && l < r <= |m.mmap| && t.Combining? && CombineInv(m, l, r, x, y, t)
    requires t' == CombineTurn(m, l, r, t) && t'.Combining?
    ensures CombineInv(m, l, r, x, y, t')
  {
    assert t.ls < |x| ==> x[t.ls] == At(m, l + t.ls);
    assert t.rs < |y| ==> y[t.rs] == At(m, Mid(l, r) + t.rs);
    if t.rs < |y| && (t.ls == |x| || Behind(x[t.ls], y[t.rs])) {
      TakesRight(m, l, r, x, y, t);
    } else {
      TakesLeft(m, l, r, x, y, t);
    }
  }

  lemma CombineEnds(m: Memory, l: nat, r: nat, x: Row, y: Row, t: Task, t': Task)
    requires Valid(m) && l < r <= |m.mmap| && t.Combining? && CombineInv(m, l, r, x, y, t)
    requires t' == CombineTurn(m, l, r, t) && t'.Linking?
    ensures t' == Linking(t.tmp, t.scores, 0) && |t.tmp| == r - l
    ensures Permutes(t.tmp, Ids(l, r)) && Read(m, t.tmp, t.scores) == Merge(x, y)
  {
    MergingEnds(x, y, Read(m, t.tmp, t.scores));
    assert t.tmp + (m.mmap[l + t.ls..Mid(l, r)] + m.mmap[Mid(l, r) + t.rs..r]) == t.tmp;
  }

  lemma CombineKeeps(p: Plan, es: Row, m: Memory, l: nat, r: nat, num: Pos, t: Task, t': Task)
    requires Valid(m) && l < r <= |m.mmap| && |es| == r - l && t.Combining?
    requires ProcInv(p, es, m, l, r, num, t) && OwnStep(p, m, l, r, num, t, m, t')
    ensures ProcInv(p, es, m, l, r, num, t')
  {
    var x, y := Outcome(p, Halves(es).0, 2 * num), Outcome(p, Halves(es).1, 2 * num + 1);
    if t'.Combining? {
      TakesKeep(m, l, r, x, y, t, t');
    } else {
      CombineEnds(m, l, r, x, y, t, t');
    }
  }

  lemma SliceHalves(m: Memory, l: nat, r: nat)
    requires Valid(m) && l <= r <= |m.mmap| && Slice(m, l, r) == Blanks(r - l)
    ensures Slice(m, l, Mid(l, r)) == Blanks(Mid(l, r) - l) && Slice(m, Mid(l, r), r) == Blanks(r - Mid(l, r))
  {
    forall k | l <= k < r ensures At(m, k) == BLANK {
      assert Slice(m, l, r)[k - l] == At(m, k);
    }
  }

  lemma FirstKeeps(p: Plan, es: Row, m: Memory, l: nat, r: nat, num: Pos, t: Task, t': Task)
    requires Valid(m) && l < r <= |m.mmap| && |es| == r - l && t.Forked?
    requires ProcInv(p, es, m, l, r, num, t) && OwnStep(p, m, l, r, num, t, m, t')
    ensures Inv(p, es, m, l, r, num, t')
  {
    InPlaceInside(m, l, r);
    SliceHalves(m, l, r);
    RangeHalves(t.mine, l, r);
  }

  lemma JoinKeeps(p: Plan, es: Row, m: Memory, l: nat, r: nat, num: Pos)
    requires Valid(m) && l < r <= |m.mmap| && |es| == r - l
    requires Inv(p, es, m, l, r, num, Waiting(Over, Over))
    ensures ProcInv(p, es, m, l, r, num, Combining(0, 0, [], []))
  {
    var mid := Mid(l, r);
    var x, y := Outcome(p, Halves(es).0, 2 * num), Outcome(p, Halves(es).1, 2 * num + 1);
    MergingStarts(x, y);
    assert Read(m, [], []) == [];
    OwnsBoth(m, l, mid, r);
    assert [] + (m.mmap[l..mid] + m.mmap[mid..r]) == m.mmap[l..r];
  }

  lemma OwnsBoth(m: Memory, l: nat, mid: nat, r: nat)
    requires l <= mid <= r <= |m.mmap| && Owns(m, l, mid) && Owns(m, mid, r)
    ensures Owns(m, l, r)
  {
    assert m.mmap[l..r] == m.mmap[l..mid] + m.mmap[mid..r] && Ids(l, r) == Ids(l, mid) + Ids(mid, r);
    forall x ensures Count(m.mmap[l..r], x) == Count(Ids(l, r), x) {
      CountAppend(m.mmap[l..mid], m.mmap[mid..r], x);
      CountAppend(Ids(l, mid), Ids(mid, r), x);
      assert Count(m.mmap[l..mid], x) == Count(Ids(l, mid), x) && Count(m.mmap[mid..r], x) == Count(Ids(mid, r), x);
    }
  }

  lemma OwnKeeps(p: Plan, es: Row, m: Memory, l: nat, r: nat, num: Pos, t: Task, m': Memory, t': Task)
    requires Valid(m) && l < r <= |m.mmap| && |es| == r - l
    requires Inv(p, es, m, l, r, num, t) && OwnStep(p, m, l, r, num, t, m', t')
    ensures Valid(m') && OnlyWithin(m, m', l, r) && Inv(p, es, m', l, r, num, t')
  {
    match t
    case Forked(_) => FirstKeeps(p, es, m, l, r, num, t, t');
    case Storing(_, _) => StoreKeeps(p, es, m, l, r, num, t, m', t');
    case Waiting(_, _) => JoinKeeps(p, es, m, l, r, num);
    case Combining(_, _, _, _) => CombineKeeps(p, es, m, l, r, num, t, t');
    case Linking(_, _, _) => LinkKeeps(p, es, m, l, r, num, t, m', t');
    case Over =>
  }

  lemma ApartRight(m: Memory, m': Memory, l: nat, mid: nat, r: nat)
    requires l <= mid <= r <= |m.mmap| && Valid(m) && OnlyWithin(m, m', l, mid)
    ensures OnlyWithin(m, m', l, r) && Same(m, m', mid, r)
  {
  }

  lemma ApartLeft(m: Memory, m': Memory, l: nat, mid: nat, r: nat)
    requires l <= mid <= r <= |m.mmap| && Valid(m) && OnlyWithin(m, m', mid, r)
    ensures OnlyWithin(m, m', l, r) && Same(m, m', l, mid)
  {
  }

  /** Every step of any process keeps the tree's invariant, within the node's range. */
  lemma {:induction false} NextKeeps(p: Plan, es: Row, m: Memory, l: nat, r: nat, num: Pos, t: Task, m': Memory, t': Task)
    requires Valid(m) && l < r <= |m.mmap| && |es| == r - l
    requires Inv(p, es, m, l, r, num, t) && Next(p, m, l, r, num, t, m', t')
    ensures Valid(m') && OnlyWithin(m, m', l, r) && Inv(p, es, m', l, r, num, t')
    decreases t, 1
  {
    if OwnStep(p, m, l, r, num, t, m', t') {
      OwnKeeps(p, es, m, l, r, num, t, m', t');
    } else {
      if t'.right == t.right && Next(p, m, l, Mid(l, r), 2 * num, t.left, m', t'.left) {
        LeftChildKeeps(p, es, m, l, r, num, t.left, t.right, m', t'.left);
      } else {
        RightChildKeeps(p, es, m, l, r, num, t.left, t.right, m', t'.right);
      }
      assert t' == Waiting(t'.left, t'.right);
    }
  }

  lemma {:induction false} LeftChildKeeps(p: Plan, es: Row, m: Memory, l: nat, r: nat, num: Pos, a: Task, b: Task, m': Memory, a': Task)
    requires Valid(m) && l < r <= |m.mmap| && |es| == r - l && l < Mid(l, r)
    requires Inv(p, es, m, l, r, num, Waiting(a, b)) && Next(p, m, l, Mid(l, r), 2 * num, a, m', a')
    ensures Valid(m') && OnlyWithin(m, m', l, r) && Inv(p, es, m', l, r, num, Waiting(a', b))
    decreases Waiting(a, b), 0
  {
    WaitingSides(p, es, m, l, r, num, a, b);
    LeftKeeps(p, Halves(es).0, Halves(es).1, m, l, Mid(l, r), r, 2 * num, 2 * num + 1, a, b, m', a');
    WaitingSides(p, es, m', l, r, num, a', b);
  }

  lemma {:induction false} RightChildKeeps(p: Plan, es: Row, m: Memory, l: nat, r: nat, num: Pos, a: Task, b: Task, m': Memory, b': Task)
    requires Valid(m) && l < r <= |m.mmap| && |es| == r - l && l < Mid(l, r)
    requires Inv(p, es, m, l, r, num, Waiting(a, b)) && Next(p, m, Mid(l, r), r, 2 * num + 1, b, m', b')
    ensures Valid(m') && OnlyWithin(m, m', l, r) && Inv(p, es, m', l, r, num, Waiting(a, b'))
    decreases Waiting(a, b), 0
  {
    WaitingSides(p, es, m, l, r, num, a, b);
    RightKeeps(p, Halves(es).0, Halves(es).1, m, l, Mid(l, r), r, 2 * num, 2 * num + 1, a, b, m', b');
    WaitingSides(p, es, m', l, r, num, a, b');
  }

  /** Both halves of a node. */
  ghost predicate Sides(p: Plan, x: Row, y: Row, m: Memory, l: nat, mid: nat, r: nat, i: Pos, j: Pos, a: Task, b: Task)
    requires Valid(m) && l < mid < r <= |m.mmap| && |x| == mid - l && |y| == r - mid
  {
    Inv(p, x, m, l, mid, i, a) && Inv(p, y, m, mid, r, j, b)
  }

  lemma WaitingSides(p: Plan, es: Row, m: Memory, l: nat, r: nat, num: Pos, a: Task, b: Task)
    requires Valid(m) && l < r <= |m.mmap| && |es| == r - l && l < Mid(l, r)
    ensures Inv(p, es, m, l, r, num, Waiting(a, b))
       <==> !IsLeaf(p, |es|, num) && Sides(p, Halves(es).0, Halves(es).1, m, l, Mid(l, r), r, 2 * num, 2 * num + 1, a, b)
  {
  }

  lemma {:induction false} LeftKeeps(p: Plan, x: Row, y: Row, m: Memory, l: nat, mid: nat, r: nat, i: Pos, j: Pos, a: Task, b: Task,
                                     m': Memory, a': Task)
    requires Valid(m) && l < mid < r <= |m.mmap| && |x| == mid - l && |y| == r - mid
    requires Sides(p, x, y, m, l, mid, r, i, j, a, b) && Next(p, m, l, mid, i, a, m', a')
    ensures Valid(m') && OnlyWithin(m, m', l, r) && Sides(p, x, y, m', l, mid, r, i, j, a', b)
    decreases a, 2
  {
    NextKeeps(p, x, m, l, mid, i, a, m', a');
    ApartRight(m, m', l, mid, r);
    InvLocal(p, y, m, m', mid, r, j, b);
  }

  lemma {:induction false} RightKeeps(p: Plan, x: Row, y: Row, m: Memory, l: nat, mid: nat, r: nat, i: Pos, j: Pos, a: Task, b: Task,
                                      m': Memory, b': Task)
    requires Valid(m) && l < mid < r <= |m.mmap| && |x| == mid - l && |y| == r - mid
    requires Sides(p, x, y, m, l, mid, r, i, j, a, b) && Next(p, m, mid, r, j, b, m', b')
    ensures Valid(m') && OnlyWithin(m, m', l, r) && Sides(p, x, y, m', l, mid, r, i, j, a, b')
    decreases b, 2
  {
    NextKeeps(p, y, m, mid, r, j, b, m', b');
    ApartLeft(m, m', l, mid, r);
    InvLocal(p, x, m, m', l, mid, i, a);
  }

  // ---------- how much is left to do, and that something can be done ----------

  /** The most steps that the processes of a node can still take. */
  ghost function Work(p: Plan, l: nat, r: nat, num: Pos, t: Task): int
    requires l <= r
    decreases r - l, t
  {
    match t
    case Forked(_) =>
      if IsLeaf(p, r - l, num) then 2 + (r - l)
      else 1 + Work(p, l, Mid(l, r), 2 * num, Forked([])) + Work(p, Mid(l, r), r, 2 * num + 1, Forked([])) + 2 * (r - l) + 3
    case Storing(_, i) => r - i + 1
    case Waiting(a, b) => Work(p, l, Mid(l, r), 2 * num, a) + Work(p, Mid(l, r), r, 2 * num + 1, b) + 2 * (r - l) + 3
    case Combining(ls, rs, _, _) => (r - l - ls - rs) + (r - l) + 2
    case Linking(_, _, j) => r - l - j + 1
    case Over => 0
  }

  lemma ForkedWork(p: Plan, l: nat, r: nat, num: Pos, mine: Row)
    requires l <= r
    ensures Work(p, l, r, num, Forked(mine)) == Work(p, l, r, num, Forked([]))
  {
  }

  lemma {:induction false} ForkedWorkPositive(p: Plan, l: nat, r: nat, num: Pos)
    requires l <= r
    ensures Work(p, l, r, num, Forked([])) > 0
    decreases r - l
  {
    if !IsLeaf(p, r - l, num) {
      ForkedWorkPositive(p, l, Mid(l, r), 2 * num);
      ForkedWorkPositive(p, Mid(l, r), r, 2 * num + 1);
    }
  }

  lemma {:induction false} WorkRemains(p: Plan, es: Row, m: Memory, l: nat, r: nat, num: Pos, t: Task)
    requires Valid(m) && l < r <= |m.mmap| && |es| == r - l && Inv(p, es, m, l, r, num, t)
    ensures Work(p, l, r, num, t) >= 0
    decreases t
  {
    match t
    case Forked(mine) =>
      ForkedWork(p, l, r, num, mine);
      ForkedWorkPositive(p, l, r, num);
    case Waiting(a, b) =>
      WorkRemains(p, Halves(es).0, m, l, Mid(l, r), 2 * num, a);
      WorkRemains(p, Halves(es).1, m, Mid(l, r), r, 2 * num + 1, b);
    case Storing(_, _) =>
    case Combining(_, _, _, _) =>
    case Linking(_, _, _) =>
    case Over =>
  }

  lemma OwnWorks(p: Plan, m: Memory, l: nat, r: nat, num: Pos, t: Task, m': Memory, t': Task)
    requires Valid(m) && l < r <= |m.mmap| && OwnStep(p, m, l, r, num, t, m', t')
    requires (t.Storing? ==> t.i <= r) && (t.Linking? ==> t.j <= r - l)
    ensures Work(p, l, r, num, t') < Work(p, l, r, num, t)
  {
    match t
    case Forked(mine) =>
      ForkedWork(p, l, r, num, mine);
      ForkedWork(p, l, Mid(l, r), 2 * num, mine);
      ForkedWork(p, Mid(l, r), r, 2 * num + 1, mine);
    case _ =>
  }

  lemma {:induction false} NextWorks(p: Plan, es: Row, m: Memory, l: nat, r: nat, num: Pos, t: Task, m': Memory, t': Task)
    requires Valid(m) && l < r <= |m.mmap| && |es| == r - l
    requires Inv(p, es, m, l, r, num, t) && Next(p, m, l, r, num, t, m', t')
    ensures Work(p, l, r, num, t') < Work(p, l, r, num, t)
    decreases t
  {
    if OwnStep(p, m, l, r, num, t, m', t') {
      OwnWorks(p, m, l, r, num, t, m', t');
    } else if t'.right == t.right && Next(p, m, l, Mid(l, r), 2 * num, t.left, m', t'.left) {
      NextWorks(p, Halves(es).0, m, l, Mid(l, r), 2 * num, t.left, m', t'.left);
    } else {
      NextWorks(p, Halves(es).1, m, Mid(l, r), r, 2 * num + 1, t.right, m', t'.right);
    }
  }

  ghost predicate CanMove(p: Plan, m: Memory, l: nat, r: nat, num: Pos, t: Task)
    requires Valid(m) && l < r <= |m.mmap|
  {
    exists m', t' :: Next(p, m, l, r, num, t, m', t')
  }

  lemma OwnMoves(p: Plan, m: Memory, l: nat, r: nat, num: Pos, t: Task, m': Memory, t': Task)
    requires Valid(m) && l < r <= |m.mmap| && OwnStep(p, m, l, r, num, t, m', t')
    ensures CanMove(p, m, l, r, num, t)
  {
    assert Next(p, m, l, r, num, t, m', t');
  }

  lemma ChildMoves(p: Plan, m: Memory, l: nat, r: nat, num: Pos, a: Task, b: Task)
    requires Valid(m) && l < r <= |m.mmap| && l < Mid(l, r)
    ensures CanMove(p, m, l, Mid(l, r), 2 * num, a) ==> CanMove(p, m, l, r, num, Waiting(a, b))
    ensures CanMove(p, m, Mid(l, r), r, 2 * num + 1, b) ==> CanMove(p, m, l, r, num, Waiting(a, b))
  {
    if CanMove(p, m, l, Mid(l, r), 2 * num, a) {
      var m', a' :| Next(p, m, l, Mid(l, r), 2 * num, a, m', a');
      assert Next(p, m, l, r, num, Waiting(a, b), m', Waiting(a', b));
    }
    if CanMove(p, m, Mid(l, r), r, 2 * num + 1, b) {
      var m', b' :| Next(p, m, Mid(l, r), r, 2 * num + 1, b, m', b');
      assert Next(p, m, l, r, num, Waiting(a, b), m', Waiting(a, b'));
    }
  }

  /** What a process that is forked, or done sorting, or merging does next. */
  function Turn(p: Plan, m: Memory, l: nat, r: nat, num: Pos, t: Task): (Memory, Task)
    requires Valid(m) && l < r <= |m.mmap|
    requires t.Combining? ==> t.ls <= Mid(l, r) - l && t.rs <= r - Mid(l, r)
    requires t.Storing? && t.i < r ==> t.i < |t.mine|
    requires t.Linking? && t.j < r - l ==> t.j < |t.tmp| && t.j < |t.scores|
  {
    match t
    case Storing(mine, i) => if i < r then (Stored(m, i, mine[i]), Storing(mine, i + 1)) else (m, Over)
    case Waiting(_, _) => (m, Combining(0, 0, [], []))
    case Combining(_, _, _, _) => (m, CombineTurn(m, l, r, t))
    case Linking(tmp, scores, j) => if j < r - l then (Linked(m, l + j, tmp[j], scores[j]), Linking(tmp, scores, j + 1)) else (m, Over)
    case _ => (m, Over)
  }

  lemma ProcMoves(p: Plan, es: Row, m: Memory, l: nat, r: nat, num: Pos, t: Task)
    requires Valid(m) && l < r <= |m.mmap| && |es| == r - l && ProcInv(p, es, m, l, r, num, t) && t != Over
    ensures CanMove(p, m, l, r, num, t)
  {
    if t.Forked? {
      var t' := if !IsLeaf(p, r - l, num) then Waiting(Forked(t.mine), Forked(t.mine))
                else if AtMostOneNegative(t.mine[l..r]) then Storing(SortedWithin(t.mine, l, r), l) else Over;
      OwnMoves(p, m, l, r, num, t, m, t');
    } else {
      var (m', t') := Turn(p, m, l, r, num, t);
      OwnMoves(p, m, l, r, num, t, m', t');
    }
  }

  /** As long as its root is not over, the tree can move: no process waits for ever. */
  lemma {:induction false} NeverStuck(p: Plan, es: Row, m: Memory, l: nat, r: nat, num: Pos, t: Task)
    requires Valid(m) && l < r <= |m.mmap| && |es| == r - l && Inv(p, es, m, l, r, num, t) && t != Over
    ensures CanMove(p, m, l, r, num, t)
    decreases t
  {
    if t.Waiting? {
      if t.left != Over {
        NeverStuck(p, Halves(es).0, m, l, Mid(l, r), 2 * num, t.left);
      } else if t.right != Over {
        NeverStuck(p, Halves(es).1, m, Mid(l, r), r, 2 * num + 1, t.right);
      } else {
        OwnMoves(p, m, l, r, num, t, m, Combining(0, 0, [], []));
      }
      ChildMoves(p, m, l, r, num, t.left, t.right);
    } else {
      ProcMoves(p, es, m, l, r, num, t);
    }
  }

  // ---------- when the outcome is that of the threads ----------

  lemma {:induction false} BlanksCount(n: nat)
    ensures Count(Blanks(n), BLANK) == n
  {
    if n > 0 {
      assert Blanks(n)[1..] == Blanks(n - 1);
      BlanksCount(n - 1);
    }
  }

  lemma {:induction false} MarkedNotBlank(es: Row)
    ensures Count(MarkAll(es), BLANK) == 0
  {
    if es != [] {
      assert |Mark(es[0]).title| >= |SECRET| > 0;
      MarkedNotBlank(es[1..]);
    }
  }

  /** A leaf that failed leaves blanks that every merge above passes on. */
  lemma {:induction false} OutcomeBlanks(p: Plan, es: Row, num: Pos)
    ensures LeavesComplete(p, es, num) ==> Outcome(p, es, num) == TreeResult(p, es, num)
    ensures !LeavesComplete(p, es, num) ==> Count(Outcome(p, es, num), BLANK) > 0
    decreases |es|
  {
    if IsLeaf(p, |es|, num) {
      BlanksCount(|es|);
    } else {
      var x, y := Halves(es).0, Halves(es).1;
      OutcomeBlanks(p, x, 2 * num);
      OutcomeBlanks(p, y, 2 * num + 1);
      MergeCounts(Outcome(p, x, 2 * num), Outcome(p, y, 2 * num + 1), BLANK);
    }
  }

  lemma OutcomeExact(p: Plan, es: Row, num: Pos)
    ensures Outcome(p, es, num) == TreeResult(p, es, num) <==> LeavesComplete(p, es, num)
  {
    OutcomeBlanks(p, es, num);
    TreePermutes(p, es, num);
    assert Count(TreeResult(p, es, num), BLANK) == Count(MarkAll(es), BLANK);
    MarkedNotBlank(es);
  }

  // ---------- whole runs ----------

  /** The mappings that `Filter` makes for a row of `n` titles: its own buffer at every position. */
  ghost predicate Mapped(m: Memory, n: nat) {
    Valid(m) && n <= |m.mmap| && InPlace(m, 0, n) && Slice(m, 0, n) == Blanks(n)
  }

  /** That is, every position leads to a buffer of its own, with an empty text and the score 0. */
  lemma MappedReads(m: Memory, n: nat, k: nat)
    requires Mapped(m, n) && k < n
    ensures m.mmap[k] == k && m.texts[k] == [] && m.pmap[k] == 0.0
  {
    assert Slice(m, 0, n)[k] == At(m, k);
  }

  ghost predicate Step(p: Plan, n: nat, s: State, s': State) {
    Valid(s.mem) && 0 < n <= |s.mem.mmap| && Next(p, s.mem, 0, n, 1, s.task, s'.mem, s'.task)
  }

  /** `s` is reached from the request's row after `k` steps of any processes in any order. */
  ghost predicate Reached(p: Plan, es: Row, m: Memory, k: nat, s: State) {
    if k == 0 then s == State(m, Forked(es))
    else exists s0 :: Reached(p, es, m, k - 1, s0) && Step(p, |es|, s0, s)
  }

  ghost predicate Good(p: Plan, es: Row, s: State) {
    es != [] && Valid(s.mem) && |es| <= |s.mem.mmap| && Inv(p, es, s.mem, 0, |es|, 1, s.task)
  }

  ghost function Ahead(p: Plan, es: Row, s: State): int {
    Work(p, 0, |es|, 1, s.task)
  }

  lemma StepGood(p: Plan, es: Row, s: State, s': State)
    requires Good(p, es, s) && Step(p, |es|, s, s')
    ensures Good(p, es, s') && Ahead(p, es, s') < Ahead(p, es, s)
  {
    NextKeeps(p, es, s.mem, 0, |es|, 1, s.task, s'.mem, s'.task);
    NextWorks(p, es, s.mem, 0, |es|, 1, s.task, s'.mem, s'.task);
  }

  lemma {:induction false} ReachedGood(p: Plan, es: Row, m: Memory, k: nat, s: State)
    requires es != [] && Mapped(m, |es|) && Reached(p, es, m, k, s)
    ensures Good(p, es, s) && k + Ahead(p, es, s) <= Ahead(p, es, State(m, Forked(es)))
  {
    if k == 0 {
      assert es[0..|es|] == es;
    } else {
      var s0 :| Reached(p, es, m, k - 1, s0) && Step(p, |es|, s0, s);
      ReachedGood(p, es, m, k - 1, s0);
      StepGood(p, es, s0, s);
    }
  }

  /** In every order of the processes: the table of pointers ends as a permutation of the original
      buffers, and what is read through it is the threads' result exactly when no leaf met two
      negative scores; a leaf that did leaves its buffers blank and the others go on. */
  lemma AnyOrder(p: Plan, es: Row, m: Memory, k: nat, s: State)
    requires es != [] && Mapped(m, |es|) && Reached(p, es, m, k, s) && s.task == Over
    ensures Valid(s.mem) && |es| <= |s.mem.mmap|
    ensures Permutes(s.mem.mmap[0..|es|], Ids(0, |es|))
    ensures Slice(s.mem, 0, |es|) == TreeResult(p, es, 1) <==> LeavesComplete(p, es, 1)
    ensures Slice(s.mem, 0, |es|) == MarkAll(Ranked(es)) <==> LeavesComplete(p, es, 1) && SplitsSurvive(p, es, 1)
  {
    ReachedGood(p, es, m, k, s);
    OutcomeExact(p, es, 1);
    TreeRanks(p, es, 1);
    OutcomeBlanks(p, es, 1);
    MarkedNotBlank(Ranked(es));
  }

  /** No order of steps is endless, and none gets stuck. */
  lemma OrdersEnd(p: Plan, es: Row, m: Memory, k: nat, s: State) returns (s': State)
    requires es != [] && Mapped(m, |es|) && Reached(p, es, m, k, s)
    ensures k <= Work(p, 0, |es|, 1, Forked(es))
    ensures s.task != Over ==> Reached(p, es, m, k + 1, s')
  {
    ReachedGood(p, es, m, k, s);
    WorkRemains(p, es, s.mem, 0, |es|, 1, s.task);
    s' := s;
    if s.task != Over {
      NeverStuck(p, es, s.mem, 0, |es|, 1, s.task);
      var m', t' :| Next(p, s.mem, 0, |es|, 1, s.task, m', t');
      s' := State(m', t');
      assert Step(p, |es|, s, s');
    }
  }

  /** A finished run of the threads and one of the processes leave the same ranking. */
  lemma ThreadsAndProcessesAgree(p: Plan, es: Row, n: nat, threads: Threads.State, m: Memory, k: nat, procs: State)
    requires es != [] && Threads.Reached(p, es, n, threads) && threads.task == Threads.Done
    requires Mapped(m, |es|) && Reached(p, es, m, k, procs) && procs.task == Over
    ensures Valid(procs.mem) && |es| <= |procs.mem.mmap|
    ensures Slice(procs.mem, 0, |es|) == threads.row
  {
    Threads.AnyInterleaving(p, es, n, threads);
    AnyOrder(p, es, m, k, procs);
  }
}
