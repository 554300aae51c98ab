/** `Tmerge` of server.c, in place, its two children taken one after the other. */
module ThreadMerge {
  import opened Bags
  import opened Titles
  import opened Ranking
  import opened SortLibrary

  /** The program survives every leaf's assertion. */
  ghost predicate LeavesComplete(p: Plan, es: Row, num: Pos)
    decreases |es|
  {
    if IsLeaf(p, |es|, num) then AtMostOneNegative(es)
    else LeavesComplete(p, Halves(es).0, 2 * num) && LeavesComplete(p, Halves(es).1, 2 * num + 1)
  }

  /** Where one `sort` of the whole row would not abort, no tree over it does. */
  lemma {:induction false} WholeCompletes(p: Plan, es: Row, num: Pos)
    requires AtMostOneNegative(es)
    ensures LeavesComplete(p, es, num)
    decreases |es|
  {
    if !IsLeaf(p, |es|, num) {
      var (l, r) := Halves(es);
      assert forall i | 0 <= i < |r| :: r[i] == es[|l| + i];
      WholeCompletes(p, l, 2 * num);
      WholeCompletes(p, r, 2 * num + 1);
    }
  }

  lemma ViewSplits(movies: array<Title>, pts: array<real>, st: nat, end: nat)
    requires movies.Length == pts.Length && st <= end <= pts.Length
    ensures (st + end) / 2 - st == (end - st) / 2
    ensures View(movies, pts, st, end - st)
         == View(movies, pts, st, (st + end) / 2 - st) + View(movies, pts, (st + end) / 2, end - (st + end) / 2)
    ensures Halves(View(movies, pts, st, end - st))
         == (View(movies, pts, st, (st + end) / 2 - st), View(movies, pts, (st + end) / 2, end - (st + end) / 2))
  {
    var (l, r) := Halves(View(movies, pts, st, end - st));
    var mid := (st + end) / 2;
    assert forall k | 0 <= k < |l| :: l[k] == View(movies, pts, st, end - st)[k];
    assert l == View(movies, pts, st, mid - st);
    assert forall k | 0 <= k < |r| :: r[k] == View(movies, pts, st, end - st)[|l| + k];
    assert r == View(movies, pts, mid, end - mid);
  }

  /** What is merged so far, followed by the merge of what both sides still hold. */
  ghost predicate Merging(x: Row, y: Row, ls: nat, rs: nat, out: Row) {
    && ls <= |x| && rs <= |y|
    && |out| == ls + rs
    && out + Merge(x[ls..], y[rs..]) == Merge(x, y)
  }

  lemma MergingStarts(x: Row, y: Row)
    ensures Merging(x, y, 0, 0, [])
  {
    assert x[0..] == x && y[0..] == y;
  }

  lemma MergingTakesRight(x: Row, y: Row, ls: nat, rs: nat, out: Row)
    requires Merging(x, y, ls, rs, out) && rs < |y|
    requires ls == |x| || Behind(x[ls], y[rs])
    ensures Merging(x, y, ls, rs + 1, out + [y[rs]])
  {
    var u, v := x[ls..], y[rs..];
    assert v[1..] == y[rs + 1..];
    MergeHead(u, v);
    AppendNext(out, y[rs], Merge(u, v[1..]));
  }

  lemma MergingTakesLeft(x: Row, y: Row, ls: nat, rs: nat, out: Row)
    requires Merging(x, y, ls, rs, out) && ls < |x|
    requires rs == |y| || !Behind(x[ls], y[rs])
    ensures Merging(x, y, ls + 1, rs, out + [x[ls]])
  {
    var u, v := x[ls..], y[rs..];
    assert u[1..] == x[ls + 1..];
    MergeHead(u, v);
    AppendNext(out, x[ls], Merge(u[1..], v));
  }

  lemma MergeHead(u: Row, v: Row)
    ensures v != [] && (u == [] || Behind(u[0], v[0])) ==> Merge(u, v) == [v[0]] + Merge(u, v[1..])
    ensures u != [] && (v == [] || !Behind(u[0], v[0])) ==> Merge(u, v) == [u[0]] + Merge(u[1..], v)
  {
    if u == [] && v != [] { assert v == [v[0]] + v[1..]; }
    if v == [] && u != [] { assert u == [u[0]] + u[1..]; }
  }

  lemma MergingEnds(x: Row, y: Row, out: Row)
    requires Merging(x, y, |x|, |y|, out)
    ensures out == Merge(x, y)
  {
    assert x[|x|..] == [] && y[|y|..] == [];
  }

  /** The arrays hold the entries `es` from position `base` on. */
  ghost predicate Holds(movies: array<Title>, pts: array<real>, base: nat, es: Row)
    reads movies, pts
  {
    && base + |es| <= movies.Length
    && base + |es| <= pts.Length
    && forall k | 0 <= k < |es| :: es[k] == Entry(movies[base + k], pts[base + k])
  }

  /** The merge loops: compare while both sides last, then copy what one side has left,
      then write the temporaries back over the range. */
  method MergeRange(movies: array<Title>, pts: array<real>, st: nat, mid: nat, end: nat)
    requires movies.Length == pts.Length && st < mid < end <= pts.Length
    modifies movies, pts
    ensures View(movies, pts, st, end - st)
         == Merge(old(View(movies, pts, st, mid - st)), old(View(movies, pts, mid, end - mid)))
    ensures OnlyRange(movies, pts, st, end - st)
  {
    ghost var x := View(movies, pts, st, mid - st);
    ghost var y := View(movies, pts, mid, end - mid);
    var tmpMovies := new Title[end - st];
    var tmpPts := new real[end - st];
    BuildMerge(movies, pts, st, mid, end, tmpMovies, tmpPts, x, y);
    WriteBack(movies, pts, st, end, tmpMovies, tmpPts, Merge(x, y));
    assert View(movies, pts, st, end - st) == Merge(x, y);
  }

  method WriteBack(movies: array<Title>, pts: array<real>, st: nat, end: nat,
                   tmpMovies: array<Title>, tmpPts: array<real>, ghost es: Row)
    requires movies.Length == pts.Length && st < end <= pts.Length
    requires tmpMovies != movies && tmpPts != pts
    requires |es| == end - st && Holds(tmpMovies, tmpPts, 0, es)
    modifies movies, pts
    ensures Holds(movies, pts, st, es)
    ensures OnlyRange(movies, pts, st, end - st)
  {
    var i, j := st, 0;
    while i < end
      invariant st <= i <= end && j == i - st
      invariant forall k | 0 <= k < j :: es[k] == Entry(movies[st + k], pts[st + k])
      invariant OnlyRange(movies, pts, st, end - st)
    {
      assert es[j] == Entry(tmpMovies[0 + j], tmpPts[0 + j]);
      movies[i] := tmpMovies[j];
      pts[i] := tmpPts[j];
      i, j := i + 1, j + 1;
    }
  }

  /** One assignment to the temporaries, from the right-hand side. */
  method TakeRight(tmpMovies: array<Title>, tmpPts: array<real>, n: nat, movie: Title, score: real,
                   ghost x: Row, ghost y: Row, ghost a: nat, ghost b: nat, ghost out: Row) returns (ghost out': Row)
    requires n < tmpMovies.Length && n < tmpPts.Length && n == a + b
    requires Merging(x, y, a, b, out) && Holds(tmpMovies, tmpPts, 0, out)
    requires b < |y| && y[b] == Entry(movie, score) && (a == |x| || Behind(x[a], y[b]))
    modifies tmpMovies, tmpPts
    ensures Merging(x, y, a, b + 1, out') && Holds(tmpMovies, tmpPts, 0, out')
  {
    MergingTakesRight(x, y, a, b, out);
    out' := out + [y[b]];
    tmpPts[n] := score;
    tmpMovies[n] := movie;
  }

  /** One assignment to the temporaries, from the left-hand side. */
  method TakeLeft(tmpMovies: array<Title>, tmpPts: array<real>, n: nat, movie: Title, score: real,
                  ghost x: Row, ghost y: Row, ghost a: nat, ghost b: nat, ghost out: Row) returns (ghost out': Row)
    requires n < tmpMovies.Length && n < tmpPts.Length && n == a + b
    requires Merging(x, y, a, b, out) && Holds(tmpMovies, tmpPts, 0, out)
    requires a < |x| && x[a] == Entry(movie, score) && (b == |y| || !Behind(x[a], y[b]))
    modifies tmpMovies, tmpPts
    ensures Merging(x, y, a + 1, b, out') && Holds(tmpMovies, tmpPts, 0, out')
  {
    MergingTakesLeft(x, y, a, b, out);
    out' := out + [x[a]];
    tmpPts[n] := score;
    tmpMovies[n] := movie;
  }

  method BuildMerge(movies: array<Title>, pts: array<real>, st: nat, mid: nat, end: nat,
                    tmpMovies: array<Title>, tmpPts: array<real>, ghost x: Row, ghost y: Row)
    requires st < mid < end && |x| == mid - st && |y| == end - mid
    requires Holds(movies, pts, st, x) && Holds(movies, pts, mid, y)
    requires tmpMovies.Length == tmpPts.Length == end - st
    requires tmpMovies != movies && tmpPts != pts
    modifies tmpMovies, tmpPts
    ensures Holds(tmpMovies, tmpPts, 0, Merge(x, y))
  {
    var sz, ls, rs, a, b, out := MergeWhileBothLast(movies, pts, st, mid, end, tmpMovies, tmpPts, x, y);
    while rs != end
      invariant sz == a + b && ls == st + a && rs == mid + b && a <= |x| && b <= |y| && (a == |x| || b == |y|)
      invariant Merging(x, y, a, b, out) && Holds(tmpMovies, tmpPts, 0, out)
    {
      assert y[b] == Entry(movies[mid + b], pts[mid + b]);
      out := TakeRight(tmpMovies, tmpPts, sz, movies[rs], pts[rs], x, y, a, b, out);
      sz, rs, b := sz + 1, rs + 1, b + 1;
    }
    while ls != mid
      invariant sz == a + b && ls == st + a && a <= |x| && b == |y|
      invariant Merging(x, y, a, b, out) && Holds(tmpMovies, tmpPts, 0, out)
    {
      assert x[a] == Entry(movies[st + a], pts[st + a]);
      out := TakeLeft(tmpMovies, tmpPts, sz, movies[ls], pts[ls], x, y, a, b, out);
      sz, ls, a := sz + 1, ls + 1, a + 1;
    }
    MergingEnds(x, y, out);
  }

  /** The comparing loop, left as soon as one side is used up. */
  method MergeWhileBothLast(movies: array<Title>, pts: array<real>, st: nat, mid: nat, end: nat,
                            tmpMovies: array<Title>, tmpPts: array<real>, ghost x: Row, ghost y: Row)
    returns (sz: nat, ls: nat, rs: nat, ghost a: nat, ghost b: nat, ghost out: Row)
    requires st < mid < end && |x| == mid - st && |y| == end - mid
    requires Holds(movies, pts, st, x) && Holds(movies, pts, mid, y)
    requires tmpMovies.Length == tmpPts.Length == end - st
    requires tmpMovies != movies && tmpPts != pts
    modifies tmpMovies, tmpPts
    ensures sz == a + b && ls == st + a && rs == mid + b && a <= |x| && b <= |y| && (a == |x| || b == |y|)
    ensures Merging(x, y, a, b, out) && Holds(tmpMovies, tmpPts, 0, out)
  {
    var i := 0;
    ls, rs, sz := st, mid, 0;
    a, b, out := 0, 0, [];
    MergingStarts(x, y);
    while i < end - st
      invariant i == a + b && st <= ls == st + a < mid <= rs == mid + b < end
      invariant Merging(x, y, a, b, out) && Holds(tmpMovies, tmpPts, 0, out)
    {
      assert x[a] == Entry(movies[st + a], pts[st + a]);
      assert y[b] == Entry(movies[mid + b], pts[mid + b]);
      if pts[ls] < pts[rs] || (pts[ls] == pts[rs] && StrCmp(movies[ls], movies[rs]) > 0) {
        out := TakeRight(tmpMovies, tmpPts, i, movies[rs], pts[rs], x, y, a, b, out);
        rs, b := rs + 1, b + 1;
      } else {
        out := TakeLeft(tmpMovies, tmpPts, i, movies[ls], pts[ls], x, y, a, b, out);
        ls, a := ls + 1, a + 1;
      }
      sz := i + 1;
      if rs == end || ls == mid {
        break;
      }
      i := i + 1;
    }
  }

  /** `Tmerge` on [st, end): the range ends as the tree's result, nothing else changes, and the
      program aborts exactly when some leaf meets two negative scores. On the empty range of a
      request that matches no title its one leaf writes out of bounds. */
  method Tmerge(p: Plan, movies: array<Title>, pts: array<real>, st: nat, end: nat, num: Pos) returns (ending: Ending)
    requires movies.Length == pts.Length && st <= end <= pts.Length
    modifies movies, pts
    ensures ending == OutOfBounds <==> st == end
    ensures ending == Completed <==> st < end && LeavesComplete(p, old(View(movies, pts, st, end - st)), num)
    ensures ending == Completed ==> View(movies, pts, st, end - st) == TreeResult(p, old(View(movies, pts, st, end - st)), num)
    ensures OnlyRange(movies, pts, st, end - st)
    decreases end - st, 1
  {
    if num >= p.cutoff || end - st <= p.threshold {
      ending := Sort(movies, pts, st, end - st);
      return;
    }
    ViewSplits(movies, pts, st, end);
    ending := ForkJoin(p, movies, pts, st, (st + end) / 2, end, num);
  }

  /** The inner node: both children, then the merge of what they leave. */
  method ForkJoin(p: Plan, movies: array<Title>, pts: array<real>, st: nat, mid: nat, end: nat, num: Pos) returns (ending: Ending)
    requires movies.Length == pts.Length && st < mid < end <= pts.Length
    modifies movies, pts
    ensures ending != OutOfBounds
    ensures ending == Completed <==>
      && LeavesComplete(p, old(View(movies, pts, st, mid - st)), 2 * num)
      && LeavesComplete(p, old(View(movies, pts, mid, end - mid)), 2 * num + 1)
    ensures ending == Completed ==>
      View(movies, pts, st, end - st)
      == Merge(TreeResult(p, old(View(movies, pts, st, mid - st)), 2 * num),
               TreeResult(p, old(View(movies, pts, mid, end - mid)), 2 * num + 1))
    ensures OnlyRange(movies, pts, st, end - st)
    decreases end - st, 0
  {
    ghost var r := View(movies, pts, mid, end - mid);
    ending := Tmerge(p, movies, pts, st, mid, 2 * num);
    assert View(movies, pts, mid, end - mid) == r;
    if ending != Completed { return; }
    ghost var l := View(movies, pts, st, mid - st);
    ending := Tmerge(p, movies, pts, mid, end, 2 * num + 1);
    assert View(movies, pts, st, mid - st) == l;
    if ending != Completed { return; }
    MergeRange(movies, pts, st, mid, end);
  }
}
