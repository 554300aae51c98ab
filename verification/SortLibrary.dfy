/** The selection sort of lib.c, in place over a range of the title and score arrays. */
module SortLibrary {
  import opened Bags
  import opened Titles
  import opened Ranking

  /** The range [base, base + size) of the two parallel arrays, as entries. */
  function View(movies: array<Title>, pts: array<real>, base: nat, size: nat): (es: Row)
    requires movies.Length == pts.Length && base + size <= pts.Length
    reads movies, pts
    ensures |es| == size
  {
    seq(size, k requires 0 <= k < size reads movies, pts => Entry(movies[base + k], pts[base + k]))
  }

  /** What `sort` needs so that its `assert(max >= 0.0)` never fires: the last entry left
      over is never searched for, so one negative score goes unnoticed. */
  ghost predicate AtMostOneNegative(es: Row) {
    forall i, j | 0 <= i < j < |es| :: es[i].pts >= 0.0 || es[j].pts >= 0.0
  }

  /** In numbers: two scores below zero make the assertion fail, and none or one does not. */
  lemma NegativesAbort(es: Row)
    ensures AtMostOneNegative(es) <==> !exists i, j :: 0 <= i < j < |es| && es[i].pts < 0.0 && es[j].pts < 0.0
  {
  }

  /** How a call of `sort` ends: with its range sorted, with the program aborted by a failed
      assertion, or by writing to `movies[size - 1]` in front of an empty range. */
  datatype Ending = Completed | Aborted | OutOfBounds

  // ---------- one round of selection ----------

  /** After `i` rounds: the first `i` entries are the marked best ones, the others are left. */
  ghost predicate Sorting(orig: Row, cur: Row, i: nat) {
    && |cur| == |orig|
    && i <= |cur|
    && (forall k | 0 <= k < i :: cur[k] == Mark(Ranked(orig)[k]))
    && Permutes(Ranked(orig)[i..], cur[i..])
  }

  /** The pick of one round: some non-negative entry is left, and `idx` is the best one. */
  predicate Picks(cur: Row, i: nat, idx: nat) {
    && i <= idx < |cur|
    && cur[idx].pts >= 0.0
    && forall k | i <= k < |cur| :: !Behind(cur[idx], cur[k])
  }

  predicate AllNegative(cur: Row, i: nat) {
    forall k | i <= k < |cur| :: cur[k].pts < 0.0
  }

  function Placed(cur: Row, i: nat, idx: nat): (next: Row)
    requires i <= idx < |cur|
  {
    cur[idx := cur[i]][i := Mark(cur[idx])]
  }

  lemma SortingStarts(es: Row)
    ensures Sorting(es, es, 0)
  {
    assert Ranked(es)[0..] == Ranked(es) && es[0..] == es;
  }

  lemma PickIsNext(orig: Row, cur: Row, i: nat, idx: nat)
    requires Sorting(orig, cur, i) && i <= idx < |cur|
    requires forall k | i <= k < |cur| :: !Behind(cur[idx], cur[k])
    ensures Ranked(orig)[i] == cur[idx]
  {
    var best, rest := Ranked(orig)[i..], cur[i..];
    assert cur[idx] == rest[idx - i] && Ranked(orig)[i] == best[0];
    var k := PermutesFinds(rest, best, idx - i);
    var j := PermutesFinds(best, rest, 0);
    assert rest[j] == cur[i + j] && best[k] == Ranked(orig)[i + k];
    BehindTotal(Ranked(orig)[i], cur[idx]);
  }

  lemma PlaceKeeps(orig: Row, cur: Row, i: nat, idx: nat)
    requires Sorting(orig, cur, i) && i <= idx < |cur|
    requires forall k | i <= k < |cur| :: !Behind(cur[idx], cur[k])
    ensures Sorting(orig, Placed(cur, i, idx), i + 1)
  {
    PickIsNext(orig, cur, i, idx);
    var best, rest := Ranked(orig)[i..], cur[i..];
    PermutesSwapped(best, rest, idx - i);
    assert best[1..] == Ranked(orig)[i + 1..];
    assert rest[idx - i := rest[0]][1..] == Placed(cur, i, idx)[i + 1..];
  }

  /** The last entry is marked where it stands. */
  lemma LastIsMarked(orig: Row, cur: Row)
    requires |orig| >= 1 && Sorting(orig, cur, |orig| - 1)
    ensures Placed(cur, |orig| - 1, |orig| - 1) == MarkAll(Ranked(orig))
  {
    var n := |orig| - 1;
    BehindTotal(cur[n], cur[n]);
    PlaceKeeps(orig, cur, n, n);
    forall k | 0 <= k <= n ensures MarkAll(Ranked(orig))[k] == Mark(Ranked(orig)[k]) {
      MarkAllAt(Ranked(orig), k);
    }
  }

  // ---------- when the assertion holds ----------

  lemma NegativesLeft(orig: Row, cur: Row, i: nat)
    requires Sorting(orig, cur, i) && i + 1 < |cur| && AllNegative(cur, i)
    ensures !AtMostOneNegative(orig)
  {
    var best, rest := Ranked(orig)[i..], cur[i..];
    var a := PermutesFinds(best, rest, 0);
    var b := PermutesFinds(best, rest, 1);
    assert rest[a] == cur[i + a] && rest[b] == cur[i + b];
    assert best[0] == Ranked(orig)[i] && best[1] == Ranked(orig)[i + 1];
    var x, y := PermutesFindsTwo(Ranked(orig), orig, i, i + 1);
  }

  /** All rounds but the last found a non-negative entry. */
  lemma NoNegativesLeft(orig: Row)
    requires forall k | 0 <= k < |orig| - 1 :: Ranked(orig)[k].pts >= 0.0
    ensures AtMostOneNegative(orig)
  {
    forall i, j | 0 <= i < j < |orig| ensures orig[i].pts >= 0.0 || orig[j].pts >= 0.0 {
      var x, y := PermutesFindsTwo(orig, Ranked(orig), i, j);
    }
  }

  // ---------- the source's routines ----------

  /** `argmax` has looked at the entries [start, i): `ret` is the best of them, if any of them has
      a score above -1. */
  ghost predicate BestSoFar(es: Row, start: nat, i: nat, ret: nat, max: real) {
    && start <= i <= |es| && start <= ret < |es| && max >= -1.0
    && (forall k | start <= k < i :: es[k].pts <= max)
    && (max > -1.0 ==> es[ret].pts == max && BestTie(es, start, i, ret))
  }

  /** What one turn of the loop in `argmax` makes of `ret` and `max`. */
  function ScanTurn(e: Entry, i: nat, ret: nat, max: real, title: Title): (nat, real) {
    if e.pts > max then (i, e.pts)
    else if e.pts == max && StrCmp(title, e.title) > 0 then (i, max)
    else (ret, max)
  }

  /** No entry tied with `es[ret]` in [start, end) has a smaller title. */
  ghost predicate BestTie(es: Row, start: nat, end: nat, ret: nat)
    requires ret < |es| && end <= |es|
  {
    forall k | start <= k < end && es[k].pts == es[ret].pts :: StrCmp(es[ret].title, es[k].title) <= 0
  }

  lemma TieTaken(es: Row, start: nat, i: nat, ret: nat)
    requires ret < |es| && i < |es| && BestTie(es, start, i, ret) && es[i].pts == es[ret].pts
    requires StrCmp(es[ret].title, es[i].title) > 0
    ensures BestTie(es, start, i + 1, i)
  {
    StrCmpSwap(es[ret].title, es[i].title);
    StrCmpZero(es[i].title, es[i].title);
    forall k | start <= k < i && es[k].pts == es[ret].pts ensures StrCmp(es[i].title, es[k].title) <= 0 {
      StrCmpTransitive(es[i].title, es[ret].title, es[k].title);
    }
  }

  lemma ScanNext(es: Row, start: nat, i: nat, ret: nat, max: real)
    requires BestSoFar(es, start, i, ret, max) && i < |es|
    ensures var (ret', max') := ScanTurn(es[i], i, ret, max, es[ret].title); BestSoFar(es, start, i + 1, ret', max')
  {
    StrCmpZero(es[i].title, es[i].title);
    if es[i].pts == max && StrCmp(es[ret].title, es[i].title) > 0 && max > -1.0 {
      TieTaken(es, start, i, ret);
    }
  }

  /** The whole range was looked at: the pick is right, or the assertion fails with cause. */
  lemma ScanEnds(es: Row, start: nat, ret: nat, max: real)
    requires BestSoFar(es, start, |es|, ret, max) && start < |es|
    ensures max >= 0.0 ==> Picks(es, start, ret)
    ensures max < 0.0 ==> AllNegative(es, start)
  {
  }

  /** `argmax`: the index of the best entry in [start, end), ties going to the least title.
      `ok` is the source's `assert(max >= 0.0)`. */
  method ArgMax(src: array<real>, movie: array<Title>, base: nat, start: nat, end: nat)
    returns (ret: nat, ok: bool)
    requires src.Length == movie.Length && start < end && base + end <= src.Length
    ensures ok ==> Picks(View(movie, src, base, end), start, ret)
    ensures !ok ==> AllNegative(View(movie, src, base, end), start)
  {
    ghost var es := View(movie, src, base, end);
    ret := start;
    var max := -1.0;
    var i := start;
    while i < end
      invariant i <= end && ret < end && BestSoFar(es, start, i, ret, max)
    {
      ScanNext(es, start, i, ret, max);
      assert es[i] == Entry(movie[base + i], src[base + i]) && es[ret].title == movie[base + ret];
      if src[base + i] > max {
        max := src[base + i];
        ret := i;
      } else if src[base + i] == max {
        if StrCmp(movie[base + ret], movie[base + i]) > 0 {
          ret := i;
        }
      }
      i := i + 1;
    }
    ScanEnds(es, start, ret, max);
    ok := max >= 0.0;
  }

  /** The range [base, base + size) is all that changed. */
  twostate predicate OnlyRange(movies: array<Title>, pts: array<real>, base: nat, size: nat)
    requires movies.Length == pts.Length
    reads movies, pts
  {
    forall k | 0 <= k < pts.Length && !(base <= k < base + size) :: movies[k] == old(movies[k]) && pts[k] == old(pts[k])
  }

  /** One `swap` followed by `add_secret` on the entry brought to position `i`. */
  method Place(movies: array<Title>, pts: array<real>, base: nat, size: nat, i: nat, idx: nat)
    requires movies.Length == pts.Length && i <= idx < size && base + size <= pts.Length
    modifies movies, pts
    ensures View(movies, pts, base, size) == Placed(old(View(movies, pts, base, size)), i, idx)
    ensures OnlyRange(movies, pts, base, size)
  {
    movies[base + i], movies[base + idx] := movies[base + idx], movies[base + i];
    pts[base + i], pts[base + idx] := pts[base + idx], pts[base + i];
    movies[base + i] := AddSecret(movies[base + i]);
  }

  /** `sort(movies + base, pts + base, size)`. An empty range makes it write out of bounds, two
      negative scores make the program abort, and otherwise the range holds its marked ranking. */
  method Sort(movies: array<Title>, pts: array<real>, base: nat, size: nat) returns (end: Ending)
    requires movies.Length == pts.Length && base + size <= pts.Length
    modifies movies, pts
    ensures end == OutOfBounds <==> size == 0
    ensures end == Completed <==> size > 0 && AtMostOneNegative(old(View(movies, pts, base, size)))
    ensures end == Completed ==> View(movies, pts, base, size) == MarkAll(Ranked(old(View(movies, pts, base, size))))
    ensures OnlyRange(movies, pts, base, size)
  {
    if size == 0 { return OutOfBounds; }
    ghost var orig := View(movies, pts, base, size);
    SortingStarts(orig);
    var i := 0;
    while i < size - 1
      invariant 0 <= i <= size - 1
      invariant Sorting(orig, View(movies, pts, base, size), i)
      invariant forall k | 0 <= k < i :: Ranked(orig)[k].pts >= 0.0
      invariant OnlyRange(movies, pts, base, size)
    {
      ghost var cur := View(movies, pts, base, size);
      var idx, found := ArgMax(pts, movies, base, i, size);
      if !found {
        NegativesLeft(orig, cur, i);
        return Aborted;
      }
      PickIsNext(orig, cur, i, idx);
      PlaceKeeps(orig, cur, i, idx);
      Place(movies, pts, base, size, i, idx);
      i := i + 1;
    }
    ghost var cur := View(movies, pts, base, size);
    LastIsMarked(orig, cur);
    NoNegativesLeft(orig);
    var last := base + (size - 1);
    movies[last] := AddSecret(movies[last]);
    assert View(movies, pts, base, size) == Placed(cur, size - 1, size - 1);
    end := Completed;
  }
}
