/** The ranking order of a request's movies, its unique sorted result, and the merge tree
    that has to reproduce it. */
module Ranking {
  import opened Bags
  import opened Titles

  datatype Entry = Entry(title: Title, pts: real)

  type Row = seq<Entry>

  /** The test that makes a merge take its right-hand entry before its left-hand one. */
  predicate Behind(x: Entry, y: Entry) {
    x.pts < y.pts || (x.pts == y.pts && StrCmp(x.title, y.title) > 0)
  }

  ghost predicate Sorted(s: Row) {
    forall i, j | 0 <= i < j < |s| :: !Behind(s[i], s[j])
  }

  // ---------- Behind is a strict total order ----------

  lemma BehindTotal(x: Entry, y: Entry)
    ensures !(Behind(x, y) && Behind(y, x))
    ensures !Behind(x, y) && !Behind(y, x) ==> x == y
  {
    StrCmpSwap(x.title, y.title);
    StrCmpZero(x.title, y.title);
  }

  lemma InOrderTransitive(x: Entry, y: Entry, z: Entry)
    requires !Behind(x, y) && !Behind(y, z)
    ensures !Behind(x, z)
  {
    if x.pts == y.pts == z.pts {
      StrCmpTransitive(x.title, y.title, z.title);
    }
  }

  // ---------- merging ----------

  function Merge(x: Row, y: Row): (z: Row)
    ensures |z| == |x| + |y|
  {
    if x == [] then y
    else if y == [] then x
    else if Behind(x[0], y[0]) then [y[0]] + Merge(x, y[1..])
    else [x[0]] + Merge(x[1..], y)
  }

  lemma {:induction false} MergeCounts(x: Row, y: Row, e: Entry)
    ensures Count(Merge(x, y), e) == Count(x, e) + Count(y, e)
  {
    if x != [] && y != [] {
      if Behind(x[0], y[0]) {
        assert Merge(x, y)[1..] == Merge(x, y[1..]);
        MergeCounts(x, y[1..], e);
      } else {
        assert Merge(x, y)[1..] == Merge(x[1..], y);
        MergeCounts(x[1..], y, e);
      }
    }
  }

  lemma MergePermutes(x: Row, y: Row, u: Row, v: Row)
    requires Permutes(x, u) && Permutes(y, v)
    ensures Permutes(Merge(x, y), u + v)
  {
    forall e ensures Count(Merge(x, y), e) == Count(u + v, e) {
      assert Count(x, e) == Count(u, e) && Count(y, e) == Count(v, e);
      MergeCounts(x, y, e);
      CountAppend(u, v, e);
    }
  }

  /** `e` comes before everything in `s`. */
  ghost predicate Heads(e: Entry, s: Row) {
    forall k | 0 <= k < |s| :: !Behind(e, s[k])
  }

  lemma HeadsSorted(e: Entry, s: Row)
    requires Sorted(s) && (s != [] ==> !Behind(e, s[0]))
    ensures Heads(e, s)
  {
    forall k | 0 <= k < |s| ensures !Behind(e, s[k]) {
      if k > 0 { InOrderTransitive(e, s[0], s[k]); }
    }
  }

  lemma HeadsMerge(e: Entry, x: Row, y: Row)
    requires Heads(e, x) && Heads(e, y)
    ensures Heads(e, Merge(x, y))
  {
    MergePermutes(x, y, x, y);
    forall k | 0 <= k < |Merge(x, y)| ensures !Behind(e, Merge(x, y)[k]) {
      var j := PermutesFinds(Merge(x, y), x + y, k);
    }
  }

  lemma {:induction false} MergeSorts(x: Row, y: Row)
    requires Sorted(x) && Sorted(y)
    ensures Sorted(Merge(x, y))
  {
    if x != [] && y != [] {
      BehindTotal(x[0], y[0]);
      if Behind(x[0], y[0]) {
        MergeSorts(x, y[1..]);
        HeadsSorted(y[0], x);
        HeadsMerge(y[0], x, y[1..]);
      } else {
        MergeSorts(x[1..], y);
        HeadsSorted(x[0], y);
        HeadsMerge(x[0], x[1..], y);
      }
    }
  }

  // ---------- the sorted permutation, and that there is only one ----------

  lemma {:induction false} SortedUnique(s: Row, t: Row)
    requires Sorted(s) && Sorted(t) && Permutes(s, t)
    ensures s == t
  {
    PermutesSize(s, t);
    if s != [] {
      var i := PermutesFinds(t, s, 0);
      var j := PermutesFinds(s, t, 0);
      BehindTotal(s[0], t[0]);
      BehindTotal(s[0], s[0]);
      assert i > 0 ==> !Behind(s[0], s[i]);
      assert j > 0 ==> !Behind(t[0], t[j]);
      TailsPermute(s, t);
      SortedUnique(s[1..], t[1..]);
      ConsEqual(s, t);
    }
  }

  lemma {:induction false} RankedExists(es: Row)
    ensures exists r :: Sorted(r) && Permutes(r, es)
  {
    if es == [] {
      assert Sorted([]) && Permutes([], es);
    } else {
      RankedExists(es[1..]);
      var rest :| Sorted(rest) && Permutes(rest, es[1..]);
      MergeSorts([es[0]], rest);
      MergePermutes([es[0]], rest, [es[0]], es[1..]);
      assert es == [es[0]] + es[1..];
      assert Permutes(Merge([es[0]], rest), es);
    }
  }

  /** The sorted permutation of a row, by description: what any correct sort returns. */
  ghost function Ranked(es: Row): (r: Row)
    ensures Sorted(r) && Permutes(r, es)
    ensures |r| == |es|
  {
    RankedExists(es);
    var r :| Sorted(r) && Permutes(r, es);
    PermutesSize(r, es);
    r
  }

  lemma RankedUnique(s: Row, es: Row)
    requires Sorted(s) && Permutes(s, es)
    ensures s == Ranked(es)
  {
    SortedUnique(s, Ranked(es));
  }

  /** The ranking in numbers: of two entries the earlier one has the higher score, or the same score
      and the same title or one that comes first byte by byte. */
  lemma RankedOrder(es: Row, i: nat, j: nat)
    requires i < j < |es|
    ensures var x, y := Ranked(es)[i], Ranked(es)[j]; var a, b := x.title, y.title;
      || x.pts > y.pts
      || (&& x.pts == y.pts
          && (|| a == b
              || (|a| < |b| && a == b[..|a|])
              || exists k: nat :: k < |a| && k < |b| && a[..k] == b[..k] && a[k] < b[k]))
  {
    var x, y := Ranked(es)[i], Ranked(es)[j];
    assert !Behind(x, y);
    StrCmpZero(x.title, y.title);
    StrCmpBytes(x.title, y.title);
  }

  // ---------- marking with the secret ----------

  function Mark(e: Entry): Entry {
    Entry(AddSecret(e.title), e.pts)
  }

  lemma MarkInjective(x: Entry, y: Entry)
    requires Mark(x) == Mark(y)
    ensures x == y
  {
    var a, b := AddSecret(x.title), AddSecret(y.title);
    assert |a| == |x.title| + |SECRET| && |b| == |y.title| + |SECRET|;
    assert x.title == a[..|x.title|] && y.title == b[..|y.title|];
  }

  function MarkAll(s: Row): (marked: Row)
    ensures |marked| == |s|
  {
    if s == [] then [] else [Mark(s[0])] + MarkAll(s[1..])
  }

  lemma {:induction false} MarkAllAt(s: Row, k: nat)
    requires k < |s|
    ensures MarkAll(s)[k] == Mark(s[k]) == Entry(AddSecret(s[k].title), s[k].pts)
  {
    if k > 0 { MarkAllAt(s[1..], k - 1); }
  }

  lemma {:induction false} MarkAllAppend(s: Row, t: Row)
    ensures MarkAll(s + t) == MarkAll(s) + MarkAll(t)
  {
    if s == [] {
      assert s + t == t;
    } else {
      assert (s + t)[1..] == s[1..] + t;
      MarkAllAppend(s[1..], t);
    }
  }

  lemma {:induction false} MarkCounts(s: Row, e: Entry)
    ensures Count(MarkAll(s), Mark(e)) == Count(s, e)
  {
    if s != [] {
      if Mark(s[0]) == Mark(e) { MarkInjective(s[0], e); }
      MarkCounts(s[1..], e);
    }
  }

  lemma UnmarkPermutes(s: Row, t: Row)
    requires Permutes(MarkAll(s), MarkAll(t))
    ensures Permutes(s, t)
  {
    forall e ensures Count(s, e) == Count(t, e) {
      MarkCounts(s, e);
      MarkCounts(t, e);
    }
  }

  // ---------- merging marked rows ----------

  /** The two entries tie, and the suffix turns their order around. */
  predicate Turned(x: Entry, y: Entry) {
    x.pts == y.pts && Disturbed(x.title, y.title)
  }

  lemma MarkedOrder(x: Entry, y: Entry)
    ensures !Turned(x, y) ==> (Behind(Mark(x), Mark(y)) <==> Behind(x, y))
    ensures Turned(x, y) ==> (Behind(Mark(x), Mark(y)) <==> Behind(y, x)) && x != y
  {
    SuffixOrder(x.title, y.title);
    StrCmpSwap(x.title, y.title);
    if Turned(x, y) { SuffixTurns(x.title, y.title); }
  }

  /** What lies between two turned entries is turned against the first of them. */
  lemma TurnedBetween(x: Entry, y: Entry, z: Entry)
    requires Turned(x, z) && !Behind(x, y) && !Behind(y, z) && x != y
    ensures Turned(x, y)
  {
    BehindTotal(x, y);
    BehindTotal(x, z);
    InOrderTransitive(x, y, z);
    StrCmpSwap(x.title, y.title);
    DisturbedBetween(x.title, y.title, z.title);
  }

  /** What a merge of `x` and `y` can stand: a left-hand entry may be turned against a later
      right-hand one only if the right-hand side holds an equal of it, which hides the later one. */
  ghost predicate TiesSurvive(x: Row, y: Row) {
    forall i, j | 0 <= i < |x| && 0 <= j < |y| && Turned(x[i], y[j]) :: Behind(y[j], x[i]) && x[i] in y
  }

  ghost predicate MarksCommute(x: Row, y: Row) {
    Merge(MarkAll(x), MarkAll(y)) == MarkAll(Merge(x, y))
  }

  lemma SortedTail(s: Row)
    requires Sorted(s) && s != []
    ensures Sorted(s[1..]) && Heads(s[0], s)
  {
    BehindTotal(s[0], s[0]);
  }

  /** The heads meet, and the right-hand one goes first. */
  lemma RightFirst(x: Row, y: Row)
    requires Sorted(x) && Sorted(y) && x != [] && y != [] && Behind(x[0], y[0])
    ensures TiesSurvive(x, y) <==> !Turned(x[0], y[0]) && TiesSurvive(x, y[1..])
  {
    SortedTail(x);
    BehindTotal(x[0], y[0]);
    var e := y[0];
    forall i | 0 <= i < |x| ensures Turned(x[i], e) ==> Turned(x[0], e) {
      if Turned(x[i], e) { TurnedBetween(e, x[0], x[i]); }
    }
    forall i | 0 <= i < |x| ensures x[i] in y ==> x[i] in y[1..] {
      assert !Behind(x[0], x[i]);
    }
    assert TiesSurvive(x, y) ==> TiesSurvive(x, y[1..]) by {
      assert forall j | 0 <= j < |y[1..]| :: y[1..][j] == y[j + 1];
    }
    assert !Turned(x[0], e) && TiesSurvive(x, y[1..]) ==> TiesSurvive(x, y) by {
      assert forall j | 0 < j < |y| :: y[j] == y[1..][j - 1];
    }
  }

  /** The heads meet, and the left-hand one goes first. */
  lemma LeftFirst(x: Row, y: Row)
    requires Sorted(x) && Sorted(y) && x != [] && y != [] && !Behind(x[0], y[0])
    ensures TiesSurvive(x, y) <==> !Turned(x[0], y[0]) && TiesSurvive(x[1..], y)
  {
    SortedTail(y);
    var e := x[0];
    forall j | 0 <= j < |y| ensures Turned(e, y[j]) && !Turned(e, y[0]) ==> e == y[0] && Behind(y[j], e) {
      BehindTotal(e, y[j]);
      if Turned(e, y[j]) && e != y[0] { TurnedBetween(e, y[0], y[j]); }
    }
    assert TiesSurvive(x, y) ==> !Turned(e, y[0]) by {
      if Turned(e, y[0]) && Behind(y[0], e) {
        assert e !in y;
      }
    }
    assert TiesSurvive(x, y) ==> TiesSurvive(x[1..], y) by {
      assert forall i | 0 <= i < |x[1..]| :: x[1..][i] == x[i + 1];
    }
    assert !Turned(e, y[0]) && TiesSurvive(x[1..], y) ==> TiesSurvive(x, y) by {
      assert forall i | 0 < i < |x| :: x[i] == x[1..][i - 1];
    }
  }

  /** Merging marked rows is marking the merged row exactly when the ties survive. */
  lemma {:induction false} MergeMarked(x: Row, y: Row)
    requires Sorted(x) && Sorted(y)
    ensures MarksCommute(x, y) <==> TiesSurvive(x, y)
  {
    if x != [] && y != [] {
      MarkedOrder(x[0], y[0]);
      BehindTotal(x[0], y[0]);
      if Mark(x[0]) == Mark(y[0]) { MarkInjective(x[0], y[0]); }
      SortedTail(x);
      SortedTail(y);
      if Behind(x[0], y[0]) {
        RightFirst(x, y);
        MergeMarked(x, y[1..]);
        MergeStep(x, y);
      } else {
        LeftFirst(x, y);
        MergeMarked(x[1..], y);
        MergeStep(x, y);
      }
    }
  }

  lemma ConsExact(e: Entry, s: Row, f: Entry, t: Row)
    ensures [e] + s == [f] + t <==> e == f && s == t
  {
    if [e] + s == [f] + t {
      assert s == ([e] + s)[1..] && t == ([f] + t)[1..];
      assert ([e] + s)[0] == ([f] + t)[0];
    }
  }

  /** One turn of both merges, marked and unmarked. */
  lemma MergeStep(x: Row, y: Row)
    requires x != [] && y != []
    ensures var s := if Behind(x[0], y[0]) then Merge(x, y[1..]) else Merge(x[1..], y);
      var h := if Behind(x[0], y[0]) then y[0] else x[0];
      var m := if Behind(Mark(x[0]), Mark(y[0])) then Mark(y[0]) else Mark(x[0]);
      var t := if Behind(Mark(x[0]), Mark(y[0])) then Merge(MarkAll(x), MarkAll(y[1..])) else Merge(MarkAll(x[1..]), MarkAll(y));
      MarksCommute(x, y) <==> m == Mark(h) && t == MarkAll(s)
  {
    var s := if Behind(x[0], y[0]) then Merge(x, y[1..]) else Merge(x[1..], y);
    var h := if Behind(x[0], y[0]) then y[0] else x[0];
    var m := if Behind(Mark(x[0]), Mark(y[0])) then Mark(y[0]) else Mark(x[0]);
    var t := if Behind(Mark(x[0]), Mark(y[0])) then Merge(MarkAll(x), MarkAll(y[1..])) else Merge(MarkAll(x[1..]), MarkAll(y));
    assert Merge(x, y) == [h] + s;
    MarkAllCons(h, s);
    MarkAllCons(x[0], x[1..]);
    MarkAllCons(y[0], y[1..]);
    assert x == [x[0]] + x[1..] && y == [y[0]] + y[1..];
    MergeCons(Mark(x[0]), MarkAll(x[1..]), Mark(y[0]), MarkAll(y[1..]));
    assert Merge(MarkAll(x), MarkAll(y)) == [m] + t;
    ConsExact(m, t, Mark(h), MarkAll(s));
  }

  lemma MarkAllCons(e: Entry, s: Row)
    ensures MarkAll([e] + s) == [Mark(e)] + MarkAll(s)
  {
    assert ([e] + s)[1..] == s;
  }

  lemma MergeCons(e: Entry, s: Row, f: Entry, t: Row)
    ensures Merge([e] + s, [f] + t) == if Behind(e, f) then [f] + Merge([e] + s, t) else [e] + Merge(s, [f] + t)
  {
    assert ([e] + s)[1..] == s && ([f] + t)[1..] == t;
  }

  // ---------- a merge hides nothing that went wrong before it ----------

  lemma ConsSorted(e: Entry, s: Row)
    requires Sorted(s) && Heads(e, s)
    ensures Sorted([e] + s)
    ensures forall f | Heads(f, s) && !Behind(f, e) :: Heads(f, [e] + s)
  {
  }

  lemma HeadsTail(s: Row)
    requires s != []
    ensures forall f | Heads(f, s) :: Heads(f, s[1..]) && !Behind(f, s[0])
  {
  }

  /** If a merge comes out sorted and marked, then so did both of its sides. */
  lemma {:induction false} MergeUnmarks(a: Row, b: Row, s: Row) returns (u: Row, v: Row)
    requires Sorted(s) && Merge(a, b) == MarkAll(s)
    ensures a == MarkAll(u) && b == MarkAll(v) && Sorted(u) && Sorted(v)
    ensures forall e | Heads(e, s) :: Heads(e, u) && Heads(e, v)
  {
    if a == [] {
      u, v := [], s;
    } else if b == [] {
      u, v := s, [];
    } else {
      SortedTail(s);
      HeadsTail(s);
      var e := s[0];
      assert Merge(a, b)[1..] == MarkAll(s[1..]);
      if Behind(a[0], b[0]) {
        u, v := MergeUnmarks(a, b[1..], s[1..]);
        ConsSorted(e, v);
        MarkAllCons(e, v);
        assert b == [b[0]] + b[1..];
        v := [e] + v;
      } else {
        u, v := MergeUnmarks(a[1..], b, s[1..]);
        ConsSorted(e, u);
        MarkAllCons(e, u);
        assert a == [a[0]] + a[1..];
        u := [e] + u;
      }
    }
  }

  lemma TiesPermuted(x: Row, y: Row, a: Row, b: Row)
    requires Permutes(a, x) && Permutes(b, y) && TiesSurvive(x, y)
    ensures TiesSurvive(a, b)
  {
    forall i, j | 0 <= i < |a| && 0 <= j < |b| && Turned(a[i], b[j]) ensures Behind(b[j], a[i]) && a[i] in b {
      var i' := PermutesFinds(a, x, i);
      var j' := PermutesFinds(b, y, j);
      CountMember(b, a[i]);
      CountMember(y, a[i]);
    }
  }

  lemma MergeRanked(a: Row, b: Row)
    ensures Merge(MarkAll(Ranked(a)), MarkAll(Ranked(b))) == MarkAll(Ranked(a + b)) <==> TiesSurvive(a, b)
  {
    var x, y := Ranked(a), Ranked(b);
    MergeMarked(x, y);
    MergeSorts(x, y);
    MergePermutes(x, y, a, b);
    RankedUnique(Merge(x, y), a + b);
    if TiesSurvive(a, b) { TiesPermuted(a, b, x, y); }
    if TiesSurvive(x, y) { TiesPermuted(x, y, a, b); }
  }

  // ---------- the merge tree ----------

  type Pos = n: nat | n > 0 witness 1

  /** How a range is divided: a node numbered `cutoff` or more, or a range of at most
      `threshold` entries, is sorted by one thread. The source uses 1000 and 8. */
  datatype Plan = Plan(threshold: Pos, cutoff: nat)

  const SOURCE_PLAN := Plan(1000, 8)

  predicate IsLeaf(p: Plan, size: nat, num: Pos) {
    num >= p.cutoff || size <= p.threshold
  }

  function Halves(es: Row): (h: (Row, Row))
    ensures es == h.0 + h.1
    ensures |h.0| == |es| / 2
  {
    (es[..|es| / 2], es[|es| / 2..])
  }

  /** How many leaves the tree over a range has. */
  function Leaves(p: Plan, size: nat, num: Pos): (n: nat)
    ensures n > 0
    decreases size
  {
    if IsLeaf(p, size, num) then 1 else Leaves(p, size / 2, 2 * num) + Leaves(p, size - size / 2, 2 * num + 1)
  }

  /** The source's tree: up to 1000 entries are one leaf, more are divided, at most into the eight
      leaves of the fourth level, and from 4004 entries on into just those. */
  lemma SourceLeaves(size: nat)
    ensures Leaves(SOURCE_PLAN, size, 1) == 1 <==> size <= 1000
    ensures Leaves(SOURCE_PLAN, size, 1) <= 8
    ensures size >= 4004 ==> Leaves(SOURCE_PLAN, size, 1) == 8
  {
    var l, r := size / 2, size - size / 2;
    QuarterLeaves(l, 2);
    QuarterLeaves(r, 3);
  }

  lemma QuarterLeaves(size: nat, num: Pos)
    requires num in {2, 3}
    ensures Leaves(SOURCE_PLAN, size, num) <= 4
    ensures size >= 2002 ==> Leaves(SOURCE_PLAN, size, num) == 4
  {
    var l, r := size / 2, size - size / 2;
    LastLeaves(l, 2 * num);
    LastLeaves(r, 2 * num + 1);
  }

  lemma LastLeaves(size: nat, num: Pos)
    requires 4 <= num <= 7
    ensures Leaves(SOURCE_PLAN, size, num) == if size <= 1000 then 1 else 2
  {
  }

  /** Where the range [l, r) is divided. */
  function Mid(l: nat, r: nat): (mid: nat)
    requires l <= r
    ensures l <= mid <= r && mid == (l + r) / 2
  {
    l + (r - l) / 2
  }

  lemma RangeHalves(row: Row, l: nat, r: nat)
    requires l <= r <= |row|
    ensures Halves(row[l..r]) == (row[l..Mid(l, r)], row[Mid(l, r)..r])
  {
    var mid := Mid(l, r);
    assert row[l..mid] == row[l..r][..mid - l] && row[mid..r] == row[l..r][mid - l..];
  }

  /** What the tree leaves in a range that starts as `es`, sorting leaves and merging upwards. */
  ghost function TreeResult(p: Plan, es: Row, num: Pos): (r: Row)
    ensures |r| == |es|
    decreases |es|
  {
    if IsLeaf(p, |es|, num) then MarkAll(Ranked(es))
    else Merge(TreeResult(p, Halves(es).0, 2 * num), TreeResult(p, Halves(es).1, 2 * num + 1))
  }

  /** Each entry comes out once, and with the secret once, whether or not ties are safe. */
  lemma {:induction false} TreePermutes(p: Plan, es: Row, num: Pos)
    ensures Permutes(TreeResult(p, es, num), MarkAll(es))
    decreases |es|
  {
    if IsLeaf(p, |es|, num) {
      MarkPermutes(Ranked(es), es);
    } else {
      var (l, r) := Halves(es);
      TreePermutes(p, l, 2 * num);
      TreePermutes(p, r, 2 * num + 1);
      MergePermutes(TreeResult(p, l, 2 * num), TreeResult(p, r, 2 * num + 1), MarkAll(l), MarkAll(r));
      MarkAllAppend(l, r);
    }
  }

  lemma {:induction false} MarkPermutes(s: Row, t: Row)
    requires Permutes(s, t)
    ensures Permutes(MarkAll(s), MarkAll(t))
  {
    PermutesSize(s, t);
    if s != [] {
      var k := PermutesFinds(s, t, 0);
      PermutesWithout(s, t, k);
      MarkPermutes(s[1..], t[..k] + t[k + 1..]);
      forall e ensures Count(MarkAll(s), e) == Count(MarkAll(t), e) {
        assert Count(MarkAll(s[1..]), e) == Count(MarkAll(t[..k] + t[k + 1..]), e);
        MarkWithout(t, k, e);
      }
    }
  }

  lemma MarkWithout(t: Row, k: nat, e: Entry)
    requires k < |t|
    ensures Count(MarkAll(t), e) == (if Mark(t[k]) == e then 1 else 0) + Count(MarkAll(t[..k] + t[k + 1..]), e)
  {
    var u, v := t[..k], t[k + 1..];
    assert t == u + t[k..] && t[k..][1..] == v;
    MarkAllAppend(u, t[k..]);
    MarkAllAppend(u, v);
    CountAppend(MarkAll(u), MarkAll(t[k..]), e);
    CountAppend(MarkAll(u), MarkAll(v), e);
  }

  /** Ties survive every merge of the tree: this can be read off the row before it is sorted. */
  ghost predicate SplitsSurvive(p: Plan, es: Row, num: Pos)
    decreases |es|
  {
    IsLeaf(p, |es|, num)
    || (&& TiesSurvive(Halves(es).0, Halves(es).1)
        && SplitsSurvive(p, Halves(es).0, 2 * num)
        && SplitsSurvive(p, Halves(es).1, 2 * num + 1))
  }

  lemma HalfRanks(p: Plan, es: Row, num: Pos, u: Row)
    requires Sorted(u) && TreeResult(p, es, num) == MarkAll(u)
    ensures TreeResult(p, es, num) == MarkAll(Ranked(es))
  {
    TreePermutes(p, es, num);
    UnmarkPermutes(u, es);
    RankedUnique(u, es);
  }

  /** A tree comes out right only if both of its halves did. */
  lemma HalvesRank(p: Plan, l: Row, r: Row, num: Pos, num': Pos, s: Row)
    requires Sorted(s) && Merge(TreeResult(p, l, num), TreeResult(p, r, num')) == MarkAll(s)
    ensures TreeResult(p, l, num) == MarkAll(Ranked(l)) && TreeResult(p, r, num') == MarkAll(Ranked(r))
  {
    var u, v := MergeUnmarks(TreeResult(p, l, num), TreeResult(p, r, num'), s);
    HalfRanks(p, l, num, u);
    HalfRanks(p, r, num', v);
  }

  /** One inner node comes out right exactly when its halves do and the ties survive its merge. */
  lemma NodeRanks(p: Plan, l: Row, r: Row, num: Pos, num': Pos)
    ensures Merge(TreeResult(p, l, num), TreeResult(p, r, num')) == MarkAll(Ranked(l + r))
       <==> TiesSurvive(l, r) && Right(p, l, num) && Right(p, r, num')
  {
    MergeRanked(l, r);
    if Merge(TreeResult(p, l, num), TreeResult(p, r, num')) == MarkAll(Ranked(l + r)) {
      HalvesRank(p, l, r, num, num', Ranked(l + r));
    }
  }

  /** The tree yields what one `sort` of the whole range would. */
  ghost predicate Right(p: Plan, es: Row, num: Pos) {
    TreeResult(p, es, num) == MarkAll(Ranked(es))
  }

  lemma NodeSplits(p: Plan, es: Row, num: Pos, l: Row, r: Row)
    requires !IsLeaf(p, |es|, num) && (l, r) == Halves(es)
    ensures Right(p, es, num) <==> TiesSurvive(l, r) && Right(p, l, 2 * num) && Right(p, r, 2 * num + 1)
    ensures SplitsSurvive(p, es, num)
       <==> TiesSurvive(l, r) && SplitsSurvive(p, l, 2 * num) && SplitsSurvive(p, r, 2 * num + 1)
    ensures |l| < |es| && |r| < |es|
  {
    NodeRanks(p, l, r, 2 * num, 2 * num + 1);
    assert l + r == es;
  }

  /** For a leaf, and for a node whose halves behave. */
  lemma NodeExact(p: Plan, es: Row, num: Pos, l: Row, r: Row)
    requires (l, r) == Halves(es)
    requires !IsLeaf(p, |es|, num) ==>
      && (Right(p, l, 2 * num) <==> SplitsSurvive(p, l, 2 * num))
      && (Right(p, r, 2 * num + 1) <==> SplitsSurvive(p, r, 2 * num + 1))
    ensures Right(p, es, num) <==> SplitsSurvive(p, es, num)
  {
    if !IsLeaf(p, |es|, num) { NodeSplits(p, es, num, l, r); }
  }

  /** Whatever the threshold and the cutoff, the tree yields what one call of `sort` on the
      whole range would, exactly when no merge has to compare a pair that the suffix turned. */
  lemma {:induction false} TreeRanks(p: Plan, es: Row, num: Pos)
    ensures Right(p, es, num) <==> SplitsSurvive(p, es, num)
    decreases |es|
  {
    var l, r := Halves(es).0, Halves(es).1;
    if !IsLeaf(p, |es|, num) {
      TreeRanks(p, l, 2 * num);
      TreeRanks(p, r, 2 * num + 1);
    }
    NodeExact(p, es, num, l, r);
  }

  predicate PrintableRow(es: Row) {
    forall i | 0 <= i < |es| :: Printable(es[i].title)
  }

  /** Titles without a byte at or below the tab survive every merge of every tree. */
  lemma {:induction false} PrintableSurvives(p: Plan, es: Row, num: Pos)
    requires PrintableRow(es)
    ensures SplitsSurvive(p, es, num)
    decreases |es|
  {
    if !IsLeaf(p, |es|, num) {
      var (l, r) := Halves(es);
      assert forall i | 0 <= i < |r| :: r[i] == es[|l| + i];
      forall i, j | 0 <= i < |l| && 0 <= j < |r| ensures !Turned(l[i], r[j]) {
        PrintableOrder(l[i].title, r[j].title);
      }
      PrintableSurvives(p, l, 2 * num);
      PrintableSurvives(p, r, 2 * num + 1);
    }
  }

  function Copies(e: Entry, n: nat): (es: Row)
    ensures |es| == n && forall k | 0 <= k < n :: es[k] == e
  {
    seq(n, _ => e)
  }

  /** With a control byte the source's own tree can come out in the wrong order: 500 entries "A"
      in one leaf and 501 entries "A\001" with the same score in the other. */
  lemma ControlByteMisranks(es: Row)
    requires es == Copies(Entry([65], 1.0), 500) + Copies(Entry([65, 1], 1.0), 501)
    ensures !Right(SOURCE_PLAN, es, 1)
  {
    TreeRanks(SOURCE_PLAN, es, 1);
    var a, b := Copies(Entry([65], 1.0), 500), Copies(Entry([65, 1], 1.0), 501);
    HalvesAppend(a, b);
    ControlByteDisturbs();
    assert Turned(a[0], b[0]) && a[0] !in b;
  }

  lemma HalvesAppend(a: Row, b: Row)
    requires |a| == (|a| + |b|) / 2
    ensures Halves(a + b) == (a, b)
  {
  }
}
