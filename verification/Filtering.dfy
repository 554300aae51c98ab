/** `Filter` of server.c: the row that a request's titles and scores start as, and what the whole
    request then yields. */
module Filtering {
  import opened Titles
  import opened Ranking
  import opened SortLibrary
  import opened ThreadMerge
  import ThreadTree

  datatype Movie = Movie(title: Title, profile: seq<real>)

  // ---------- which titles, and with which score ----------

  /** `strstr(title, key)` finds the key at position `i`. */
  predicate FoundAt(key: Title, title: Title, i: nat) {
    i + |key| <= |title| && title[i..i + |key|] == key
  }

  ghost predicate Wanted(key: Title, title: Title) {
    (key != [] && key[0] == 42) || exists i :: FoundAt(key, title, i)
  }

  /** The sum of the first `n` products of the two profiles. */
  function Dot(a: seq<real>, b: seq<real>, n: nat): real
    requires n <= |a| && n <= |b|
  {
    if n == 0 then 0.0 else Dot(a, b, n - 1) + a[n - 1] * b[n - 1]
  }

  /** A key that starts with a star wants every title, any other the titles it is a part of. */
  lemma WantedExact(key: Title, title: Title)
    ensures key != [] && key[0] == '*' as int ==> Wanted(key, title)
    ensures !(key != [] && key[0] == '*' as int) ==> (Wanted(key, title) <==> exists u: Title, v: Title :: title == u + key + v)
  {
    if i: nat :| FoundAt(key, title, i) {
      assert title == title[..i] + key + title[i + |key|..];
    }
    if u: Title, v: Title :| title == u + key + v {
      assert FoundAt(key, title, |u|);
    }
  }

  /** The score does not depend on which profile is the movie's. */
  lemma {:induction false} DotSymmetric(a: seq<real>, b: seq<real>, n: nat)
    requires n <= |a| && n <= |b|
    ensures Dot(a, b, n) == Dot(b, a, n)
  {
    if n > 0 { DotSymmetric(a, b, n - 1); }
  }

  /** It is linear in the request's weights. */
  lemma {:induction false} DotLinear(a: seq<real>, b: seq<real>, c: seq<real>, x: real, sum: seq<real>, n: nat)
    requires n <= |a| && n <= |b| == |c| == |sum| && forall k | 0 <= k < n :: sum[k] == b[k] + x * c[k]
    ensures Dot(a, sum, n) == Dot(a, b, n) + x * Dot(a, c, n)
  {
    if n > 0 {
      DotLinear(a, b, c, x, sum, n - 1);
      ProductSplits(a[n - 1], b[n - 1], c[n - 1], x, Dot(a, c, n - 1));
    }
  }

  lemma ProductSplits(a: real, b: real, c: real, x: real, d: real)
    ensures a * (b + x * c) + x * d == a * b + x * (d + a * c)
  {
  }

  /** And under a request that weights one genre it is the movie's weight for that genre. */
  lemma {:induction false} DotUnit(a: seq<real>, b: seq<real>, k: nat, n: nat)
    requires n <= |a| && n <= |b| && k < |a| && k < |b|
    requires b[k] == 1.0 && forall j | 0 <= j < |b| && j != k :: b[j] == 0.0
    ensures Dot(a, b, n) == if k < n then a[k] else 0.0
  {
    if n > 0 { DotUnit(a, b, k, n - 1); }
  }

  /** Every profile has one weight for each of `genres` genres. */
  predicate Profiled(movies: seq<Movie>, profile: seq<real>, genres: nat) {
    |profile| == genres && forall k | 0 <= k < |movies| :: |movies[k].profile| == genres
  }

  function Scored(m: Movie, profile: seq<real>): Entry
    requires |m.profile| == |profile|
  {
    Entry(m.title, Dot(m.profile, profile, |profile|))
  }

  ghost function Filtered(movies: seq<Movie>, key: Title, profile: seq<real>): (es: Row)
    requires Profiled(movies, profile, |profile|)
    ensures |es| <= |movies|
  {
    if movies == [] then []
    else
      var last := movies[|movies| - 1];
      Filtered(movies[..|movies| - 1], key, profile) + (if Wanted(key, last.title) then [Scored(last, profile)] else [])
  }

  /** The row holds the wanted movies with their scores, and nothing else. */
  lemma {:induction false} FilteredExact(movies: seq<Movie>, key: Title, profile: seq<real>, e: Entry)
    requires Profiled(movies, profile, |profile|)
    ensures e in Filtered(movies, key, profile)
       <==> exists k :: 0 <= k < |movies| && Wanted(key, movies[k].title) && Scored(movies[k], profile) == e
  {
    if movies != [] {
      var n := |movies| - 1;
      FilteredExact(movies[..n], key, profile, e);
      assert forall k | 0 <= k < n :: movies[..n][k] == movies[k];
    }
  }

  /** It is empty, so that there is nothing to sort, exactly when no title is wanted. */
  lemma {:induction false} FilteredEmpty(movies: seq<Movie>, key: Title, profile: seq<real>)
    requires Profiled(movies, profile, |profile|)
    ensures Filtered(movies, key, profile) == [] <==> forall k | 0 <= k < |movies| :: !Wanted(key, movies[k].title)
  {
    if movies != [] {
      var n := |movies| - 1;
      FilteredEmpty(movies[..n], key, profile);
      assert forall k | 0 <= k < n :: movies[..n][k] == movies[k];
    }
  }

  /** Asked for one genre, the row gives each movie's own weight for it as the score. */
  lemma FilteredOneGenre(movies: seq<Movie>, key: Title, profile: seq<real>, k: nat, e: Entry)
    requires Profiled(movies, profile, |profile|) && k < |profile|
    requires profile[k] == 1.0 && forall j | 0 <= j < |profile| && j != k :: profile[j] == 0.0
    ensures e in Filtered(movies, key, profile) <==>
      exists i :: 0 <= i < |movies| && Wanted(key, movies[i].title) && e == Entry(movies[i].title, movies[i].profile[k])
  {
    FilteredExact(movies, key, profile, e);
    forall i | 0 <= i < |movies| ensures Scored(movies[i], profile) == Entry(movies[i].title, movies[i].profile[k]) {
      DotUnit(movies[i].profile, profile, k, |profile|);
    }
  }

  /** One movie gives one entry or none, and the movies' entries follow each other in their order. */
  lemma {:induction false} FilteredInOrder(movies: seq<Movie>, more: seq<Movie>, m: Movie, key: Title, profile: seq<real>)
    requires Profiled(movies, profile, |profile|) && Profiled(more, profile, |profile|) && |m.profile| == |profile|
    ensures Profiled(movies + more, profile, |profile|)
    ensures Filtered(movies + more, key, profile) == Filtered(movies, key, profile) + Filtered(more, key, profile)
    ensures Filtered([m], key, profile) == if Wanted(key, m.title) then [Scored(m, profile)] else []
    decreases |more|
  {
    assert [m][..0] == [];
    if more == [] {
      assert movies + more == movies;
    } else {
      var n := |more| - 1;
      FilteredInOrder(movies, more[..n], m, key, profile);
      assert (movies + more)[..|movies| + n] == movies + more[..n];
    }
  }

  predicate NonNegative(weights: seq<real>) {
    forall k | 0 <= k < |weights| :: weights[k] >= 0.0
  }

  lemma {:induction false} DotNonNegative(a: seq<real>, b: seq<real>, n: nat)
    requires n <= |a| && n <= |b| && NonNegative(a) && NonNegative(b)
    ensures Dot(a, b, n) >= 0.0
  {
    if n > 0 {
      DotNonNegative(a, b, n - 1);
      ProductNonNegative(a[n - 1], b[n - 1]);
    }
  }

  lemma ProductNonNegative(x: real, y: real)
    requires x >= 0.0 && y >= 0.0
    ensures x * y >= 0.0
  {
  }

  /** No negative weights: no negative scores, hence no failing assertion in any `sort`. */
  lemma FilteredSorts(movies: seq<Movie>, key: Title, profile: seq<real>, p: Plan, num: Pos)
    requires Profiled(movies, profile, |profile|) && NonNegative(profile)
    requires forall k | 0 <= k < |movies| :: NonNegative(movies[k].profile)
    ensures AtMostOneNegative(Filtered(movies, key, profile))
    ensures LeavesComplete(p, Filtered(movies, key, profile), num)
  {
    var es := Filtered(movies, key, profile);
    forall i | 0 <= i < |es| ensures es[i].pts >= 0.0 {
      FilteredExact(movies, key, profile, es[i]);
      var k :| 0 <= k < |movies| && Wanted(key, movies[k].title) && Scored(movies[k], profile) == es[i];
      DotNonNegative(movies[k].profile, profile, |profile|);
    }
    WholeCompletes(p, es, num);
  }

  lemma FilteredPrintable(movies: seq<Movie>, key: Title, profile: seq<real>)
    requires Profiled(movies, profile, |profile|) && forall k | 0 <= k < |movies| :: Printable(movies[k].title)
    ensures PrintableRow(Filtered(movies, key, profile))
  {
    var es := Filtered(movies, key, profile);
    forall i | 0 <= i < |es| ensures Printable(es[i].title) {
      FilteredExact(movies, key, profile, es[i]);
    }
  }

  // ---------- the source's routine ----------

  /** `strstr(title, key) != NULL` */
  method Strstr(title: Title, key: Title) returns (found: bool)
    ensures found <==> exists i :: FoundAt(key, title, i)
  {
    var i := 0;
    while i + |key| <= |title|
      invariant forall k | 0 <= k < i :: !FoundAt(key, title, k)
    {
      if title[i..i + |key|] == key {
        assert FoundAt(key, title, i);
        return true;
      }
      i := i + 1;
    }
    found := false;
  }

  /** `Filter` fills the two arrays from the front, over scores that start as zero, and returns
      how many titles it took. */
  method Filter(movies: seq<Movie>, key: Title, profile: seq<real>, titles: array<Title>, pts: array<real>) returns (sz: nat)
    requires Profiled(movies, profile, |profile|)
    requires titles.Length == pts.Length && |movies| <= pts.Length
    requires forall k | 0 <= k < pts.Length :: pts[k] == 0.0
    modifies titles, pts
    ensures sz <= pts.Length && View(titles, pts, 0, sz) == Filtered(movies, key, profile)
    ensures forall k | sz <= k < pts.Length :: pts[k] == 0.0
  {
    sz := 0;
    var i := 0;
    while i < |movies|
      invariant 0 <= i <= |movies| && sz <= i
      invariant Profiled(movies[..i], profile, |profile|)
      invariant View(titles, pts, 0, sz) == Filtered(movies[..i], key, profile)
      invariant forall k | sz <= k < pts.Length :: pts[k] == 0.0
    {
      ghost var before := View(titles, pts, 0, sz);
      assert movies[..i + 1][..i] == movies[..i];
      var found := Strstr(movies[i].title, key);
      if (key != [] && key[0] == 42) || found {
        titles[sz] := movies[i].title;
        var j := 0;
        while j < |profile|
          invariant 0 <= j <= |profile|
          invariant titles[sz] == movies[i].title && pts[sz] == Dot(movies[i].profile, profile, j)
          invariant View(titles, pts, 0, sz) == before
          invariant forall k | sz < k < pts.Length :: pts[k] == 0.0
        {
          pts[sz] := pts[sz] + movies[i].profile[j] * profile[j];
          j := j + 1;
        }
        assert View(titles, pts, 0, sz + 1) == before + [Scored(movies[i], profile)];
        sz := sz + 1;
      }
      i := i + 1;
    }
    assert movies[..i] == movies;
  }

  /** A request as the data set allows it, with printable titles and no negative weight: no run
      aborts, and every finished run leaves the wanted movies, each marked once, by score and then
      by title, whatever the order of the threads. */
  lemma RequestRanked(movies: seq<Movie>, key: Title, profile: seq<real>, p: Plan, n: nat, s: ThreadTree.State)
    requires Profiled(movies, profile, |profile|) && NonNegative(profile)
    requires forall k | 0 <= k < |movies| :: NonNegative(movies[k].profile) && Printable(movies[k].title)
    requires exists k :: 0 <= k < |movies| && Wanted(key, movies[k].title)
    requires ThreadTree.Reached(p, Filtered(movies, key, profile), n, s)
    ensures s.task == ThreadTree.Done ==> s.row == MarkAll(Ranked(Filtered(movies, key, profile)))
    ensures s.row != [] && !ThreadTree.Aborts(s.row, 0, |s.row|, s.task)
  {
    var es := Filtered(movies, key, profile);
    FilteredEmpty(movies, key, profile);
    FilteredSorts(movies, key, profile, p, 1);
    FilteredPrintable(movies, key, profile);
    PrintableSurvives(p, es, 1);
    var s' := ThreadTree.RunsGoOn(p, es, n, s);
    if s.task == ThreadTree.Done {
      ThreadTree.AnyInterleaving(p, es, n, s);
    }
  }
}
