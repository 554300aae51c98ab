/** What a sequence holds, counted element by element. */
module Bags {

  ghost function Count<T>(s: seq<T>, x: T): nat {
    if s == [] then 0 else (if s[0] == x then 1 else 0) + Count(s[1..], x)
  }

  /** `s` and `t` hold every element equally often. */
  ghost predicate Permutes<T(!new)>(s: seq<T>, t: seq<T>) {
    forall x :: Count(s, x) == Count(t, x)
  }

  lemma {:induction false} CountAppend<T>(s: seq<T>, t: seq<T>, x: T)
    ensures Count(s + t, x) == Count(s, x) + Count(t, x)
  {
    if s == [] {
      assert s + t == t;
    } else {
      assert (s + t)[1..] == s[1..] + t;
      CountAppend(s[1..], t, x);
    }
  }

  lemma CountAt<T>(s: seq<T>, k: nat, x: T)
    requires k < |s|
    ensures Count(s, x) == Count(s[..k], x) + (if s[k] == x then 1 else 0) + Count(s[k + 1..], x)
  {
    assert s == s[..k] + s[k..] && s[k..][1..] == s[k + 1..];
    CountAppend(s[..k], s[k..], x);
  }

  lemma {:induction false} CountFinds<T>(s: seq<T>, x: T) returns (j: nat)
    requires Count(s, x) > 0
    ensures j < |s| && s[j] == x
  {
    if s[0] == x {
      j := 0;
    } else {
      j := CountFinds(s[1..], x);
      j := j + 1;
    }
  }

  lemma CountMember<T>(s: seq<T>, x: T)
    ensures Count(s, x) > 0 <==> x in s
  {
    if Count(s, x) > 0 {
      var j := CountFinds(s, x);
    }
    if x in s {
      var k :| 0 <= k < |s| && s[k] == x;
      CountAt(s, k, x);
    }
  }

  /** Every element of one arrangement is found in the other. */
  lemma PermutesFinds<T(!new)>(s: seq<T>, t: seq<T>, k: nat) returns (j: nat)
    requires Permutes(s, t) && k < |s|
    ensures j < |t| && t[j] == s[k]
  {
    CountAt(s, k, s[k]);
    assert Count(t, s[k]) > 0;
    j := CountFinds(t, s[k]);
  }

  lemma PermutesWithout<T(!new)>(s: seq<T>, t: seq<T>, k: nat)
    requires Permutes(s, t) && s != [] && k < |t| && t[k] == s[0]
    ensures Permutes(s[1..], t[..k] + t[k + 1..])
  {
    forall x ensures Count(s[1..], x) == Count(t[..k] + t[k + 1..], x) {
      assert Count(s, x) == Count(t, x);
      CountAt(t, k, x);
      CountAppend(t[..k], t[k + 1..], x);
    }
  }

  lemma {:induction false} PermutesSize<T(!new)>(s: seq<T>, t: seq<T>)
    requires Permutes(s, t)
    ensures |s| == |t|
  {
    if s == [] {
      if t != [] {
        var j := PermutesFinds(t, s, 0);
      }
    } else {
      var k := PermutesFinds(s, t, 0);
      PermutesWithout(s, t, k);
      PermutesSize(s[1..], t[..k] + t[k + 1..]);
    }
  }

  lemma TailsPermute<T(!new)>(s: seq<T>, t: seq<T>)
    requires Permutes(s, t) && s != [] && t != [] && s[0] == t[0]
    ensures Permutes(s[1..], t[1..])
  {
    PermutesWithout(s, t, 0);
    assert t[..0] + t[1..] == t[1..];
  }

  /** Taking out the `k`-th element and putting the first one in its place. */
  lemma PermutesSwapped<T(!new)>(s: seq<T>, t: seq<T>, k: nat)
    requires Permutes(s, t) && s != [] && k < |t| && t[k] == s[0]
    ensures Permutes(s[1..], t[k := t[0]][1..])
  {
    var u := t[k := t[0]];
    forall x ensures Count(s[1..], x) == Count(u[1..], x) {
      assert Count(s, x) == Count(t, x);
      CountAt(t, k, x);
      CountAt(u, k, x);
      assert u[..k] == t[..k] && u[k + 1..] == t[k + 1..];
      assert Count(u, x) == (if u[0] == x then 1 else 0) + Count(u[1..], x);
    }
  }

  /** Two positions of one arrangement are found at two positions of the other. */
  lemma PermutesFindsTwo<T(!new)>(s: seq<T>, t: seq<T>, a: nat, b: nat) returns (x: nat, y: nat)
    requires Permutes(s, t) && a < b < |s|
    ensures x < |t| && y < |t| && x != y && t[x] == s[a] && t[y] == s[b]
  {
    x := PermutesFinds(s, t, a);
    var rest := t[..x] + t[x + 1..];
    CountAt(t, x, s[b]);
    CountAppend(t[..x], t[x + 1..], s[b]);
    CountAt(s, a, s[b]);
    CountAt(s[a + 1..], b - a - 1, s[b]);
    assert Count(s, s[b]) == Count(t, s[b]);
    y := CountFinds(rest, s[b]);
    y := if y < x then y else y + 1;
  }

  lemma ConsEqual<T>(s: seq<T>, t: seq<T>)
    requires s != [] && t != [] && s[0] == t[0] && s[1..] == t[1..]
    ensures s == t
  {
    assert s == [s[0]] + s[1..] && t == [t[0]] + t[1..];
  }

  lemma AppendNext<T>(s: seq<T>, x: T, t: seq<T>)
    ensures s + ([x] + t) == (s + [x]) + t
  {
  }
}
