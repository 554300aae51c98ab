/** C strings as sequences of their non-NUL bytes, `strcmp`, and the secret suffix
    that `add_secret` appends to a title. */
module Titles {

  // A byte of a C string: unsigned, never the terminating NUL.
  type Byte = b: int | 1 <= b < 256 witness 1
  type Title = seq<Byte>

  /** The sign of `strcmp(a, b)`: bytes are compared as unsigned characters, and the
      terminator counts as smaller than every byte (section 7.24.4 of C11). */
  function StrCmp(a: Title, b: Title): (sign: int)
    ensures -1 <= sign <= 1
  {
    if a == [] then (if b == [] then 0 else -1)
    else if b == [] then 1
    else if a[0] < b[0] then -1
    else if a[0] > b[0] then 1
    else StrCmp(a[1..], b[1..])
  }

  /** "\t[It's top secret.]" */
  const SECRET: Title := [9, 91, 73, 116, 39, 115, 32, 116, 111, 112, 32, 115, 101, 99, 114, 101, 116, 46, 93]

  function AddSecret(s: Title): (marked: Title) {
    s + SECRET
  }

  /** A marked title is the title followed by the nineteen characters of the text, a tab first. */
  lemma SecretText(s: Title, k: nat)
    requires k < |s| + 19
    ensures |AddSecret(s)| == |s| + 19
    ensures AddSecret(s)[k] == if k < |s| then s[k] else "\t[It's top secret.]"[k - |s|] as int
  {
  }

  // ---------- strcmp is a total order ----------

  lemma {:induction false} StrCmpZero(a: Title, b: Title)
    ensures StrCmp(a, b) == 0 <==> a == b
  {
    if a != [] && b != [] && a[0] == b[0] {
      StrCmpZero(a[1..], b[1..]);
      assert a == [a[0]] + a[1..] && b == [b[0]] + b[1..];
    }
  }

  lemma {:induction false} StrCmpSwap(a: Title, b: Title)
    ensures StrCmp(b, a) == -StrCmp(a, b)
  {
    if a != [] && b != [] && a[0] == b[0] {
      StrCmpSwap(a[1..], b[1..]);
    }
  }

  lemma {:induction false} StrCmpTransitive(a: Title, b: Title, c: Title)
    requires StrCmp(a, b) <= 0 && StrCmp(b, c) <= 0
    ensures StrCmp(a, c) <= 0
    ensures StrCmp(a, c) == 0 ==> StrCmp(a, b) == 0 && StrCmp(b, c) == 0
  {
    if a != [] && b != [] && c != [] && a[0] == b[0] == c[0] {
      StrCmpTransitive(a[1..], b[1..], c[1..]);
    }
  }

  /** On byte values: a title comes first if it is the beginning of the other, or has the smaller
      byte where they first differ. */
  lemma {:induction false} StrCmpBytes(a: Title, b: Title)
    ensures StrCmp(a, b) < 0 <==>
      || (|a| < |b| && a == b[..|a|])
      || exists k: nat :: k < |a| && k < |b| && a[..k] == b[..k] && a[k] < b[k]
  {
    if a != [] && b != [] {
      if a[0] == b[0] {
        StrCmpBytes(a[1..], b[1..]);
        TailsBytes(a, b);
      } else {
        assert a[..0] == b[..0];
        forall k: nat | 0 < k && k < |a| && k < |b| ensures a[..k] != b[..k] {
          assert a[..k][0] == a[0] && b[..k][0] == b[0];
        }
      }
    }
  }

  lemma TailsBytes(a: Title, b: Title)
    requires a != [] && b != [] && a[0] == b[0]
    ensures |a| < |b| ==> (a == b[..|a|] <==> a[1..] == b[1..][..|a[1..]|])
    ensures (exists k: nat :: k < |a| && k < |b| && a[..k] == b[..k] && a[k] < b[k])
       <==> exists k: nat :: k < |a[1..]| && k < |b[1..]| && a[1..][..k] == b[1..][..k] && a[1..][k] < b[1..][k]
  {
    var u, v := a[1..], b[1..];
    if |a| < |b| {
      assert a == [a[0]] + u && b[..|a|] == [b[0]] + v[..|u|];
    }
    if k: nat :| k < |a| && k < |b| && a[..k] == b[..k] && a[k] < b[k] {
      assert u[..k - 1] == a[..k][1..] && v[..k - 1] == b[..k][1..];
      assert u[k - 1] < v[k - 1];
    }
    if k: nat :| k < |u| && k < |v| && u[..k] == v[..k] && u[k] < v[k] {
      assert a[..k + 1] == [a[0]] + u[..k] && b[..k + 1] == [b[0]] + v[..k];
      assert a[k + 1] < b[k + 1];
    }
  }

  // ---------- appending the secret ----------

  /** `tail` is what a longer title has beyond a shorter one that starts it. The secret
      sorts the longer title first exactly when the tail sorts before the secret. */
  predicate TailBelowSecret(tail: Title) {
    tail != [] && StrCmp(tail, SECRET) < 0
  }

  predicate ProperPrefix(a: Title, b: Title) {
    |a| < |b| && a == b[..|a|]
  }

  /** The pairs whose order the suffix turns around. */
  predicate Disturbed(a: Title, b: Title) {
    || (ProperPrefix(a, b) && TailBelowSecret(b[|a|..]))
    || (ProperPrefix(b, a) && TailBelowSecret(a[|b|..]))
  }

  lemma {:induction false} StrCmpAppend(p: Title, a: Title, b: Title)
    ensures StrCmp(p + a, p + b) == StrCmp(a, b)
  {
    if p == [] {
      assert p + a == a && p + b == b;
    } else {
      assert (p + a)[1..] == p[1..] + a && (p + b)[1..] == p[1..] + b;
      StrCmpAppend(p[1..], a, b);
    }
  }

  /** Neither title starts the other: the first differing byte decides, whatever follows. */
  lemma {:induction false} StrCmpExtend(a: Title, b: Title, s: Title, t: Title)
    requires !(a <= b) && !(b <= a)
    ensures StrCmp(a + s, b + t) == StrCmp(a, b)
  {
    if a[0] == b[0] {
      assert (a + s)[1..] == a[1..] + s && (b + t)[1..] == b[1..] + t;
      assert a == [a[0]] + a[1..] && b == [b[0]] + b[1..];
      assert (a[1..] <= b[1..] ==> a <= b) && (b[1..] <= a[1..] ==> b <= a);
      StrCmpExtend(a[1..], b[1..], s, t);
    }
  }

  lemma {:induction false} PrefixBelow(a: Title, b: Title)
    requires a <= b
    ensures StrCmp(a, b) <= 0
  {
    if a != [] {
      PrefixBelow(a[1..], b[1..]);
    }
  }

  /** No proper tail of the secret starts with a byte as small as its tab. */
  lemma SecretTail(n: nat)
    requires n < |SECRET|
    ensures n > 0 ==> SECRET[n] > SECRET[0]
  {
  }

  lemma PrefixVersusMarked(tail: Title)
    requires tail != [] && tail <= SECRET
    ensures StrCmp(SECRET, tail + SECRET) == if tail == SECRET then -1 else 1
    ensures StrCmp(tail, SECRET) == if tail == SECRET then 0 else -1
  {
    var rest := SECRET[|tail|..];
    assert SECRET == tail + rest;
    StrCmpAppend(tail, rest, SECRET);
    PrefixBelow(tail, SECRET);
    StrCmpZero(tail, SECRET);
    if rest != [] {
      SecretTail(|tail|);
    }
  }

  lemma SecretVersusMarked(tail: Title)
    requires tail != []
    ensures StrCmp(SECRET, tail + SECRET) != 0
    ensures StrCmp(SECRET, tail + SECRET) > 0 <==> TailBelowSecret(tail)
  {
    var secret := SECRET;
    StrCmpZero(secret, tail + secret);
    StrCmpSwap(secret, tail);
    StrCmpZero(secret, tail);
    if tail <= secret {
      PrefixVersusMarked(tail);
    } else if secret <= tail {
      PrefixBelow(secret, tail);
      PrefixBelow(secret, tail + secret);
    } else {
      StrCmpExtend(secret, tail, [], secret);
      assert secret + [] == secret;
    }
  }

  lemma SuffixOnPrefix(a: Title, b: Title)
    requires ProperPrefix(a, b)
    ensures StrCmp(a, b) == -1
    ensures StrCmp(AddSecret(a), AddSecret(b)) == if TailBelowSecret(b[|a|..]) then 1 else -1
  {
    var tail := b[|a|..];
    assert b == a + tail && a == a + [];
    StrCmpAppend(a, [], tail);
    assert AddSecret(b) == a + (tail + SECRET);
    StrCmpAppend(a, SECRET, tail + SECRET);
    SecretVersusMarked(tail);
  }

  /** Comparing marked titles agrees with comparing the raw ones exactly on the pairs
      that are not disturbed, for every pair of byte strings. */
  lemma SuffixOrder(a: Title, b: Title)
    ensures StrCmp(AddSecret(a), AddSecret(b)) == StrCmp(a, b) <==> !Disturbed(a, b)
  {
    StrCmpSwap(a, b);
    StrCmpSwap(AddSecret(a), AddSecret(b));
    if a == b {
      StrCmpZero(a, b);
      StrCmpZero(AddSecret(a), AddSecret(b));
    } else if a <= b {
      SuffixOnPrefix(a, b);
    } else if b <= a {
      SuffixOnPrefix(b, a);
    } else {
      StrCmpExtend(a, b, SECRET, SECRET);
    }
  }

  /** A disturbed pair is turned around, never made equal. */
  lemma SuffixTurns(a: Title, b: Title)
    requires Disturbed(a, b)
    ensures StrCmp(AddSecret(a), AddSecret(b)) == -StrCmp(a, b) != 0
    ensures AddSecret(a) != AddSecret(b)
  {
    StrCmpSwap(a, b);
    StrCmpSwap(AddSecret(a), AddSecret(b));
    StrCmpZero(AddSecret(a), AddSecret(b));
    if |a| < |b| { SuffixOnPrefix(a, b); } else { SuffixOnPrefix(b, a); }
  }

  lemma {:induction false} PrefixBetween(a: Title, b: Title, c: Title)
    requires a <= c && StrCmp(a, b) <= 0 && StrCmp(b, c) <= 0
    ensures a <= b
  {
    if a != [] {
      PrefixBetween(a[1..], b[1..], c[1..]);
      assert a == [a[0]] + a[1..] && b == [b[0]] + b[1..];
    }
  }

  /** A title between two disturbed ones is disturbed against the first of them. */
  lemma DisturbedBetween(a: Title, b: Title, c: Title)
    requires Disturbed(a, c) && StrCmp(a, b) < 0 && StrCmp(b, c) <= 0
    ensures Disturbed(a, b)
  {
    StrCmpTransitive(a, b, c);
    if ProperPrefix(c, a) {
      SuffixOnPrefix(c, a);
      StrCmpSwap(a, c);
    }
    PrefixBetween(a, b, c);
    StrCmpZero(a, b);
    var t, u := b[|a|..], c[|a|..];
    assert b == a + t && c == a + u;
    StrCmpAppend(a, t, u);
    StrCmpTransitive(t, u, SECRET);
  }

  predicate Printable(s: Title) {
    forall i | 0 <= i < |s| :: s[i] > 9
  }

  /** Titles without a byte at or below the tab keep their order under the suffix. */
  lemma PrintableOrder(a: Title, b: Title)
    requires Printable(a) && Printable(b)
    ensures !Disturbed(a, b)
    ensures StrCmp(AddSecret(a), AddSecret(b)) == StrCmp(a, b)
  {
    SuffixOrder(a, b);
  }

  /** "A" and "A\001" change places once both carry the secret. */
  lemma ControlByteDisturbs()
    ensures StrCmp([65], [65, 1]) == -1 && StrCmp(AddSecret([65]), AddSecret([65, 1])) == 1
    ensures Disturbed([65], [65, 1])
  {
    assert [65, 1][1..] == [1];
    SuffixOnPrefix([65], [65, 1]);
  }
}
