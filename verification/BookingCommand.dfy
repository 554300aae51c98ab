/** The booking command line: `get3Num` against the grammar of its fields, and as the inverse
    of decimal printing. */
module BookingCommand {
  import opened Bags

  type Field = string

  predicate IsDigit(c: char) {
    '0' <= c <= '9'
  }

  function DigitOf(c: char): nat
    requires IsDigit(c)
  {
    c as int - '0' as int
  }

  predicate Digits(f: Field) {
    forall k | 0 <= k < |f| :: IsDigit(f[k])
  }

  predicate Signed(f: Field) {
    f != [] && f[0] == '-'
  }

  /** What may still grow into a field: digits, or a minus sign and digits. */
  predicate Begun(f: Field) {
    if Signed(f) then Digits(f[1..]) else Digits(f)
  }

  /** A field the parser accepts: digits, possibly none, or a minus sign and at least one digit. */
  predicate WellFormed(f: Field) {
    Begun(f) && f != ['-']
  }

  function Number(f: Field): nat
    requires Digits(f)
  {
    if f == [] then 0 else 10 * Number(f[..|f| - 1]) + DigitOf(f[|f| - 1])
  }

  function Magnitude(f: Field): int
    requires Begun(f)
  {
    Number(if Signed(f) then f[1..] else f)
  }

  function Value(f: Field): int
    requires Begun(f)
  {
    if Signed(f) then -Magnitude(f) else Magnitude(f)
  }

  /** A line cut at its spaces: the fields a space has ended, and the last one. */
  datatype Line = Line(ended: seq<Field>, last: Field)

  function Fields(s: string): Line {
    if s == [] then Line([], [])
    else
      var l, c := Fields(s[..|s| - 1]), s[|s| - 1];
      if c == ' ' then Line(l.ended + [l.last], []) else Line(l.ended, l.last + [c])
  }

  /** Every field is well formed, and beyond the third they are empty. */
  ghost predicate Readable(l: Line) {
    && (forall k | 0 <= k < |l.ended| :: WellFormed(l.ended[k]) && (k >= 3 ==> l.ended[k] == []))
    && WellFormed(l.last)
    && (|l.ended| >= 3 ==> l.last == [])
  }

  /** What `get3Num` makes of field `k` of an acceptable line: its value, except that the sign
      of the last field is looked for in `opr[2]` only. */
  ghost function Parsed(l: Line, k: nat): int
    requires Readable(l)
  {
    if k < |l.ended| then Value(l.ended[k])
    else if k > |l.ended| then 0
    else if k == 2 then Value(l.last)
    else Magnitude(l.last)
  }

  /** `OutOfBounds`: the source would touch memory outside `s` or `opr`. */
  datatype Outcome = Rejected | Numbers(opr: seq<int>) | OutOfBounds

  // ---------- fields of a growing line ----------

  /** The ended fields of a prefix are fields of the line, and its last one begins a field. */
  ghost predicate Begins(g: Line, l: Line) {
    && |g.ended| <= |l.ended|
    && (forall k | 0 <= k < |g.ended| :: l.ended[k] == g.ended[k])
    && g.last <= (if |g.ended| < |l.ended| then l.ended[|g.ended|] else l.last)
  }

  lemma {:induction false} FieldsGrow(s: string, i: nat)
    requires i <= |s|
    ensures Begins(Fields(s[..i]), Fields(s))
    decreases |s|
  {
    if i == |s| {
      assert s[..i] == s;
    } else {
      FieldsGrow(s[..|s| - 1], i);
      assert s[..|s| - 1][..i] == s[..i];
    }
  }

  lemma FieldsNext(s: string, i: nat)
    requires i < |s|
    ensures var l := Fields(s[..i]);
      Fields(s[..i + 1]) == if s[i] == ' ' then Line(l.ended + [l.last], []) else Line(l.ended, l.last + [s[i]])
  {
    assert s[..i + 1][..i] == s[..i];
  }

  lemma BegunPrefix(g: Field, f: Field)
    requires g <= f && Begun(f)
    ensures Begun(g)
  {
    if Signed(g) {
      assert forall k | 0 <= k < |g[1..]| :: g[1..][k] == f[1..][k];
    } else if Signed(f) {
      assert g == [];
    }
  }

  /** A prefix that has gone wrong. */
  ghost predicate Broken(g: Line) {
    || !Begun(g.last)
    || (|g.ended| >= 3 && g.last != [])
    || exists k :: 0 <= k < |g.ended| && !WellFormed(g.ended[k])
  }

  lemma BrokenStays(s: string, i: nat)
    requires i <= |s| && Broken(Fields(s[..i]))
    ensures !Readable(Fields(s))
  {
    FieldsGrow(s, i);
    var l, g := Fields(s), Fields(s[..i]);
    var f := if |g.ended| < |l.ended| then l.ended[|g.ended|] else l.last;
    if Begun(f) {
      BegunPrefix(g.last, f);
    }
  }

  // ---------- one character at a time ----------

  lemma NumberNext(f: Field, c: char)
    requires Digits(f) && IsDigit(c)
    ensures Digits(f + [c]) && Number(f + [c]) == 10 * Number(f) + DigitOf(c)
  {
    assert (f + [c])[..|f|] == f;
  }

  lemma DigitNext(f: Field, c: char)
    requires Begun(f) && IsDigit(c)
    ensures Begun(f + [c]) && Magnitude(f + [c]) == 10 * Magnitude(f) + DigitOf(c)
    ensures Signed(f + [c]) <==> Signed(f)
    ensures f + [c] != ['-']
  {
    assert (f + [c])[|f|] == c;
    if Signed(f) {
      assert (f + [c])[1..] == f[1..] + [c];
      NumberNext(f[1..], c);
    } else {
      NumberNext(f, c);
    }
  }

  /** Anything but a digit spoils a field, save a minus sign at its start. */
  lemma OtherNext(f: Field, c: char)
    requires !IsDigit(c) && !(f == [] && c == '-')
    ensures !Begun(f + [c])
  {
    var g := f + [c];
    assert g[|f|] == c;
    if Signed(g) {
      assert g[1..][|f| - 1] == c;
    }
  }

  /** What `opr`, `j` and `chk` hold once the prefix with fields `l` was read. */
  ghost predicate Reading(l: Line, opr: seq<int>, j: nat, chk: bool) {
    && |opr| == 3 && |l.ended| == j
    && (forall k | 0 <= k < j :: WellFormed(l.ended[k]) && (k >= 3 ==> l.ended[k] == []))
    && Begun(l.last)
    && (j >= 3 ==> l.last == [])
    && (forall k | 0 <= k < 3 :: opr[k] == if k < j then Value(l.ended[k]) else if k == j then Magnitude(l.last) else 0)
    && chk == Signed(l.last)
  }

  lemma ReadingSpace(l: Line, opr: seq<int>, j: nat, chk: bool)
    requires Reading(l, opr, j, chk) && l.last != ['-']
    ensures chk ==> j < 3
    ensures Reading(Line(l.ended + [l.last], []), if chk then opr[j := -opr[j]] else opr, j + 1, false)
  {
  }

  lemma ReadingEnds(l: Line, opr: seq<int>, j: nat, chk: bool)
    requires Reading(l, opr, j, chk) && l.last != ['-']
    ensures Readable(l)
    ensures (if chk then opr[2 := -opr[2]] else opr) == [Parsed(l, 0), Parsed(l, 1), Parsed(l, 2)]
  {
  }

  // ---------- the characters of an acceptable line ----------

  /** The ten digits have their decimal values. */
  lemma DigitValues(c: char)
    ensures IsDigit(c) <==> c in "0123456789"
    ensures IsDigit(c) ==> Number([c]) == c as int - '0' as int
  {
    if IsDigit(c) { assert [c][..0] == []; }
    assert "0123456789"[0] == '0' && "0123456789"[1] == '1' && "0123456789"[2] == '2' && "0123456789"[3] == '3'
        && "0123456789"[4] == '4' && "0123456789"[5] == '5' && "0123456789"[6] == '6' && "0123456789"[7] == '7'
        && "0123456789"[8] == '8' && "0123456789"[9] == '9';
  }

  lemma FieldStarts(s: string, k: nat)
    requires k <= |s| && Fields(s[..k]).last == []
    ensures k == 0 || s[k - 1] == ' '
  {
    if k > 0 { FieldsNext(s, k - 1); }
  }

  /** There are digits, spaces and minus signs in it, and a minus sign starts a field and has a
      digit after it. */
  lemma AcceptableCharacters(s: string, k: nat)
    requires Readable(Fields(s)) && k < |s|
    ensures s[k] == ' ' || s[k] == '-' || '0' <= s[k] <= '9'
    ensures s[k] == '-' ==> (k == 0 || s[k - 1] == ' ') && k + 1 < |s| && '0' <= s[k + 1] <= '9'
  {
    var l := Fields(s[..k]);
    FieldsNext(s, k);
    if s[k] != ' ' && !IsDigit(s[k]) {
      if !(l.last == [] && s[k] == '-') {
        OtherNext(l.last, s[k]);
        BrokenStays(s, k + 1);
      } else {
        FieldStarts(s, k);
        if k + 1 == |s| || !IsDigit(s[k + 1]) { LoneMinus(s, k); }
      }
    }
  }

  /** A field that begins with a minus sign and has no digit after it spoils the line. */
  lemma LoneMinus(s: string, k: nat)
    requires k < |s| && s[k] == '-' && Fields(s[..k]).last == [] && (k + 1 < |s| ==> !IsDigit(s[k + 1]))
    ensures !Readable(Fields(s))
  {
    FieldsNext(s, k);
    if k + 1 == |s| {
      assert s[..k + 1] == s;
      assert Fields(s).last == ['-'];
    } else {
      MinusSpoils(s, k + 1);
    }
  }

  lemma MinusSpoils(s: string, k: nat)
    requires k < |s| && Fields(s[..k]).last == ['-'] && !IsDigit(s[k])
    ensures !Readable(Fields(s))
  {
    var l := Fields(s[..k]);
    FieldsNext(s, k);
    if s[k] == ' ' {
      assert Fields(s[..k + 1]).ended[|l.ended|] == ['-'];
    } else {
      OtherNext(['-'], s[k]);
    }
    BrokenStays(s, k + 1);
  }

  /** What the grammar asks of one character: a digit or a minus sign has at most two spaces before
      it, a minus sign starts a field, and a digit follows it. */
  predicate CharacterOk(s: string, k: nat)
    requires k < |s|
  {
    || s[k] == ' '
    || ('0' <= s[k] <= '9' && |Fields(s[..k]).ended| <= 2)
    || (&& s[k] == '-' && |Fields(s[..k]).ended| <= 2
        && (k == 0 || s[k - 1] == ' ') && k + 1 < |s| && '0' <= s[k + 1] <= '9')
  }

  /** The first `i` characters are fine as far as they go. */
  ghost predicate WellBegun(s: string, i: nat) {
    && i <= |s|
    && var l := Fields(s[..i]);
       && (forall k | 0 <= k < |l.ended| :: WellFormed(l.ended[k]) && (k >= 3 ==> l.ended[k] == []))
       && Begun(l.last) && (|l.ended| >= 3 ==> l.last == [])
       && (l.last == [] <==> i == 0 || s[i - 1] == ' ')
       && (l.last == ['-'] ==> i < |s| && IsDigit(s[i]))
  }

  lemma CharacterNext(s: string, i: nat)
    requires WellBegun(s, i) && i < |s| && CharacterOk(s, i)
    ensures WellBegun(s, i + 1)
  {
    var l := Fields(s[..i]);
    FieldsNext(s, i);
    if s[i] == '-' {
      assert l.last + [s[i]] == ['-'] && ['-'][1..] == [];
    } else if s[i] != ' ' {
      DigitNext(l.last, s[i]);
    }
  }

  lemma {:induction false} CharactersRead(s: string, i: nat)
    requires i <= |s| && forall k: nat | k < |s| :: CharacterOk(s, k)
    ensures WellBegun(s, i)
  {
    if i > 0 {
      CharactersRead(s, i - 1);
      CharacterNext(s, i - 1);
    }
  }

  lemma CharacterOfReadable(s: string, k: nat)
    requires Readable(Fields(s)) && k < |s|
    ensures CharacterOk(s, k)
  {
    AcceptableCharacters(s, k);
    if s[k] != ' ' && |Fields(s[..k]).ended| > 2 {
      FieldsNext(s, k);
      BrokenStays(s, k + 1);
    }
  }

  /** The grammar of a line, character by character. */
  lemma ReadableExact(s: string)
    ensures Readable(Fields(s)) <==> forall k: nat | k < |s| :: CharacterOk(s, k)
  {
    if Readable(Fields(s)) {
      forall k: nat | k < |s| ensures CharacterOk(s, k) { CharacterOfReadable(s, k); }
    }
    if forall k: nat | k < |s| :: CharacterOk(s, k) {
      assert s[..|s|] == s;
      CharactersRead(s, |s|);
    }
  }

  /** The fields that a space has ended are as many as there are spaces. */
  lemma {:induction false} SpacesCount(s: string)
    ensures |Fields(s).ended| == Count(s, ' ')
  {
    if s != [] {
      var n := |s| - 1;
      SpacesCount(s[..n]);
      CountAt(s, n, ' ');
      assert s[n + 1..] == [];
    }
  }

  // ---------- the source's loop ----------

  /** The loop returns false at character `k`: a minus sign inside a field or right before a
      space, or a character that is neither a minus sign nor a space nor a digit. */
  predicate RejectsAt(s: string, k: nat) {
    && k < |s|
    && if s[k] == '-' then (k > 0 && s[k - 1] != ' ') || (k + 1 < |s| && s[k + 1] == ' ') else s[k] != ' ' && !IsDigit(s[k])
  }

  /** A digit of a fourth or later field, which the loop would add to `opr[3]` or beyond. */
  predicate StraysAt(s: string, k: nat) {
    k < |s| && IsDigit(s[k]) && |Fields(s[..k]).ended| >= 3
  }

  /** Parsing touches memory outside `s` or `opr`: `s[-1]` of an empty line, or a digit beyond the
      third field that the loop gets to. */
  ghost predicate Strays(s: string) {
    s == [] || (s[|s| - 1] != '-' && exists k: nat :: StraysAt(s, k) && forall m | 0 <= m < k :: !RejectsAt(s, m))
  }

  /** The loop has passed the first `i` characters. */
  ghost predicate Passed(s: string, i: nat) {
    forall k | 0 <= k < i :: !RejectsAt(s, k) && !StraysAt(s, k)
  }

  lemma PassedThrough(s: string)
    requires Passed(s, |s|) && s != []
    ensures !Strays(s)
  {
  }

  /** Where the loop gives up first, nothing behind it matters. */
  lemma RejectedInTime(s: string, i: nat)
    requires Passed(s, i) && RejectsAt(s, i)
    ensures !Strays(s)
  {
  }

  /** `Reading` after `i` characters, with what the source tells from the neighbours of `s[i]`. */
  ghost predicate Scanned(s: string, i: nat, opr: seq<int>, j: nat, chk: bool) {
    && i <= |s|
    && Passed(s, i)
    && Reading(Fields(s[..i]), opr, j, chk)
    && (Fields(s[..i]).last == [] <==> i == 0 || s[i - 1] == ' ')
    && (Fields(s[..i]).last == ['-'] ==> i < |s| && s[i] != ' ')
  }

  lemma ScanMinus(s: string, i: nat, opr: seq<int>, j: nat, chk: bool)
    requires Scanned(s, i, opr, j, chk) && i + 1 < |s| && s[i] == '-' && s[i + 1] != ' ' && j < 3
    requires i == 0 || s[i - 1] == ' '
    ensures Scanned(s, i + 1, opr, j, true)
  {
    FieldsNext(s, i);
    assert Fields(s[..i + 1]).last == ['-'] && ['-'][1..] == [];
  }

  lemma ScanSpace(s: string, i: nat, opr: seq<int>, j: nat, chk: bool)
    requires Scanned(s, i, opr, j, chk) && i < |s| && s[i] == ' '
    ensures chk ==> j < 3
    ensures Scanned(s, i + 1, if chk then opr[j := -opr[j]] else opr, j + 1, false)
  {
    FieldsNext(s, i);
    ReadingSpace(Fields(s[..i]), opr, j, chk);
  }

  lemma ScanDigit(s: string, i: nat, opr: seq<int>, j: nat, chk: bool)
    requires Scanned(s, i, opr, j, chk) && i < |s| && IsDigit(s[i]) && j < 3
    ensures Scanned(s, i + 1, opr[j := 10 * opr[j] + DigitOf(s[i])], j, chk)
  {
    FieldsNext(s, i);
    DigitNext(Fields(s[..i]).last, s[i]);
  }

  /** The characters and positions at which the source gives up. */
  lemma ScanRejects(s: string, i: nat, opr: seq<int>, j: nat, chk: bool)
    requires Scanned(s, i, opr, j, chk) && RejectsAt(s, i)
    ensures !Readable(Fields(s)) && !Strays(s)
  {
    RejectedInTime(s, i);
    var l := Fields(s[..i]);
    FieldsNext(s, i);
    if s[i] == '-' && l.last == [] {
      FieldsNext(s, i + 1);
      assert Fields(s[..i + 2]).ended[j] == ['-'];
      BrokenStays(s, i + 2);
    } else {
      OtherNext(l.last, s[i]);
      BrokenStays(s, i + 1);
    }
  }

  lemma LastMinus(s: string)
    requires s != [] && s[|s| - 1] == '-'
    ensures !Readable(Fields(s))
  {
    var l := Fields(s[..|s| - 1]);
    if l.last != [] {
      OtherNext(l.last, '-');
    } else {
      assert Fields(s).last == ['-'];
    }
  }

  lemma TooManyFields(s: string, i: nat)
    requires i < |s| && s[i] != ' ' && |Fields(s[..i]).ended| >= 3
    ensures !Readable(Fields(s))
  {
    FieldsNext(s, i);
    BrokenStays(s, i + 1);
  }

  /** A digit in a fourth field. */
  lemma ScanStrays(s: string, i: nat, opr: seq<int>, j: nat, chk: bool)
    requires Scanned(s, i, opr, j, chk) && i < |s| && IsDigit(s[i]) && j >= 3 && s[|s| - 1] != '-'
    ensures !Readable(Fields(s)) && Strays(s)
  {
    TooManyFields(s, i);
    assert StraysAt(s, i);
  }

  /** A minus sign in a fourth field: what follows it is a digit, or makes the loop give up. */
  lemma FourthMinus(s: string, i: nat, opr: seq<int>, j: nat, chk: bool)
    requires Scanned(s, i, opr, j, chk) && i + 1 < |s| && s[i] == '-' && !RejectsAt(s, i) && j >= 3 && s[|s| - 1] != '-'
    ensures !Readable(Fields(s)) && (Strays(s) <==> IsDigit(s[i + 1]))
  {
    TooManyFields(s, i);
    FieldsNext(s, i);
    if IsDigit(s[i + 1]) {
      assert StraysAt(s, i + 1);
    } else {
      assert RejectsAt(s, i + 1) && Passed(s, i + 1);
      RejectedInTime(s, i + 1);
    }
  }

  lemma ScanEnds(s: string, opr: seq<int>, j: nat, chk: bool)
    requires Scanned(s, |s|, opr, j, chk) && s != []
    ensures Readable(Fields(s)) && !Strays(s)
    ensures (if chk then opr[2 := -opr[2]] else opr) == [Parsed(Fields(s), 0), Parsed(Fields(s), 1), Parsed(Fields(s), 2)]
  {
    PassedThrough(s);
    assert s[..|s|] == s;
    ReadingEnds(Fields(s), opr, j, chk);
  }

  /** `get3Num` accepts a line exactly when its fields are well formed and none beyond the third
      holds anything; and then the numbers are those of the fields, but for the sign of a last
      field that is not the third. It goes out of bounds exactly on the lines that stray. */
  method Get3Num(s: string) returns (r: Outcome)
    ensures r.Numbers? <==> s != [] && Readable(Fields(s))
    ensures r.Numbers? ==> r.opr == [Parsed(Fields(s), 0), Parsed(Fields(s), 1), Parsed(Fields(s), 2)]
    ensures r == OutOfBounds <==> Strays(s)
  {
    var opr := [0, 0, 0];
    if |s| == 0 { return OutOfBounds; }
    if s[|s| - 1] == '-' {
      LastMinus(s);
      return Rejected;
    }
    var chk, i, j := false, 0, 0;
    while i < |s|
      invariant Scanned(s, i, opr, j, chk)
    {
      if s[i] == '-' {
        if (i > 0 && s[i - 1] != ' ') || s[i + 1] == ' ' {
          ScanRejects(s, i, opr, j, chk);
          return Rejected;
        }
        if j >= 3 {
          // `opr` is first touched by the next character, unless that one is rejected
          FourthMinus(s, i, opr, j, chk);
          return if IsDigit(s[i + 1]) then OutOfBounds else Rejected;
        }
        ScanMinus(s, i, opr, j, chk);
        chk := true;
      } else if s[i] == ' ' {
        ScanSpace(s, i, opr, j, chk);
        if chk { opr := opr[j := -opr[j]]; }
        j, chk := j + 1, false;
      } else if IsDigit(s[i]) {
        if j >= 3 {
          ScanStrays(s, i, opr, j, chk);
          return OutOfBounds;
        }
        ScanDigit(s, i, opr, j, chk);
        opr := opr[j := 10 * opr[j] + DigitOf(s[i])];
      } else {
        ScanRejects(s, i, opr, j, chk);
        return Rejected;
      }
      i := i + 1;
    }
    ScanEnds(s, opr, j, chk);
    if chk { opr := opr[2 := -opr[2]]; }
    r := Numbers(opr);
  }

  // ---------- printing and reading back ----------

  function ShowNat(n: nat): string {
    if n < 10 then ['0' + n as char] else ShowNat(n / 10) + ['0' + (n % 10) as char]
  }

  function Show(n: int): string {
    if n < 0 then ['-'] + ShowNat(-n) else ShowNat(n)
  }

  lemma {:induction false} ShowNatReads(n: nat)
    ensures ShowNat(n) != [] && Digits(ShowNat(n)) && Number(ShowNat(n)) == n
  {
    if n < 10 {
      assert ShowNat(n)[..0] == [];
    } else {
      ShowNatReads(n / 10);
      NumberNext(ShowNat(n / 10), '0' + (n % 10) as char);
    }
  }

  lemma ShowReads(n: int)
    ensures WellFormed(Show(n)) && Value(Show(n)) == n && Show(n) != [] && ' ' !in Show(n)
    ensures Signed(Show(n)) <==> n < 0
  {
    if n < 0 {
      ShowNatReads(-n);
      assert Show(n)[1..] == ShowNat(-n);
    } else {
      ShowNatReads(n);
    }
  }

  lemma {:induction false} FieldsAppend(s: string, f: Field)
    requires ' ' !in f
    ensures Fields(s + f) == Line(Fields(s).ended, Fields(s).last + f)
  {
    if f == [] {
      assert s + f == s && Fields(s).last + f == Fields(s).last;
    } else {
      var g, c := f[..|f| - 1], f[|f| - 1];
      assert f == g + [c] && c in f;
      assert (s + f)[..|s + f| - 1] == s + g && (s + f)[|s + f| - 1] == c;
      FieldsAppend(s, g);
      assert Fields(s).last + g + [c] == Fields(s).last + f;
    }
  }

  lemma FieldsSpace(s: string)
    ensures Fields(s + " ") == Line(Fields(s).ended + [Fields(s).last], [])
  {
    assert (s + " ")[..|s|] == s;
  }

  lemma FieldsSpaceField(s: string, f: Field)
    requires ' ' !in f
    ensures Fields(s + " " + f) == Line(Fields(s).ended + [Fields(s).last], f)
  {
    FieldsSpace(s);
    FieldsAppend(s + " ", f);
    assert [] + f == f;
  }

  lemma FieldsOfThree(a: Field, b: Field, c: Field)
    requires ' ' !in a && ' ' !in b && ' ' !in c
    ensures Fields(a + " " + b + " " + c) == Line([a, b], c)
  {
    FieldsAppend([], a);
    assert [] + a == a;
    FieldsSpaceField(a, b);
    FieldsSpaceField(a + " " + b, c);
  }

  lemma DigitStrays(p: string, d: char)
    requires (forall k | 0 <= k < |p| :: p[k] == ' ' || IsDigit(p[k])) && IsDigit(d) && |Fields(p).ended| >= 3
    ensures Strays(p + [d])
  {
    var s := p + [d];
    assert s[..|p|] == p && StraysAt(s, |p|);
    assert forall k | 0 <= k < |p| :: s[k] == p[k];
  }

  /** Four one-digit numbers make the parser write behind `opr`: "1 2 3 4" is such a line. */
  lemma FourNumbersStray(a: char, b: char, c: char, d: char)
    requires IsDigit(a) && IsDigit(b) && IsDigit(c) && IsDigit(d)
    ensures Strays([a] + " " + [b] + " " + [c] + " " + [d])
  {
    FieldsOfThree([a], [b], [c]);
    FieldsSpace([a] + " " + [b] + " " + [c]);
    DigitStrays([a] + " " + [b] + " " + [c] + " ", d);
  }

  /** Reading undoes printing, for all triples. */
  lemma ReadsBack(a: int, b: int, c: int)
    ensures var s := Show(a) + " " + Show(b) + " " + Show(c);
      s != [] && Readable(Fields(s)) && [Parsed(Fields(s), 0), Parsed(Fields(s), 1), Parsed(Fields(s), 2)] == [a, b, c]
  {
    ShowReads(a);
    ShowReads(b);
    ShowReads(c);
    FieldsOfThree(Show(a), Show(b), Show(c));
  }

  lemma FieldsOfTwo(a: Field, b: Field)
    requires ' ' !in a && ' ' !in b
    ensures Fields(a + " " + b) == Line([a], b)
  {
    FieldsAppend([], a);
    assert [] + a == a;
    FieldsSpaceField(a, b);
  }

  lemma TwoFields(l: Line, f: Field, g: Field)
    requires l == Line([f], g) && WellFormed(f) && WellFormed(g)
    ensures Readable(l) && Parsed(l, 0) == Value(f) && Parsed(l, 1) == Magnitude(g) && Parsed(l, 2) == 0
  {
  }

  /** On two numbers exactly when the second one is not negative. */
  lemma ReadsBackTwo(a: int, b: int)
    ensures var s := Show(a) + " " + Show(b);
      Readable(Fields(s)) && Parsed(Fields(s), 0) == a && Parsed(Fields(s), 2) == 0 && (Parsed(Fields(s), 1) == b <==> b >= 0)
  {
    ShowReads(a);
    ShowReads(b);
    FieldsOfTwo(Show(a), Show(b));
    TwoFields(Fields(Show(a) + " " + Show(b)), Show(a), Show(b));
  }

  /** On one number alone reading undoes printing exactly when the number is not negative. */
  lemma ReadsBackOne(a: int)
    ensures Readable(Fields(Show(a)))
    ensures Parsed(Fields(Show(a)), 0) == a <==> a >= 0
  {
    ShowReads(a);
    FieldsAppend([], Show(a));
    assert [] + Show(a) == Show(a);
  }
}
