/** The three thread functions, cut at the points where they can lose the processor. */
module ThreadBodies {

  datatype Body = Fibonacci | Collatz | MaxSubarray

  /** Where a saved environment resumes: after `thread_setup`, in `thread_yield`, in
      `async_read`; or nowhere, once the control block is freed. */
  datatype Point = Created | AtYield | InRead | Freed

  /** The fields of a control block that survive a switch. */
  datatype Regs = Regs(body: Body, arg: int, i: int, x: int, y: int, point: Point)

  /** How a turn ends: at a voluntary `thread_yield`, in `async_read`, or in `thread_exit`. */
  datatype Checkpoint = MayYield | MustRead | MustExit

  datatype Output = Silent | Printed(value: int)

  datatype TurnResult = TurnResult(regs: Regs, output: Output, next: Checkpoint)

  /** One turn: from the resume point to the next checkpoint. `input` is the number `async_read`
      hands over, used only when the thread resumes there. */
  function Turn(r: Regs, input: int): TurnResult
    requires r.point != Freed
  {
    var i := if r.point == Created then 1 else if r.point == AtYield then r.i + 1 else r.i;
    match r.body
    case Fibonacci =>
      var x, y := if i <= 2 then 1 else r.y, if i <= 2 then 1 else r.x + r.y;
      Ended(Regs(r.body, r.arg, i, x, y, AtYield), y, i == r.arg)
    case Collatz =>
      var arg := if r.arg % 2 != 0 then r.arg * 3 + 1 else r.arg / 2;
      Ended(Regs(r.body, arg, i, r.x, r.y, AtYield), arg, arg == 1)
    case MaxSubarray =>
      if r.point != InRead then TurnResult(r.(i := i, point := InRead), Silent, MustRead)
      else
        var y := if r.y + input > input then r.y + input else input;
        var x := if r.x > y then r.x else y;
        Ended(Regs(r.body, r.arg, i, x, y, AtYield), x, r.arg == i)
  }

  function Ended(r: Regs, value: int, exit: bool): TurnResult {
    TurnResult(if exit then r.(point := Freed) else r, Printed(value), if exit then MustExit else MayYield)
  }

  /** The control block itself, with the source's loops as methods on it. */
  class Tcb {
    const body: Body
    var arg: int
    var i: int
    var x: int
    var y: int
    var point: Point

    constructor (body: Body, arg: int, garbage: int)
      ensures Value() == Regs(body, arg, garbage, 0, 0, Created)
    {
      this.body, this.arg, i, x, y, point := body, arg, garbage, 0, 0, Created;
    }

    function Value(): Regs
      reads this
    {
      Regs(body, arg, i, x, y, point)
    }

    method NextIteration()
      modifies this`i
      ensures i == if point == Created then 1 else if point == AtYield then old(i) + 1 else old(i)
    {
      if point == Created { i := 1; } else if point == AtYield { i := i + 1; }
    }

    /** The end of a loop body: `thread_exit` frees the block, `thread_yield` keeps it. */
    method Leave(exit: bool) returns (next: Checkpoint)
      modifies this`point
      ensures point == (if exit then Freed else AtYield) && next == (if exit then MustExit else MayYield)
    {
      point := if exit then Freed else AtYield;
      next := if exit then MustExit else MayYield;
    }

    method FibonacciTurn() returns (output: Output, next: Checkpoint)
      requires body == Fibonacci && point != Freed
      modifies this
      ensures TurnResult(Value(), output, next) == Turn(old(Value()), 0)
    {
      NextIteration();
      if i <= 2 {
        y := 1;
        x := 1;
      } else {
        var tmp := y;
        y := x + y;
        x := tmp;
      }
      output := Printed(y);
      next := Leave(i == arg);
    }

    method CollatzTurn() returns (output: Output, next: Checkpoint)
      requires body == Collatz && point != Freed
      modifies this
      ensures TurnResult(Value(), output, next) == Turn(old(Value()), 0)
    {
      NextIteration();
      if arg % 2 != 0 {
        arg := arg * 3 + 1;
      } else {
        arg := arg / 2;
      }
      output := Printed(arg);
      next := Leave(arg == 1);
    }

    method MaxSubarrayTurn(input: int) returns (output: Output, next: Checkpoint)
      requires body == MaxSubarray && point != Freed
      modifies this
      ensures TurnResult(Value(), output, next) == Turn(old(Value()), input)
    {
      NextIteration();
      if point != InRead {
        point := InRead;
        return Silent, MustRead;
      }
      y := if y + input > input then y + input else input;
      x := if x > y then x else y;
      output := Printed(x);
      next := Leave(arg == i);
    }
  }

  // ---------- what each thread should print ----------

  function Fib(n: nat): nat {
    if n <= 1 then n else Fib(n - 2) + Fib(n - 1)
  }

  function CollatzIter(n: int, k: nat): int {
    if k == 0 then n
    else var m := CollatzIter(n, k - 1); if m % 2 != 0 then m * 3 + 1 else m / 2
  }

  function Sum(s: seq<int>): int {
    if s == [] then 0 else Sum(s[..|s| - 1]) + s[|s| - 1]
  }

  /** `v` is the largest sum of a contiguous part of `s`, the empty one included. */
  ghost predicate BestPart(s: seq<int>, v: int) {
    && (exists i, j :: 0 <= i <= j <= |s| && Sum(s[i..j]) == v)
    && (forall i, j | 0 <= i <= j <= |s| :: Sum(s[i..j]) <= v)
  }

  /** `v` is the largest sum of a nonempty part of `s` that reaches its end. */
  ghost predicate BestEnding(s: seq<int>, v: int) {
    && (exists i :: 0 <= i < |s| && Sum(s[i..]) == v)
    && (forall i | 0 <= i < |s| :: Sum(s[i..]) <= v)
  }

  // ---------- and what that means ----------

  lemma FibonacciNumbers(n: nat)
    ensures Fib(1) == Fib(2) == 1 && Fib(n + 2) == Fib(n + 1) + Fib(n)
  {
  }

  /** An even number is halved, an odd one tripled and increased by one. */
  lemma CollatzSteps(n: int, k: nat, m: int)
    ensures CollatzIter(n, 0) == n
    ensures CollatzIter(n, k) == 2 * m ==> CollatzIter(n, k + 1) == m
    ensures CollatzIter(n, k) == 2 * m + 1 ==> CollatzIter(n, k + 1) == 6 * m + 4
  {
    Parity(CollatzIter(n, k), m);
    assert CollatzIter(n, k + 1) == var v := CollatzIter(n, k); if v % 2 != 0 then v * 3 + 1 else v / 2;
  }

  lemma Parity(v: int, m: int)
    ensures v == 2 * m ==> v % 2 == 0 && v / 2 == m
    ensures v == 2 * m + 1 ==> v % 2 == 1 && v * 3 + 1 == 6 * m + 4
  {
  }

  lemma SumAppend(s: seq<int>, x: int)
    ensures Sum(s + [x]) == Sum(s) + x
  {
    assert (s + [x])[..|s|] == s;
  }

  /** Sums of parts add up to the sum of the whole. */
  lemma {:induction false} SumParts(s: seq<int>, t: seq<int>, x: int)
    ensures Sum([]) == 0 && Sum([x]) == x && Sum(s + t) == Sum(s) + Sum(t)
    decreases |t|
  {
    assert [x] == [] + [x];
    SumAppend([], x);
    if t == [] {
      assert s + t == s;
    } else {
      var u := t[..|t| - 1];
      SumParts(s, u, x);
      assert s + t == (s + u) + [t[|t| - 1]] && t == u + [t[|t| - 1]];
      SumAppend(s + u, t[|t| - 1]);
      SumAppend(u, t[|t| - 1]);
    }
  }

  // ---------- one thread's registers, whatever happens in between ----------

  /** What a thread started with `arg0` knows after printing `printed` and reading `input`. */
  ghost predicate Faithful(arg0: int, r: Regs, printed: seq<int>, input: seq<int>) {
    && (r.point == Created ==> printed == [] && input == [] && r.arg == arg0 && r.x == 0 && r.y == 0)
    && match r.body
       case Fibonacci => FibonacciFaithful(arg0, r, printed)
       case Collatz => CollatzFaithful(arg0, r, printed)
       case MaxSubarray => MaxSubarrayFaithful(arg0, r, printed, input)
  }

  /** The first Fibonacci numbers, as many as asked for; for ever if none are. */
  ghost predicate FibonacciFaithful(arg0: int, r: Regs, printed: seq<int>) {
    && r.arg == arg0 && r.point != InRead
    && (forall k | 0 <= k < |printed| :: printed[k] == Fib(k + 1))
    && (r.point != Created ==> r.i == |printed| >= 1 && r.y == Fib(r.i) && r.x == if r.i <= 2 then 1 else Fib(r.i - 1))
    && (r.point == Freed <==> |printed| == arg0 >= 1)
    && (|printed| > arg0 ==> arg0 <= 0)
  }

  /** The Collatz iterates up to and including the first 1. */
  ghost predicate CollatzFaithful(arg0: int, r: Regs, printed: seq<int>) {
    && r.arg == CollatzIter(arg0, |printed|) && r.point != InRead
    && (forall k | 0 <= k < |printed| :: printed[k] == CollatzIter(arg0, k + 1))
    && (forall k | 0 <= k < |printed| :: printed[k] == 1 <==> r.point == Freed && k == |printed| - 1)
    && (r.point != Created ==> printed != [])
  }

  /** The best sums of the growing prefixes of what was read. */
  ghost predicate MaxSubarrayFaithful(arg0: int, r: Regs, printed: seq<int>, input: seq<int>) {
    && r.arg == arg0 && |input| == |printed|
    && (forall k | 0 <= k < |printed| :: BestPart(input[..k + 1], printed[k]))
    && (r.point != Created ==> r.i == if r.point == InRead then |printed| + 1 else |printed|)
    && (r.point in {AtYield, Freed} ==> printed != [])
    && BestPart(input, r.x)
    && (if input == [] then r.y == 0 else BestEnding(input, r.y))
    && (r.point == Freed <==> |printed| == arg0 >= 1)
    && (|printed| > arg0 ==> arg0 <= 0)
  }

  lemma EndingGrows(s: seq<int>, y: int, x: int)
    requires if s == [] then y == 0 else BestEnding(s, y)
    ensures BestEnding(s + [x], if y + x > x then y + x else x)
  {
    var t, v := s + [x], if y + x > x then y + x else x;
    assert t[|s|..] == [] + [x];
    SumAppend([], x);
    forall i | 0 <= i < |t| ensures Sum(t[i..]) <= v {
      if i < |s| {
        assert t[i..] == s[i..] + [x];
        SumAppend(s[i..], x);
      }
    }
    if y + x > x {
      var i :| 0 <= i < |s| && Sum(s[i..]) == y;
      assert t[i..] == s[i..] + [x];
      SumAppend(s[i..], x);
    }
  }

  lemma PartGrows(s: seq<int>, best: int, x: int, ending: int)
    requires BestPart(s, best) && BestEnding(s + [x], ending)
    ensures BestPart(s + [x], if best > ending then best else ending)
  {
    var t, v := s + [x], if best > ending then best else ending;
    forall i, j | 0 <= i <= j <= |t| ensures Sum(t[i..j]) <= v {
      if j <= |s| {
        assert t[i..j] == s[i..j];
      } else if i < j {
        assert t[i..j] == t[i..];
      } else {
        assert t[i..j] == [] == s[0..0];
      }
    }
    if best > ending {
      var i, j :| 0 <= i <= j <= |s| && Sum(s[i..j]) == best;
      assert t[i..j] == s[i..j];
    } else {
      var i :| 0 <= i < |t| && Sum(t[i..]) == ending;
      assert t[i..|t|] == t[i..];
    }
  }

  lemma StartsFaithful(body: Body, arg: int, garbage: int)
    ensures Faithful(arg, Regs(body, arg, garbage, 0, 0, Created), [], [])
  {
    assert BestPart([], 0) by { assert Sum([][0..0]) == 0; }
  }

  function Appended(printed: seq<int>, output: Output): seq<int> {
    match output
    case Silent => printed
    case Printed(v) => printed + [v]
  }

  lemma FibonacciTurnFaithful(arg0: int, r: Regs, printed: seq<int>)
    requires r.body == Fibonacci && r.point != Freed
    requires Faithful(arg0, r, printed, [])
    ensures var t := Turn(r, 0); Faithful(arg0, t.regs, Appended(printed, t.output), [])
  {
    var t := Turn(r, 0);
    assert t.regs.y == Fib(|printed| + 1);
  }

  lemma CollatzTurnFaithful(arg0: int, r: Regs, printed: seq<int>)
    requires r.body == Collatz && r.point != Freed
    requires Faithful(arg0, r, printed, [])
    ensures var t := Turn(r, 0); Faithful(arg0, t.regs, Appended(printed, t.output), [])
  {
  }

  lemma PrefixesGrow(input: seq<int>, printed: seq<int>, add: int, best: int)
    requires |input| == |printed| && BestPart(input + [add], best)
    requires forall k | 0 <= k < |printed| :: BestPart(input[..k + 1], printed[k])
    ensures forall k | 0 <= k < |printed + [best]| :: BestPart((input + [add])[..k + 1], (printed + [best])[k])
  {
    forall k | 0 <= k < |printed + [best]| ensures BestPart((input + [add])[..k + 1], (printed + [best])[k]) {
      assert (input + [add])[..k + 1] == if k < |printed| then input[..k + 1] else input + [add];
    }
  }

  lemma MaxSubarrayTurnFaithful(arg0: int, r: Regs, printed: seq<int>, input: seq<int>, add: int)
    requires r.body == MaxSubarray && r.point != Freed
    requires Faithful(arg0, r, printed, input)
    ensures var t := Turn(r, add);
      Faithful(arg0, t.regs, Appended(printed, t.output), if r.point == InRead then input + [add] else input)
  {
    if r.point == InRead {
      var t := Turn(r, add);
      EndingGrows(input, r.y, add);
      PartGrows(input, r.x, add, t.regs.y);
      PrefixesGrow(input, printed, add, t.regs.x);
    }
  }
}
