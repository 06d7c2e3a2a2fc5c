/**
 * The Range generator (src/generator.js:41-103): the counting loops that list a range's elements
 * when start, end and step are BigInts. Every loop has the same shape: while the test holds,
 * push `current` and step it.
 */
module Ranges {
  import opened Wrappers
  import opened Strings
  import opened Ir

  /** The five loops of the `switch`, each with a step greater than 0 (`+`, `-`) or than 1. */
  datatype Counting = Add | Subtract | Multiply | Exponentiate | Divide

  /** `b ** e` on BigInts with a non-negative exponent. */
  function Pow(b: int, e: nat): int {
    if e == 0 then 1 else b * Pow(b, e - 1)
  }

  /** BigInt division, which truncates toward zero (unlike Dafny's Euclidean `/`). */
  function TruncDiv(a: int, b: int): int
    requires b != 0
  {
    var q := (if a < 0 then -a else a) / (if b < 0 then -b else b);
    if (a < 0) != (b < 0) then -q else q
  }

  /** The loop test: `current <= end` while counting up, `current >= end` while counting down. */
  predicate Test(m: Counting, current: int, end: int) {
    if m == Subtract || m == Divide then current >= end else current <= end
  }

  /** When a loop makes progress: the condition this model needs to bound it. */
  predicate Progress(m: Counting, current: int, end: int, step: int) {
    match m
    case Add => step > 0
    case Subtract => step > 0
    case Multiply => step > 1 && current > 0
    case Exponentiate => step > 1 && current >= 2
    case Divide => step > 1 && end > 0
  }

  /** `current += value`, `current -= value`, `current *= value`, `current **= value`, `current /= value`. */
  function Step(m: Counting, current: int, end: int, step: int): int
    requires Progress(m, current, end, step)
  {
    match m
    case Add => current + step
    case Subtract => current - step
    case Multiply => current * step
    case Exponentiate => Pow(current, step)
    case Divide => TruncDiv(current, step)
  }

  /** How far the loop still has to go; it shrinks at every iteration. */
  function Measure(m: Counting, current: int, end: int): nat {
    if !Test(m, current, end) then 0
    else if m == Subtract then current - end + 1
    else if m == Divide then (if current < 0 then 0 else current)
    else end - current + 1
  }

  lemma MulGrows(c: int, k: int)
    requires c > 0 && k > 1
    ensures c * k > c
  {
    assert c * k == c * (k - 1) + c;
    assert c * (k - 1) > 0;
  }

  lemma {:induction false} PowAtLeast(c: int, n: nat)
    requires c >= 2 && n >= 1
    ensures Pow(c, n) >= c
  {
    if n > 1 {
      PowAtLeast(c, n - 1);
      MulGrows(Pow(c, n - 1), c);
    }
  }

  lemma DivShrinks(c: int, k: int)
    requires c > 0 && k > 1
    ensures 0 <= TruncDiv(c, k) < c
  {
    var q := c / k;
    assert TruncDiv(c, k) == q;
    assert q * k + c % k == c && 0 <= c % k && q >= 0;
    MulAtLeast(q, k);
  }

  lemma MulAtLeast(q: int, k: int)
    requires q >= 0 && k > 1
    ensures q * k >= q * 2
  {
    assert q * k - q * 2 == q * (k - 2);
  }

  lemma StepProgress(m: Counting, current: int, end: int, step: int)
    requires Progress(m, current, end, step) && Test(m, current, end)
    ensures Progress(m, Step(m, current, end, step), end, step)
    ensures Measure(m, Step(m, current, end, step), end) < Measure(m, current, end)
  {
    match m
    case Add => {}
    case Subtract => {}
    case Multiply => { MulGrows(current, step); }
    case Exponentiate => {
      PowAtLeast(current, step - 1);
      MulGrows(Pow(current, step - 1), current);
    }
    case Divide => { DivShrinks(current, step); }
  }

  /** The elements the loop pushes, from `current` on. */
  function Orbit(m: Counting, current: int, end: int, step: int): seq<int>
    requires Progress(m, current, end, step)
    decreases Measure(m, current, end)
  {
    if !Test(m, current, end) then []
    else
      StepProgress(m, current, end, step);
      [current] + Orbit(m, Step(m, current, end, step), end, step)
  }

  /**
   * The elements are exactly what the loop promises: they start at `current`, each is the step
   * of the one before, all pass the test, and the step after the last one fails it (or, with no
   * elements, `current` fails it already).
   */
  lemma {:induction false} OrbitShape(m: Counting, current: int, end: int, step: int)
    requires Progress(m, current, end, step)
    ensures var r := Orbit(m, current, end, step);
            && (|r| == 0 <==> !Test(m, current, end))
            && (|r| > 0 ==> r[0] == current)
            && (forall i | 0 <= i < |r| :: Test(m, r[i], end) && Progress(m, r[i], end, step))
            && (forall i | 0 <= i < |r| - 1 :: r[i + 1] == Step(m, r[i], end, step))
            && (|r| > 0 ==> !Test(m, Step(m, r[|r| - 1], end, step), end))
    decreases Measure(m, current, end)
  {
    if Test(m, current, end) {
      StepProgress(m, current, end, step);
      var next := Step(m, current, end, step);
      OrbitShape(m, next, end, step);
      var r := Orbit(m, current, end, step);
      var rest := Orbit(m, next, end, step);
      assert r == [current] + rest;
      forall i | 0 <= i < |r| - 1
        ensures r[i + 1] == Step(m, r[i], end, step)
      {
        if i > 0 {
          assert r[i] == rest[i - 1] && r[i + 1] == rest[i];
        }
      }
    }
  }

  /** Counting up by `step`: element i is `start + i * step`, and one more step passes `end`. */
  lemma {:induction false} AddClosedForm(start: int, end: int, step: int)
    requires step > 0
    ensures var r := Orbit(Add, start, end, step);
            && (forall i | 0 <= i < |r| :: r[i] == start + i * step && r[i] <= end)
            && start + |r| * step > end
    decreases Measure(Add, start, end)
  {
    if start <= end {
      AddClosedForm(start + step, end, step);
      var r := Orbit(Add, start, end, step);
      var rest := Orbit(Add, start + step, end, step);
      assert r == [start] + rest;
      forall i | 0 <= i < |r|
        ensures r[i] == start + i * step
      {
        if i > 0 {
          assert r[i] == rest[i - 1] == start + step + (i - 1) * step;
        }
      }
      assert start + step + |rest| * step == start + |r| * step;
    }
  }

  /** Counting down by `step`: element i is `start - i * step`, and one more step passes `end`. */
  lemma {:induction false} SubtractClosedForm(start: int, end: int, step: int)
    requires step > 0
    ensures var r := Orbit(Subtract, start, end, step);
            && (forall i | 0 <= i < |r| :: r[i] == start - i * step && r[i] >= end)
            && start - |r| * step < end
    decreases Measure(Subtract, start, end)
  {
    if start >= end {
      SubtractClosedForm(start - step, end, step);
      var r := Orbit(Subtract, start, end, step);
      var rest := Orbit(Subtract, start - step, end, step);
      assert r == [start] + rest;
      forall i | 0 <= i < |r|
        ensures r[i] == start - i * step
      {
        if i > 0 {
          assert r[i] == rest[i - 1] == start - step - (i - 1) * step;
        }
      }
      assert start - step - |rest| * step == start - |r| * step;
    }
  }

  /** Multiplying by `step`: element i is `start * step ** i`, all at most `end`. */
  lemma {:induction false} MultiplyClosedForm(start: int, end: int, step: int)
    requires step > 1 && start > 0
    ensures var r := Orbit(Multiply, start, end, step);
            && (forall i | 0 <= i < |r| :: r[i] == start * Pow(step, i) && r[i] <= end)
            && start * Pow(step, |r|) > end
    decreases Measure(Multiply, start, end)
  {
    if start <= end {
      MulGrows(start, step);
      var next := start * step;
      MultiplyClosedForm(next, end, step);
      var r := Orbit(Multiply, start, end, step);
      var rest := Orbit(Multiply, next, end, step);
      assert r == [start] + rest;
      forall i | 0 <= i < |r|
        ensures r[i] == start * Pow(step, i)
      {
        if i > 0 {
          assert r[i] == rest[i - 1] == next * Pow(step, i - 1);
          ShiftPower(start, step, i);
        }
      }
      ShiftPower(start, step, |r|);
    }
  }

  lemma ShiftPower(start: int, step: int, i: nat)
    requires i > 0
    ensures (start * step) * Pow(step, i - 1) == start * Pow(step, i)
  {
    assert Pow(step, i) == step * Pow(step, i - 1);
    MulAssociative(start, step, Pow(step, i - 1));
  }

  lemma MulAssociative(a: int, b: int, c: int)
    ensures (a * b) * c == a * (b * c)
  {
  }

  /** A loop that cannot be bounded is reported; one whose test fails at once pushes nothing. */
  function Counted(m: Counting, start: int, end: int, step: int): (r: Result<seq<int>, Error>)
    ensures r.Failure? ==> r.error.NotModelled?
  {
    if Progress(m, start, end, step) then Success(Orbit(m, start, end, step))
    else if !Test(m, start, end) then Success([])
    else Failure(NotModelled("a range loop this model does not bound"))
  }

  /** The `value <= 1` branch of `*`, `**` and `/`: modelled only when its loop does not run. */
  function NotRun(runs: bool): (r: Result<seq<int>, Error>)
    ensures r.Success? <==> !runs
  {
    if runs then Failure(NotModelled("the value <= 1 branch of a range")) else Success([])
  }

  const NonIntegerRange := "a range whose bounds or step are not BigInts"

  predicate IsBigInt(v: Value) {
    v.Lit? && v.lit.BigIntLit?
  }

  /** The operators the `switch` has a case for. */
  predicate IsRangeOp(op: Value) {
    op.Lit? && op.lit.StringLit? && op.lit.text in ["+", "-", "*", "**", "/"]
  }

  /** Which loop a case of the `switch` runs. */
  function ModeOf(op: string): Counting {
    if op == "+" then Add
    else if op == "-" then Subtract
    else if op == "*" then Multiply
    else if op == "**" then Exponentiate
    else Divide
  }

  /**
   * The elements the `switch` pushes for the generated operator, start, end and value: `+` and
   * `-` loop whatever the value; `*`, `**` and `/` pick their loop by `value > 1`.
   */
  function RangeElements(op: Value, start: Value, end: Value, value: Value): (r: Result<seq<int>, Error>)
    ensures !IsRangeOp(op) ==> r == Success([])
    ensures r.Failure? ==> r.error.NotModelled?
  {
    if !IsRangeOp(op) then Success([])
    else if !(IsBigInt(start) && IsBigInt(end) && IsBigInt(value)) then
      Failure(NotModelled(NonIntegerRange))
    else
      var s, e, k := start.lit.n, end.lit.n, value.lit.n;
      var m := ModeOf(op.lit.text);
      if m == Add || m == Subtract || k > 1 then Counted(m, s, e, k)
      else NotRun(if m == Divide then s <= e else s >= e)
  }

  /** `[${elements.join(", ")}]`. */
  function RangeText(elements: seq<int>): string {
    "[" + Join(seq(|elements|, i requires 0 <= i < |elements| => IntToString(elements[i])), ", ") + "]"
  }

  /** One counting loop, as the `switch` runs it: push `current`, then step it, while the test holds. */
  method Count(m: Counting, start: int, end: int, step: int) returns (elements: seq<int>)
    requires Progress(m, start, end, step)
    ensures elements == Orbit(m, start, end, step)
  {
    elements := [];
    var current := start;
    while Test(m, current, end)
      invariant Progress(m, current, end, step)
      invariant elements + Orbit(m, current, end, step) == Orbit(m, start, end, step)
      decreases Measure(m, current, end)
    {
      StepProgress(m, current, end, step);
      elements := elements + [current];
      current := Step(m, current, end, step);
    }
  }

  method CountIfBounded(m: Counting, start: int, end: int, step: int) returns (r: Result<seq<int>, Error>)
    ensures r == Counted(m, start, end, step)
  {
    if Progress(m, start, end, step) {
      var elements := Count(m, start, end, step);
      return Success(elements);
    } else if !Test(m, start, end) {
      return Success([]);
    }
    return Counted(m, start, end, step);
  }

  /** The `switch (op)` of the Range generator. */
  method Expand(op: Value, start: Value, end: Value, value: Value) returns (r: Result<seq<int>, Error>)
    ensures r == RangeElements(op, start, end, value)
  {
    if !IsRangeOp(op) {
      r := Success([]);
    } else if !(IsBigInt(start) && IsBigInt(end) && IsBigInt(value)) {
      r := Failure(NotModelled(NonIntegerRange));
    } else {
      r := Loop(ModeOf(op.lit.text), start.lit.n, end.lit.n, value.lit.n);
    }
  }

  /** The case's loop, or the `value <= 1` branch. */
  method Loop(m: Counting, s: int, e: int, k: int) returns (r: Result<seq<int>, Error>)
    ensures r == if m == Add || m == Subtract || k > 1 then Counted(m, s, e, k)
                 else NotRun(if m == Divide then s <= e else s >= e)
  {
    if m == Add || m == Subtract || k > 1 {
      r := CountIfBounded(m, s, e, k);
    } else if m == Divide {
      r := NotRun(s <= e);
    } else {
      r := NotRun(s >= e);
    }
  }

  function Int(n: int): Value {
    Lit(BigIntLit(n))
  }

  function Op(s: string): Value {
    Lit(StringLit(s))
  }

  /** `[1...20, *2]` lists the powers of two up to 20. */
  lemma DoublingRange()
    ensures RangeElements(Op("*"), Int(1), Int(20), Int(2)) == Success([1, 2, 4, 8, 16])
  {
    assert Orbit(Multiply, 32, 20, 2) == [];
    assert Orbit(Multiply, 16, 20, 2) == [16];
    assert Orbit(Multiply, 4, 20, 2) == [4, 8, 16];
    assert Orbit(Multiply, 1, 20, 2) == [1, 2, 4, 8, 16];
  }

  /** `[100000...10, /10]` divides down to 10. */
  lemma TenfoldDivisionRange()
    ensures RangeElements(Op("/"), Int(100000), Int(10), Int(10)) == Success([100000, 10000, 1000, 100, 10])
  {
    assert Orbit(Divide, 1, 10, 10) == [];
    assert Orbit(Divide, 10, 10, 10) == [10];
    assert Orbit(Divide, 1000, 10, 10) == [1000, 100, 10];
    assert Orbit(Divide, 100000, 10, 10) == [100000, 10000, 1000, 100, 10];
  }

  /** `[2...10000000000, **2]` squares up to 2 ** 32. */
  lemma SquaringRange()
    ensures RangeElements(Op("**"), Int(2), Int(10000000000), Int(2)) == Success([2, 4, 16, 256, 65536, 4294967296])
  {
    assert Pow(4294967296, 2) == 18446744073709551616;
    assert Orbit(Exponentiate, 18446744073709551616, 10000000000, 2) == [];
    assert Orbit(Exponentiate, 65536, 10000000000, 2) == [65536, 4294967296];
    assert Orbit(Exponentiate, 16, 10000000000, 2) == [16, 256, 65536, 4294967296];
    assert Orbit(Exponentiate, 2, 10000000000, 2) == [2, 4, 16, 256, 65536, 4294967296];
  }

  /** The `switch` has no `%` case, so `[4...2, %2]` lists nothing. */
  lemma ModuloRangeIsEmpty()
    ensures RangeElements(Op("%"), Int(4), Int(2), Int(2)) == Success([])
    ensures RangeText([]) == "[]"
  {
    assert !IsRangeOp(Op("%"));
  }

  /** `[10...1, -1]` counts down to 1. */
  lemma CountdownRange()
    ensures RangeElements(Op("-"), Int(10), Int(1), Int(1)) == Success([10, 9, 8, 7, 6, 5, 4, 3, 2, 1])
  {
    SubtractClosedForm(10, 1, 1);
    var r := Orbit(Subtract, 10, 1, 1);
    assert |r| == 10;
    assert r == [10, 9, 8, 7, 6, 5, 4, 3, 2, 1];
  }
}
