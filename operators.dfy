/**
 * The typing rules of the analyzer's operator actions (src/analyzer.js:360-464): each takes the
 * already analyzed operands and either throws the message of the first failing check or builds
 * a BinaryExpression record.
 */
module Operators {
  import opened Wrappers
  import opened Types
  import opened TypeRules
  import opened Ir
  import opened Checks

  /** The node an operator action returns once every check has passed. */
  function Checked(o: Outcome, n: Node): (r: Result<Node, Error>)
    ensures r.Success? <==> o.Pass?
    ensures r.Success? ==> r.value == n
    ensures r.Failure? ==> r.error == o.error
  {
    if o.Fail? then Failure(o.error) else Success(n)
  }

  const Comparisons: seq<string> := ["<", "<=", ">", ">="]

  /** `Exp2_test`: comparisons need numbers or strings; every relational operator needs equivalent operand types. */
  function Exp2Test(recs: seq<Node>, left: Value, op: string, right: Value): (r: Result<Node, Error>)
    requires Bound(left) <= |recs| && Bound(right) <= |recs|
    ensures r.Success? <==>
              !Nullish(left) && !Nullish(right)
              && (op in Comparisons ==> IsNumericOrString(TypeOf(recs, left).value))
              && Equivalent(TypeOf(recs, left).value, TypeOf(recs, right).value)
    ensures r.Success? ==> r.value == BinaryExpression(op, left, right, Prim(BooleanType))
  {
    var numeric := if op in Comparisons then MustHaveNumericOrStringType(recs, left) else Pass;
    if numeric.Fail? then Failure(numeric.error)
    else Checked(MustBothHaveTheSameType(recs, left, right), BinaryExpression(op, left, right, Prim(BooleanType)))
  }

  /** Whether a relational expression type-checks does not depend on the order of its operands. */
  lemma Exp2TestSymmetric(recs: seq<Node>, left: Value, op: string, right: Value)
    requires Bound(left) <= |recs| && Bound(right) <= |recs|
    ensures Exp2Test(recs, left, op, right).Success? <==> Exp2Test(recs, right, op, left).Success?
  {
    if Exp2Test(recs, left, op, right).Success? {
      OrderIrrelevant(TypeOf(recs, left).value, TypeOf(recs, right).value);
    }
    if Exp2Test(recs, right, op, left).Success? {
      OrderIrrelevant(TypeOf(recs, right).value, TypeOf(recs, left).value);
    }
  }

  /** Equivalent operand types are interchangeable for the numeric-or-string requirement. */
  lemma OrderIrrelevant(lt: Type, rt: Type)
    requires Equivalent(lt, rt)
    ensures Equivalent(rt, lt)
    ensures IsNumericOrString(lt) ==> lt == rt
  {
    EquivalentSymmetric(lt, rt);
    if IsNumericOrString(lt) {
      EquivalentToPrimitive(lt.name, rt);
    }
  }

  /**
   * `Exp3_add`: `+` needs a number or string on the left, `-` a number; both sides must be
   * equivalent and the result has the left operand's type.
   */
  function Exp3Add(recs: seq<Node>, left: Value, op: string, right: Value): (r: Result<Node, Error>)
    requires Bound(left) <= |recs| && Bound(right) <= |recs|
    ensures r.Success? <==>
              !Nullish(left) && !Nullish(right)
              && (if op == "+" then IsNumericOrString(TypeOf(recs, left).value) else IsNumeric(TypeOf(recs, left).value))
              && Equivalent(TypeOf(recs, left).value, TypeOf(recs, right).value)
    ensures r.Success? ==> r.value == BinaryExpression(op, left, right, TypeOf(recs, left).value)
  {
    var first := if op == "+" then MustHaveNumericOrStringType(recs, left) else MustHaveNumericType(recs, left);
    if first.Fail? then Failure(first.error)
    else Checked(MustBothHaveTheSameType(recs, left, right),
                 BinaryExpression(op, left, right, TypeOf(recs, left).value))
  }

  /** An accepted addition or subtraction has two operands of one and the same primitive type. */
  lemma Exp3AddSameType(recs: seq<Node>, left: Value, op: string, right: Value)
    requires Bound(left) <= |recs| && Bound(right) <= |recs|
    requires Exp3Add(recs, left, op, right).Success?
    ensures TypeOf(recs, left) == TypeOf(recs, right)
    ensures TypeOf(recs, left).value in {Prim(IntType), Prim(FloatType), Prim(StringType)}
    ensures op != "+" ==> TypeOf(recs, left).value != Prim(StringType)
  {
    OrderIrrelevant(TypeOf(recs, left).value, TypeOf(recs, right).value);
  }

  /** Strings concatenate but do not subtract. */
  lemma StringsAddButDoNotSubtract(recs: seq<Node>)
    ensures Exp3Add(recs, Lit(StringLit("a")), "+", Lit(StringLit("b"))).Success?
    ensures Exp3Add(recs, Lit(StringLit("a")), "-", Lit(StringLit("b"))) == Failure(SemanticError("Expected a number"))
  {
  }

  /** `Exp4_mul`: only the left operand is checked (the same-type check is disabled in the source). */
  function Exp4Mul(recs: seq<Node>, left: Value, op: string, right: Value): (r: Result<Node, Error>)
    requires Bound(left) <= |recs| && Bound(right) <= |recs|
    ensures r.Success? <==> !Nullish(left) && IsNumeric(TypeOf(recs, left).value)
    ensures r.Success? ==> r.value == BinaryExpression(op, left, right, TypeOf(recs, left).value)
  {
    if Nullish(left) then Failure(TypeError)
    else Checked(MustHaveNumericType(recs, left), BinaryExpression(op, left, right, TypeOf(recs, left).value))
  }

  /** So a number times a string is accepted and typed as the number. */
  lemma Exp4MulIgnoresRight(recs: seq<Node>)
    ensures Exp4Mul(recs, Lit(BigIntLit(2)), "*", Lit(StringLit("x"))).Success?
    ensures Exp4Mul(recs, Lit(BigIntLit(2)), "*", Lit(StringLit("x"))).value.ty == Prim(IntType)
  {
  }

  /** `Exp5_exp`: a numeric left operand and an equivalent right one; the result has the left type. */
  function Exp5Exp(recs: seq<Node>, left: Value, op: string, right: Value): (r: Result<Node, Error>)
    requires Bound(left) <= |recs| && Bound(right) <= |recs|
    ensures r.Success? <==>
              !Nullish(left) && !Nullish(right) && IsNumeric(TypeOf(recs, left).value)
              && Equivalent(TypeOf(recs, left).value, TypeOf(recs, right).value)
    ensures r.Success? ==> r.value == BinaryExpression(op, left, right, TypeOf(recs, left).value)
  {
    var first := MustHaveNumericType(recs, left);
    if first.Fail? then Failure(first.error)
    else Checked(MustBothHaveTheSameType(recs, left, right), BinaryExpression(op, left, right, TypeOf(recs, left).value))
  }

  /** The checks of +, * and ** agree on numbers: whenever ** accepts, so do + and *. */
  lemma ArithmeticAgreesOnNumbers(recs: seq<Node>, left: Value, right: Value)
    requires Bound(left) <= |recs| && Bound(right) <= |recs|
    requires Exp5Exp(recs, left, "**", right).Success?
    ensures Exp3Add(recs, left, "+", right).Success? && Exp3Add(recs, left, "-", right).Success?
    ensures Exp4Mul(recs, left, "*", right).Success?
    ensures Exp3Add(recs, left, "+", right).value.ty == Exp5Exp(recs, left, "**", right).value.ty
  {
  }

  // ---------------------------------------------------------------------------------------------
  // Exp1_or and Exp1_and

  /** The first operand of a chain that fails the boolean check, or |ops| when all pass. */
  function FirstNonBoolean(recs: seq<Node>, ops: seq<Value>): (k: nat)
    requires forall i :: 0 <= i < |ops| ==> Bound(ops[i]) <= |recs|
    ensures k <= |ops|
    ensures forall i :: 0 <= i < k ==> MustHaveBooleanType(recs, ops[i]).Pass?
    ensures k < |ops| ==> MustHaveBooleanType(recs, ops[k]).Fail?
  {
    if ops == [] then 0
    else if MustHaveBooleanType(recs, ops[0]).Fail? then 0
    else 1 + FirstNonBoolean(recs, ops[1..])
  }

  /** The first failure is the one after a run of passing operands. */
  lemma FirstNonBooleanAt(recs: seq<Node>, ops: seq<Value>, j: nat)
    requires forall i :: 0 <= i < |ops| ==> Bound(ops[i]) <= |recs|
    requires j <= |ops| && forall i :: 0 <= i < j ==> MustHaveBooleanType(recs, ops[i]).Pass?
    requires j < |ops| ==> MustHaveBooleanType(recs, ops[j]).Fail?
    ensures FirstNonBoolean(recs, ops) == j
  {
  }

  /** Allocation does not change the type of a value that refers only to older records. */
  lemma TypeOfStable(recs0: seq<Node>, recs: seq<Node>, v: Value)
    requires |recs0| <= |recs| && recs[..|recs0|] == recs0 && Bound(v) <= |recs0|
    ensures TypeOf(recs, v) == TypeOf(recs0, v)
  {
    if v.Ref? {
      assert recs[v.addr] == recs[..|recs0|][v.addr];
    }
  }

  /**
   * What the loop of `Exp1_or` / `Exp1_and` does from a point where `left` is the chain built so
   * far: check the next right operand, allocate the record joining it to the chain, go on.
   */
  function ChainFrom(recs: seq<Node>, op: string, left: Value, rest: seq<Value>): (out: (Result<Value, Error>, seq<Node>))
    requires Bound(left) <= |recs| && forall i :: 0 <= i < |rest| ==> Bound(rest[i]) <= |recs|
    ensures |out.1| >= |recs| && out.1[..|recs|] == recs
    decreases |rest|
  {
    if rest == [] then (Success(left), recs)
    else
      var check := MustHaveBooleanType(recs, rest[0]);
      if check.Fail? then (Failure(check.error), recs)
      else ChainFrom(recs + [BinaryExpression(op, left, rest[0], Prim(BooleanType))], op, Ref(|recs|), rest[1..])
  }

  /** `Exp1_or` / `Exp1_and` on the already analyzed operands, as a function of the heap. */
  function Chain(recs: seq<Node>, op: string, first: Value, rest: seq<Value>): (out: (Result<Value, Error>, seq<Node>))
    requires Bound(first) <= |recs| && forall i :: 0 <= i < |rest| ==> Bound(rest[i]) <= |recs|
  {
    var check := MustHaveBooleanType(recs, first);
    if check.Fail? then (Failure(check.error), recs) else ChainFrom(recs, op, first, rest)
  }

  /** The record allocated at address base + i, joining the chain so far to the i-th right operand. */
  function Link(op: string, left: Value, base: nat, rest: seq<Value>, i: nat): Node
    requires i < |rest|
  {
    BinaryExpression(op, if i == 0 then left else Ref(base + i - 1), rest[i], Prim(BooleanType))
  }

  /** The i-th link from `left` is the (i-1)-th link from the first record allocated. */
  lemma LinkShift(op: string, left: Value, base: nat, rest: seq<Value>, i: nat)
    requires 0 < i < |rest|
    ensures Link(op, left, base, rest, i) == Link(op, Ref(base), base + 1, rest[1..], i - 1)
  {
    assert rest[1..][i - 1] == rest[i];
  }

  /** Allocation does not change which operand is the first non-boolean one. */
  lemma {:induction false} FirstNonBooleanStable(recs0: seq<Node>, recs: seq<Node>, ops: seq<Value>)
    requires |recs0| <= |recs| && recs[..|recs0|] == recs0
    requires forall i :: 0 <= i < |ops| ==> Bound(ops[i]) <= |recs0|
    ensures FirstNonBoolean(recs, ops) == FirstNonBoolean(recs0, ops)
  {
    if ops != [] {
      TypeOfStable(recs0, recs, ops[0]);
      FirstNonBooleanStable(recs0, recs, ops[1..]);
    }
  }

  /** How many records the loop allocates from a chain `left`, and what it returns or throws. */
  lemma {:induction false} ChainFromSize(recs: seq<Node>, op: string, left: Value, rest: seq<Value>)
    requires Bound(left) <= |recs| && forall i :: 0 <= i < |rest| ==> Bound(rest[i]) <= |recs|
    ensures var out := ChainFrom(recs, op, left, rest);
            var k := FirstNonBoolean(recs, rest);
            && |out.1| == |recs| + k
            && (out.0.Success? <==> k == |rest|)
            && (out.0.Failure? ==> out.0.error == MustHaveBooleanType(recs, rest[k]).error)
            && (out.0.Success? ==> out.0.value == if rest == [] then left else Ref(|recs| + |rest| - 1))
    decreases |rest|
  {
    if rest != [] && MustHaveBooleanType(recs, rest[0]).Pass? {
      var recs' := recs + [BinaryExpression(op, left, rest[0], Prim(BooleanType))];
      assert forall i :: 0 <= i < |rest[1..]| ==> rest[1..][i] == rest[i + 1];
      ChainFromSize(recs', op, Ref(|recs|), rest[1..]);
      FirstNonBooleanStable(recs, recs', rest[1..]);
      assert FirstNonBoolean(recs, rest) == 1 + FirstNonBoolean(recs', rest[1..]);
    }
  }

  /** The k records of `heap` from address base on are the first k links from `left`. */
  predicate Linked(heap: seq<Node>, op: string, left: Value, base: nat, rest: seq<Value>, k: nat) {
    forall i :: 0 <= i < k && i < |rest| ==> base + i < |heap| && heap[base + i] == Link(op, left, base, rest, i)
  }

  /** The records the loop allocates from a chain `left`: each joins the chain so far to the next operand. */
  lemma {:induction false} ChainFromLinks(recs: seq<Node>, op: string, left: Value, rest: seq<Value>)
    requires Bound(left) <= |recs| && forall i :: 0 <= i < |rest| ==> Bound(rest[i]) <= |recs|
    ensures var out := ChainFrom(recs, op, left, rest);
            forall i :: 0 <= i < FirstNonBoolean(recs, rest) ==> |recs| + i < |out.1| && out.1[|recs| + i] == Link(op, left, |recs|, rest, i)
    decreases |rest|
  {
    ChainFromSize(recs, op, left, rest);
    if rest != [] && MustHaveBooleanType(recs, rest[0]).Pass? {
      var recs' := recs + [BinaryExpression(op, left, rest[0], Prim(BooleanType))];
      assert forall i :: 0 <= i < |rest[1..]| ==> rest[1..][i] == rest[i + 1];
      ChainFromLinks(recs', op, Ref(|recs|), rest[1..]);
      FirstNonBooleanStable(recs, recs', rest[1..]);
      var out := ChainFrom(recs', op, Ref(|recs|), rest[1..]);
      assert ChainFrom(recs, op, left, rest) == out;
      assert out.1[|recs|] == out.1[..|recs'|][|recs|];
      var k' := FirstNonBoolean(recs', rest[1..]);
      assert FirstNonBoolean(recs, rest) == k' + 1;
      assert Linked(out.1, op, Ref(|recs|), |recs'|, rest[1..], k');
      LinkedAfterFirst(out.1, op, left, |recs|, rest, k' + 1);
    }
  }

  /** The step of `ChainFromLinks`: the first link at address base, then the links from it. */
  lemma LinkedAfterFirst(heap: seq<Node>, op: string, left: Value, base: nat, rest: seq<Value>, k: nat)
    requires 0 < k <= |rest| && base < |heap| && heap[base] == Link(op, left, base, rest, 0)
    requires Linked(heap, op, Ref(base), base + 1, rest[1..], k - 1)
    ensures Linked(heap, op, left, base, rest, k)
  {
    forall i | 0 <= i < k && i < |rest|
      ensures base + i < |heap| && heap[base + i] == Link(op, left, base, rest, i)
    {
      if i > 0 {
        LinkShift(op, left, base, rest, i);
        assert base + 1 + (i - 1) == base + i;
      }
    }
  }

  /**
   * The loop checks the right operands in order and stops at the first non-boolean one, whose
   * error it throws; it has then allocated one record per operand before it, each joining the
   * chain so far to the next operand. With no error, the result is the last record allocated.
   */
  lemma ChainFromShape(recs: seq<Node>, op: string, left: Value, rest: seq<Value>)
    requires Bound(left) <= |recs| && forall i :: 0 <= i < |rest| ==> Bound(rest[i]) <= |recs|
    ensures var out := ChainFrom(recs, op, left, rest);
            var k := FirstNonBoolean(recs, rest);
            && |out.1| == |recs| + k
            && (forall i :: 0 <= i < k ==> out.1[|recs| + i] == Link(op, left, |recs|, rest, i))
            && (out.0.Success? <==> k == |rest|)
            && (out.0.Failure? ==> out.0.error == MustHaveBooleanType(recs, rest[k]).error)
            && (out.0.Success? ==> out.0.value == if rest == [] then left else Ref(|recs| + |rest| - 1))
  {
    ChainFromSize(recs, op, left, rest);
    ChainFromLinks(recs, op, left, rest);
  }

  /** The whole chain: the first operand is checked before any record is allocated. */
  lemma ChainShape(recs: seq<Node>, op: string, first: Value, rest: seq<Value>)
    requires Bound(first) <= |recs| && forall i :: 0 <= i < |rest| ==> Bound(rest[i]) <= |recs|
    ensures var out := Chain(recs, op, first, rest);
            var k := FirstNonBoolean(recs, [first] + rest);
            && |out.1| == |recs| + (if k == 0 then 0 else k - 1)
            && out.1[..|recs|] == recs
            && (forall i :: 0 <= i < |out.1| - |recs| ==> out.1[|recs| + i] == Link(op, first, |recs|, rest, i))
            && (out.0.Success? <==> k == |rest| + 1)
            && (out.0.Failure? ==> out.0.error == MustHaveBooleanType(recs, ([first] + rest)[k]).error)
            && (out.0.Success? ==> out.0.value == if rest == [] then first else Ref(|recs| + |rest| - 1))
  {
    assert ([first] + rest)[1..] == rest;
    if MustHaveBooleanType(recs, first).Pass? {
      ChainFromShape(recs, op, first, rest);
    }
  }

  /**
   * `Exp1_or` (op "||") and `Exp1_and` (op "&&"): checks that the first operand and then each
   * further one is boolean, folding them into a left-nested chain of BinaryExpression records,
   * all typed boolean. The records allocated before a failing operand stay in the heap.
   */
  method LogicalChain(h: Heap, op: string, first: Value, rest: seq<Value>) returns (r: Result<Value, Error>)
    requires h.Valid()
    requires Bound(first) <= |h.records| && forall i :: 0 <= i < |rest| ==> Bound(rest[i]) <= |h.records|
    modifies h
    ensures h.Valid()
    ensures (r, h.records) == Chain(old(h.records), op, first, rest)
  {
    ghost var recs0 := h.records;
    var check := MustHaveBooleanType(h.records, first);
    if check.Fail? {
      return Failure(check.error);
    }
    var left := first;
    var i := 0;
    while i < |rest|
      invariant 0 <= i <= |rest|
      invariant h.Valid() && |h.records| >= |recs0|
      invariant Bound(left) <= |h.records| && forall j :: 0 <= j < |rest| ==> Bound(rest[j]) <= |h.records|
      invariant ChainFrom(h.records, op, left, rest[i..]) == Chain(recs0, op, first, rest)
    {
      var right := rest[i];
      assert rest[i..][0] == right && rest[i..][1..] == rest[i + 1..];
      check := MustHaveBooleanType(h.records, right);
      if check.Fail? {
        return Failure(check.error);
      }
      BoundAllBelow(Children(BinaryExpression(op, left, right, Prim(BooleanType))), |h.records|);
      left := h.Alloc(BinaryExpression(op, left, right, Prim(BooleanType)));
      i := i + 1;
    }
    return Success(left);
  }
}
