/**
 * The optimizer (src/optimizer.js): dispatch on `kind`, rewriting Program, VariableDeclaration,
 * TypeDeclaration and FunctionDeclaration records in place and returning the same object. No
 * other kind has an entry, so everything else comes back as it is.
 */
module Optimizer {
  import opened Wrappers
  import opened Types
  import opened Ir

  /** Whether the optimizer table has an entry for the record a value refers to. */
  predicate HasOptimizer(recs: seq<Node>, v: Value)
    requires Bound(v) <= |recs|
  {
    v.Ref? && (recs[v.addr].Program? || recs[v.addr].VariableDeclaration? ||
               recs[v.addr].TypeDeclaration? || recs[v.addr].FunctionDeclaration?)
  }

  /** What `flatMap` makes of one optimized element: an array is spliced in, anything else kept. */
  function Spliced(v: Value): seq<Value> {
    if v.List? then v.items else [v]
  }

  /** One level of flattening, the reference for what `statements.flatMap(optimize)` yields. */
  function Flatten(vs: seq<Value>): (r: seq<Value>)
    ensures |r| >= |vs| - CountLists(vs)
  {
    if vs == [] then [] else Spliced(vs[0]) + Flatten(vs[1..])
  }

  function CountLists(vs: seq<Value>): nat {
    if vs == [] then 0 else (if vs[0].List? then 1 else 0) + CountLists(vs[1..])
  }

  lemma {:induction false} FlattenBound(vs: seq<Value>)
    ensures BoundAll(Flatten(vs)) <= BoundAll(vs)
  {
    if vs != [] {
      FlattenBound(vs[1..]);
      BoundAllAppend(Spliced(vs[0]), Flatten(vs[1..]));
      if !vs[0].List? {
        assert BoundAll([vs[0]]) == Bound(vs[0]);
      }
    }
  }

  lemma {:induction false} FlattenAppend(xs: seq<Value>, ys: seq<Value>)
    ensures Flatten(xs + ys) == Flatten(xs) + Flatten(ys)
  {
    if xs == [] {
      assert xs + ys == ys;
    } else {
      assert (xs + ys)[0] == xs[0] && (xs + ys)[1..] == xs[1..] + ys;
      FlattenAppend(xs[1..], ys);
    }
  }

  /** Without array elements, flattening keeps every element, in order. */
  lemma {:induction false} FlattenWithoutLists(vs: seq<Value>)
    requires forall i :: 0 <= i < |vs| ==> !vs[i].List?
    ensures Flatten(vs) == vs
  {
    if vs != [] {
      FlattenWithoutLists(vs[1..]);
    }
  }

  /**
   * `optimize(node)` as a function of the heap: the result and the heap afterwards. A TypeError
   * (reading `kind` of null or undefined, or `flatMap` of something that is not an array) ends
   * the pass; the updates made until then stay.
   */
  function OptimizeSpec(recs: seq<Node>, v: Value): (out: (Result<Value, Error>, seq<Node>))
    requires WellFormed(recs) && Bound(v) <= |recs|
    ensures WellFormed(out.1) && |out.1| == |recs|
    ensures out.0.Success? ==> out.0.value == v
    ensures out.0.Failure? ==> out.0.error == TypeError
    ensures forall b :: 0 <= b < |recs| ==> KindOf(out.1[b]) == KindOf(recs[b])
    ensures forall b :: Bound(v) <= b < |recs| ==> out.1[b] == recs[b]
    decreases Bound(v), 1
  {
    if Nullish(v) then (Failure(TypeError), recs)
    else if !HasOptimizer(recs, v) then (Success(v), recs)
    else
      var out := match recs[v.addr]
        case Program(_) => OptimizeProgram(recs, v.addr)
        case VariableDeclaration(_, _) => OptimizeVariableDeclaration(recs, v.addr)
        case TypeDeclaration(_) => OptimizeTypeDeclaration(recs, v.addr)
        case FunctionDeclaration(_) => OptimizeFunctionDeclaration(recs, v.addr);
      (if out.0.Success? then Success(v) else Failure(out.0.error), out.1)
  }

  /** The flattened statement list refers only to records the old one could refer to. */
  lemma FlattenedProgramBound(items: seq<Value>, a: nat)
    requires BoundAll(items) <= a
    ensures BoundAll(Children(Program(List(Flatten(items))))) <= a
  {
    var flat := Flatten(items);
    FlattenBound(items);
    assert BoundAll([List(flat)]) == Max(BoundAll(flat), BoundAll([List(flat)][1..]));
  }

  /** `Program(p)`: `p.statements = p.statements.flatMap(optimize)`. */
  function OptimizeProgram(recs: seq<Node>, a: nat): (out: (Result<(), Error>, seq<Node>))
    requires WellFormed(recs) && a < |recs| && recs[a].Program?
    ensures WellFormed(out.1) && |out.1| == |recs|
    ensures out.0.Failure? ==> out.0.error == TypeError
    ensures forall b :: 0 <= b < |recs| ==> KindOf(out.1[b]) == KindOf(recs[b])
    ensures forall b :: a < b < |recs| ==> out.1[b] == recs[b]
    ensures out.0.Success? ==> recs[a].statements.List? && out.1[a] == Program(List(Flatten(recs[a].statements.items)))
    decreases a + 1, 0
  {
    FieldsBelow(recs, a);
    var statements := recs[a].statements;
    if !statements.List? then (Failure(TypeError), recs)
    else
      var (r, recs') := FlatMapFrom(recs, statements.items, [], a);
      if r.Failure? then (Failure(r.error), recs')
      else
        assert r.value == [] + Flatten(statements.items) == Flatten(statements.items);
        FlattenedProgramBound(statements.items, a);
        (Success(()), SetRecord(recs', a, Program(List(r.value))))
  }

  /** `VariableDeclaration(d)`: both fields reassigned to their optimized forms. */
  function OptimizeVariableDeclaration(recs: seq<Node>, a: nat): (out: (Result<(), Error>, seq<Node>))
    requires WellFormed(recs) && a < |recs| && recs[a].VariableDeclaration?
    ensures WellFormed(out.1) && |out.1| == |recs|
    ensures out.0.Failure? ==> out.0.error == TypeError
    ensures forall b :: 0 <= b < |recs| ==> KindOf(out.1[b]) == KindOf(recs[b])
    ensures forall b :: a <= b < |recs| ==> out.1[b] == recs[b]
    decreases a + 1, 0
  {
    FieldsBelow(recs, a);
    var (r1, recs1) := OptimizeSpec(recs, recs[a].variable);
    if r1.Failure? then (Failure(r1.error), recs1)
    else
      var (r2, recs2) := OptimizeSpec(recs1, recs1[a].initializer);
      if r2.Failure? then (Failure(r2.error), recs2)
      else
        assert recs2[a := VariableDeclaration(r1.value, r2.value)] == recs2;
        (Success(()), recs2[a := VariableDeclaration(r1.value, r2.value)])
  }

  /** `TypeDeclaration(d)`: `optimize(d.type)` returns the type, but throws on an undefined one. */
  function OptimizeTypeDeclaration(recs: seq<Node>, a: nat): (out: (Result<(), Error>, seq<Node>))
    requires WellFormed(recs) && a < |recs| && recs[a].TypeDeclaration?
    ensures out.1 == recs
    ensures out.0.Failure? <==> recs[a].ty.Untyped?
    ensures out.0.Failure? ==> out.0.error == TypeError
  {
    if recs[a].ty.Untyped? then (Failure(TypeError), recs)
    else (Success(()), recs[a := TypeDeclaration(recs[a].ty)])
  }

  /** `FunctionDeclaration(d)`: `d.fun = optimize(d.fun)`, which is a Function and so unchanged. */
  function OptimizeFunctionDeclaration(recs: seq<Node>, a: nat): (out: (Result<(), Error>, seq<Node>))
    requires WellFormed(recs) && a < |recs| && recs[a].FunctionDeclaration?
    ensures WellFormed(out.1) && |out.1| == |recs|
    ensures out.0.Failure? ==> out.0.error == TypeError
    ensures forall b :: 0 <= b < |recs| ==> KindOf(out.1[b]) == KindOf(recs[b])
    ensures forall b :: a <= b < |recs| ==> out.1[b] == recs[b]
    decreases a + 1, 0
  {
    FieldsBelow(recs, a);
    var (r, recs') := OptimizeSpec(recs, recs[a].fun);
    if r.Failure? then (Failure(r.error), recs')
    else
      assert recs'[a := FunctionDeclaration(r.value)] == recs';
      (Success(()), recs'[a := FunctionDeclaration(r.value)])
  }

  /** Writing a record back keeps the heap well formed when the record's fields stay below it. */
  function SetRecord(recs: seq<Node>, a: nat, n: Node): (recs': seq<Node>)
    requires WellFormed(recs) && a < |recs| && KindOf(n) == KindOf(recs[a])
    requires BoundAll(Children(n)) <= a
    requires n.FunctionDeclaration? ==> n.fun == recs[a].fun
    requires !n.Function?
    ensures recs' == recs[a := n] && WellFormed(recs')
  {
    SetRecordWellFormed(recs, a, n);
    recs[a := n]
  }

  lemma SetRecordWellFormed(recs: seq<Node>, a: nat, n: Node)
    requires WellFormed(recs) && a < |recs| && KindOf(n) == KindOf(recs[a])
    requires BoundAll(Children(n)) <= a
    requires n.FunctionDeclaration? ==> n.fun == recs[a].fun
    requires !n.Function?
    ensures WellFormed(recs[a := n])
  {
    var recs' := recs[a := n];
    forall b | 0 <= b < |recs'|
      ensures RecordOrdered(recs', b)
    {
      assert RecordOrdered(recs, b);
      var r := recs'[b];
      if r.FunctionDeclaration? && r.fun.Ref? && r.fun.addr < |recs'| {
        var f := r.fun.addr;
        if f == a {
          assert !recs'[f].Function?;
        } else {
          assert recs'[f] == recs[f];
          if b == a {
            assert r.fun == recs[a].fun;
          }
        }
      }
    }
  }

  /**
   * The `flatMap` loop from the element at index 0 of `items` on, with `acc` the elements
   * produced so far; `a` is the address of the Program, above every element.
   */
  function FlatMapFrom(recs: seq<Node>, items: seq<Value>, acc: seq<Value>, a: nat): (out: (Result<seq<Value>, Error>, seq<Node>))
    requires WellFormed(recs) && a <= |recs| && BoundAll(items) <= a
    ensures WellFormed(out.1) && |out.1| == |recs|
    ensures out.0.Success? ==> out.0.value == acc + Flatten(items)
    ensures out.0.Failure? ==> out.0.error == TypeError
    ensures forall b :: 0 <= b < |recs| ==> KindOf(out.1[b]) == KindOf(recs[b])
    ensures forall b :: a <= b < |recs| ==> out.1[b] == recs[b]
    decreases BoundAll(items), |items| + 1
  {
    if items == [] then (Success(acc), recs)
    else
      BoundAllElement(items, 0);
      var (r, recs') := OptimizeSpec(recs, items[0]);
      if r.Failure? then (Failure(r.error), recs')
      else
        assert acc + Spliced(items[0]) + Flatten(items[1..]) == acc + Flatten(items);
        FlatMapFrom(recs', items[1..], acc + Spliced(r.value), a)
  }

  /** `optimize(node)` on the heap; the heap afterwards is the one `OptimizeSpec` describes. */
  method Optimize(h: Heap, v: Value) returns (r: Result<Value, Error>)
    requires h.Valid() && Bound(v) <= |h.records|
    modifies h
    ensures h.Valid() && (r, h.records) == OptimizeSpec(old(h.records), v)
    decreases Bound(v), 1
  {
    if Nullish(v) {
      return Failure(TypeError);
    }
    if !HasOptimizer(h.records, v) {
      return Success(v);
    }
    var ok: Result<(), Error>;
    if h.records[v.addr].Program? {
      ok := OptimizeProgramRecord(h, v.addr);
    } else if h.records[v.addr].VariableDeclaration? {
      ok := OptimizeVariableDeclarationRecord(h, v.addr);
    } else if h.records[v.addr].TypeDeclaration? {
      ok := OptimizeTypeDeclarationRecord(h, v.addr);
    } else {
      ok := OptimizeFunctionDeclarationRecord(h, v.addr);
    }
    if ok.Success? {
      r := Success(v);
    } else {
      r := Failure(ok.error);
    }
  }

  /** The `flatMap` over `p.statements`, element by element, then the reassignment of the field. */
  method OptimizeProgramRecord(h: Heap, a: nat) returns (ok: Result<(), Error>)
    requires h.Valid() && a < |h.records| && h.records[a].Program?
    modifies h
    ensures h.Valid() && (ok, h.records) == OptimizeProgram(old(h.records), a)
    decreases a + 1, 0
  {
    FieldsBelow(h.records, a);
    var statements := h.records[a].statements;
    if !statements.List? {
      return Failure(TypeError);
    }
    var items := statements.items;
    ghost var recs0 := h.records;
    var acc: seq<Value> := [];
    var i := 0;
    while i < |items|
      invariant 0 <= i <= |items|
      invariant h.Valid() && |h.records| == |recs0| && BoundAll(items[i..]) <= a
      invariant FlatMapFrom(h.records, items[i..], acc, a) == FlatMapFrom(recs0, items, [], a)
      decreases |items| - i
    {
      BoundAllElement(items[i..], 0);
      assert items[i..][1..] == items[i + 1..];
      var r := Optimize(h, items[i]);
      if r.Failure? {
        return Failure(r.error);
      }
      acc := acc + Spliced(r.value);
      i := i + 1;
    }
    assert acc == Flatten(items) by {
      assert [] + Flatten(items) == Flatten(items);
    }
    FlattenedProgramBound(items, a);
    h.records := SetRecord(h.records, a, Program(List(acc)));
    ok := Success(());
  }

  method OptimizeVariableDeclarationRecord(h: Heap, a: nat) returns (ok: Result<(), Error>)
    requires h.Valid() && a < |h.records| && h.records[a].VariableDeclaration?
    modifies h
    ensures h.Valid() && (ok, h.records) == OptimizeVariableDeclaration(old(h.records), a)
    decreases a + 1, 0
  {
    FieldsBelow(h.records, a);
    var r1 := Optimize(h, h.records[a].variable);
    if r1.Failure? {
      return Failure(r1.error);
    }
    var r2 := Optimize(h, h.records[a].initializer);
    if r2.Failure? {
      return Failure(r2.error);
    }
    assert h.records[a := VariableDeclaration(r1.value, r2.value)] == h.records;
    h.records := h.records[a := VariableDeclaration(r1.value, r2.value)];
    ok := Success(());
  }

  method OptimizeTypeDeclarationRecord(h: Heap, a: nat) returns (ok: Result<(), Error>)
    requires h.Valid() && a < |h.records| && h.records[a].TypeDeclaration?
    modifies h
    ensures h.Valid() && (ok, h.records) == OptimizeTypeDeclaration(old(h.records), a)
  {
    if h.records[a].ty.Untyped? {
      return Failure(TypeError);
    }
    assert h.records[a := TypeDeclaration(h.records[a].ty)] == h.records;
    h.records := h.records[a := TypeDeclaration(h.records[a].ty)];
    ok := Success(());
  }

  method OptimizeFunctionDeclarationRecord(h: Heap, a: nat) returns (ok: Result<(), Error>)
    requires h.Valid() && a < |h.records| && h.records[a].FunctionDeclaration?
    modifies h
    ensures h.Valid() && (ok, h.records) == OptimizeFunctionDeclaration(old(h.records), a)
    decreases a + 1, 0
  {
    FieldsBelow(h.records, a);
    var r := Optimize(h, h.records[a].fun);
    if r.Failure? {
      return Failure(r.error);
    }
    assert h.records[a := FunctionDeclaration(r.value)] == h.records;
    h.records := h.records[a := FunctionDeclaration(r.value)];
    ok := Success(());
  }

  /** No element of the sequence is an array. */
  predicate NoListItems(vs: seq<Value>) {
    forall i | 0 <= i < |vs| :: !vs[i].List?
  }

  /** Every Program whose statements are an array has no array among them. */
  predicate NoListStatements(recs: seq<Node>) {
    forall b | 0 <= b < |recs| :: recs[b].Program? && recs[b].statements.List? ==> NoListItems(recs[b].statements.items)
  }

  /** Something with no table entry (a literal, an array, any other kind of record) comes back as itself. */
  lemma PassThrough(recs: seq<Node>, v: Value)
    requires WellFormed(recs) && Bound(v) <= |recs| && !Nullish(v) && !HasOptimizer(recs, v)
    ensures OptimizeSpec(recs, v) == (Success(v), recs)
  {
  }

  /** With no array among a Program's statements, the pass keeps their number and order. */
  lemma ProgramKeepsStatements(recs: seq<Node>, a: nat)
    requires WellFormed(recs) && a < |recs| && recs[a].Program? && recs[a].statements.List?
    requires NoListItems(recs[a].statements.items)
    ensures OptimizeProgram(recs, a).0.Success? ==> OptimizeProgram(recs, a).1[a] == recs[a]
  {
    FlattenWithoutLists(recs[a].statements.items);
  }

  /** On a heap whose Program statements hold no arrays, the pass leaves every record as it was. */
  lemma {:induction false} SpecFixpoint(recs: seq<Node>, v: Value)
    requires WellFormed(recs) && Bound(v) <= |recs| && NoListStatements(recs)
    ensures OptimizeSpec(recs, v).1 == recs
    decreases Bound(v), 1
  {
    if !Nullish(v) && HasOptimizer(recs, v) {
      var a := v.addr;
      if recs[a].Program? {
        ProgramFixpoint(recs, a);
      } else if recs[a].VariableDeclaration? {
        VariableDeclarationFixpoint(recs, a);
      } else if recs[a].FunctionDeclaration? {
        FunctionDeclarationFixpoint(recs, a);
      }
    }
  }

  lemma {:induction false} ProgramFixpoint(recs: seq<Node>, a: nat)
    requires WellFormed(recs) && a < |recs| && recs[a].Program? && NoListStatements(recs)
    ensures OptimizeProgram(recs, a).1 == recs
    decreases a + 1, 0
  {
    FieldsBelow(recs, a);
    var statements := recs[a].statements;
    if statements.List? {
      FlatMapFixpoint(recs, statements.items, [], a);
      FlattenWithoutLists(statements.items);
      assert recs[a := Program(List(statements.items))] == recs;
    }
  }

  lemma {:induction false} FlatMapFixpoint(recs: seq<Node>, items: seq<Value>, acc: seq<Value>, a: nat)
    requires WellFormed(recs) && a <= |recs| && BoundAll(items) <= a && NoListStatements(recs)
    ensures FlatMapFrom(recs, items, acc, a).1 == recs
    decreases BoundAll(items), |items| + 1
  {
    if items != [] {
      BoundAllElement(items, 0);
      SpecFixpoint(recs, items[0]);
      var (r, recs') := OptimizeSpec(recs, items[0]);
      if r.Success? {
        FlatMapFixpoint(recs, items[1..], acc + Spliced(r.value), a);
      }
    }
  }

  lemma {:induction false} VariableDeclarationFixpoint(recs: seq<Node>, a: nat)
    requires WellFormed(recs) && a < |recs| && recs[a].VariableDeclaration? && NoListStatements(recs)
    ensures OptimizeVariableDeclaration(recs, a).1 == recs
    decreases a + 1, 0
  {
    FieldsBelow(recs, a);
    SpecFixpoint(recs, recs[a].variable);
    SpecFixpoint(recs, recs[a].initializer);
  }

  lemma {:induction false} FunctionDeclarationFixpoint(recs: seq<Node>, a: nat)
    requires WellFormed(recs) && a < |recs| && recs[a].FunctionDeclaration? && NoListStatements(recs)
    ensures OptimizeFunctionDeclaration(recs, a).1 == recs
    decreases a + 1, 0
  {
    FieldsBelow(recs, a);
    SpecFixpoint(recs, recs[a].fun);
  }

  /** Running the pass a second time changes nothing and gives the same result, on such heaps. */
  lemma Idempotent(recs: seq<Node>, v: Value)
    requires WellFormed(recs) && Bound(v) <= |recs| && NoListStatements(recs)
    ensures OptimizeSpec(recs, v).1 == recs
    ensures OptimizeSpec(OptimizeSpec(recs, v).1, v) == OptimizeSpec(recs, v)
  {
    SpecFixpoint(recs, v);
  }

  /**
   * Whenever the first run leaves no array statement behind, as after splicing arrays of plain
   * statements, a second run leaves the heap as the first one left it.
   */
  lemma SettlesAfterFlatRun(recs: seq<Node>, v: Value)
    requires WellFormed(recs) && Bound(v) <= |recs| && NoListStatements(OptimizeSpec(recs, v).1)
    ensures OptimizeSpec(OptimizeSpec(recs, v).1, v).1 == OptimizeSpec(recs, v).1
  {
    SpecFixpoint(OptimizeSpec(recs, v).1, v);
  }

  /** A Program at address 4, after the four records of the standard library. */
  function ProgramHeap(statement: Value): (recs: seq<Node>)
    requires Bound(statement) == 0
    ensures WellFormed(recs) && |recs| == 5 && recs[4] == Program(List([statement]))
  {
    var n := Program(List([statement]));
    CoreRecordsWellFormed();
    assert BoundAll([statement]) == 0;
    assert RecordOrdered(CoreRecords() + [n], 4);
    WellFormedExtend(CoreRecords(), n);
    CoreRecords() + [n]
  }

  /** The `flatMap` over a single array statement splices in that array's elements. */
  lemma SingleArrayStatement(recs: seq<Node>, xs: seq<Value>)
    requires WellFormed(recs) && 4 < |recs| && recs[4] == Program(List([List(xs)])) && BoundAll(xs) == 0
    ensures OptimizeSpec(recs, Ref(4)).0.Success?
    ensures OptimizeSpec(recs, Ref(4)).1 == recs[4 := Program(List(xs))]
  {
    assert BoundAll([List(xs)]) == 0;
    PassThrough(recs, List(xs));
    assert [List(xs)][1..] == [] && [] + Spliced(List(xs)) == xs;
    assert FlatMapFrom(recs, [], xs, 4) == (Success(xs), recs);
    assert FlatMapFrom(recs, [List(xs)], [], 4) == (Success(xs), recs);
    assert OptimizeProgram(recs, 4) == (Success(()), recs[4 := Program(List(xs))]);
  }

  /** A statement that is an array of arrays is flattened one level per run, so a second run differs. */
  lemma NestedArrayNotIdempotent()
    ensures var recs := ProgramHeap(List([List([Lit(NumberLit("1"))])]));
            var first := OptimizeSpec(recs, Ref(4));
            first.0.Success? && OptimizeSpec(first.1, Ref(4)).1 != first.1
  {
    var one := Lit(NumberLit("1"));
    assert BoundAll([one]) == 0;
    assert BoundAll([List([one])]) == 0;
    var recs := ProgramHeap(List([List([one])]));
    SingleArrayStatement(recs, [List([one])]);
    var first := OptimizeSpec(recs, Ref(4));
    assert first.1[4] == Program(List([List([one])]));
    SingleArrayStatement(first.1, [one]);
    assert OptimizeSpec(first.1, Ref(4)).1[4] == Program(List([one]));
  }

  /** An array statement holding undefined is spliced in, and the second run then fails on it. */
  lemma SplicedUndefinedFailsSecondRun()
    ensures var recs := ProgramHeap(List([Undefined]));
            var first := OptimizeSpec(recs, Ref(4));
            first.0.Success? && OptimizeSpec(first.1, Ref(4)).0 == Failure(TypeError)
  {
    assert BoundAll([Undefined]) == 0;
    var recs := ProgramHeap(List([Undefined]));
    SingleArrayStatement(recs, [Undefined]);
    var first := OptimizeSpec(recs, Ref(4));
    assert first.1[4] == Program(List([Undefined]));
    assert FlatMapFrom(first.1, [Undefined], [], 4).0 == Failure(TypeError);
  }
}
