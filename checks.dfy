/**
 * The analyzer's `must` gate and the checks built on it (src/analyzer.js:54-273). A check passes
 * or fails with the message the source throws; the source position prefix that `must` adds is
 * not modelled. A check whose argument expressions throw before `must` is reached fails with
 * TypeError instead.
 */
module Checks {
  import opened Wrappers
  import opened Types
  import opened TypeRules
  import opened Ir
  import opened Scope
  import Strings

  datatype Outcome = Pass | Fail(error: Error)

  /** `must(condition, message)`. */
  function Must(condition: bool, message: string): (o: Outcome)
    ensures o.Pass? <==> condition
    ensures o.Fail? ==> o.error == SemanticError(message)
  {
    if condition then Pass else Fail(SemanticError(message))
  }

  /** The value `context.lookup(name)` returns, undefined when nothing is found. */
  function LookupValue(ctx: Context, name: string): Value
    requires ctx.Valid()
    reads ctx.chain
  {
    match ctx.Lookup(name)
    case Some(v) => v
    case None => Undefined
  }

  // ---------------------------------------------------------------------------------------------
  // declarations

  /** `mustNotAlreadyBeDeclared`: rejects a name bound (to a truthy entity) anywhere on the chain. */
  function MustNotAlreadyBeDeclared(ctx: Context, name: string): (o: Outcome)
    requires ctx.Valid()
    reads ctx.chain
    ensures o.Fail? <==> exists c :: c in ctx.chain && name in c.locals && Truthy(c.locals[name])
    ensures o.Fail? ==> o.error == SemanticError("Identifier " + name + " already declared")
  {
    Must(!Truthy(LookupValue(ctx, name)), "Identifier " + name + " already declared")
  }

  /** `mustHaveBeenFound(entity, name)`. */
  function MustHaveBeenFound(entity: Value, name: string): (o: Outcome)
    ensures o.Pass? <==> Truthy(entity)
    ensures o.Fail? ==> o.error == SemanticError("Identifier " + name + " not declared")
  {
    Must(Truthy(entity), "Identifier " + name + " not declared")
  }

  /** A looked-up name is found exactly when redeclaring it would be rejected. */
  lemma FoundIffAlreadyDeclared(ctx: Context, name: string)
    requires ctx.Valid()
    ensures MustHaveBeenFound(LookupValue(ctx, name), name).Pass? <==> MustNotAlreadyBeDeclared(ctx, name).Fail?
    ensures MustHaveBeenFound(LookupValue(ctx, name), name).Pass? <==> ctx.Lookup(name).Some?
  {
  }

  /** A name declared in an enclosing scope cannot be declared again in a nested one. */
  lemma ShadowingRejected(ctx: Context, name: string)
    requires ctx.Valid() && ctx.parent != null && ctx.parent.Lookup(name).Some?
    ensures MustNotAlreadyBeDeclared(ctx, name).Fail?
  {
  }

  // ---------------------------------------------------------------------------------------------
  // types of expressions

  predicate IsNumeric(t: Type) {
    t == Prim(IntType) || t == Prim(FloatType)
  }

  predicate IsNumericOrString(t: Type) {
    IsNumeric(t) || t == Prim(StringType)
  }

  /** A check on `e.type`. Reading the type of null or undefined throws, so those fail with TypeError. */
  function CheckType(recs: seq<Node>, e: Value, ok: bool, message: string): (o: Outcome)
    requires Bound(e) <= |recs|
    ensures o.Pass? <==> !Nullish(e) && ok
    ensures o.Fail? ==> o.error == (if Nullish(e) then TypeError else SemanticError(message))
  {
    if Nullish(e) then Fail(TypeError) else Must(ok, message)
  }

  function MustHaveNumericType(recs: seq<Node>, e: Value): (o: Outcome)
    requires Bound(e) <= |recs|
    ensures o.Pass? <==> !Nullish(e) && TypeOf(recs, e).value in {Prim(IntType), Prim(FloatType)}
  {
    CheckType(recs, e, !Nullish(e) && IsNumeric(TypeOf(recs, e).value), "Expected a number")
  }

  function MustHaveNumericOrStringType(recs: seq<Node>, e: Value): (o: Outcome)
    requires Bound(e) <= |recs|
    ensures o.Pass? <==> !Nullish(e) && TypeOf(recs, e).value in {Prim(IntType), Prim(FloatType), Prim(StringType)}
  {
    CheckType(recs, e, !Nullish(e) && IsNumericOrString(TypeOf(recs, e).value), "Expected a number or string")
  }

  function MustHaveBooleanType(recs: seq<Node>, e: Value): (o: Outcome)
    requires Bound(e) <= |recs|
    ensures o.Pass? <==> !Nullish(e) && TypeOf(recs, e).value == Prim(BooleanType)
  {
    CheckType(recs, e, !Nullish(e) && (TypeOf(recs, e).value == Prim(BooleanType)), "Expected a boolean")
  }

  function MustHaveIntegerType(recs: seq<Node>, e: Value): (o: Outcome)
    requires Bound(e) <= |recs|
    ensures o.Pass? <==> !Nullish(e) && TypeOf(recs, e).value == Prim(IntType)
  {
    CheckType(recs, e, !Nullish(e) && (TypeOf(recs, e).value == Prim(IntType)), "Expected an integer")
  }

  function MustHaveAnArrayType(recs: seq<Node>, e: Value): (o: Outcome)
    requires Bound(e) <= |recs|
    ensures o.Pass? <==> !Nullish(e) && TypeOf(recs, e).value.ArrayType?
  {
    CheckType(recs, e, !Nullish(e) && (TypeOf(recs, e).value.ArrayType?), "Expected an array")
  }

  function MustHaveAnOptionalType(recs: seq<Node>, e: Value): (o: Outcome)
    requires Bound(e) <= |recs|
    ensures o.Pass? <==> !Nullish(e) && TypeOf(recs, e).value.OptionalType?
  {
    CheckType(recs, e, !Nullish(e) && (TypeOf(recs, e).value.OptionalType?), "Expected an optional")
  }

  function MustHaveAStructType(recs: seq<Node>, e: Value): (o: Outcome)
    requires Bound(e) <= |recs|
    ensures o.Pass? <==> !Nullish(e) && TypeOf(recs, e).value.StructType?
  {
    CheckType(recs, e, !Nullish(e) && (TypeOf(recs, e).value.StructType?), "Expected a struct")
  }

  /** Used for `e?.x`: e must have an optional struct type. */
  function MustHaveAnOptionalStructType(recs: seq<Node>, e: Value): (o: Outcome)
    requires Bound(e) <= |recs|
    ensures o.Pass? <==> !Nullish(e) && TypeOf(recs, e).value.OptionalType? && TypeOf(recs, e).value.baseType.StructType?
  {
    CheckType(recs, e, !Nullish(e) && (TypeOf(recs, e).value.OptionalType? && TypeOf(recs, e).value.baseType.StructType?), "Expected an optional struct")
  }

  function MustBothHaveTheSameType(recs: seq<Node>, e1: Value, e2: Value): (o: Outcome)
    requires Bound(e1) <= |recs| && Bound(e2) <= |recs|
    ensures o.Pass? <==> !Nullish(e1) && !Nullish(e2) && Equivalent(TypeOf(recs, e1).value, TypeOf(recs, e2).value)
    ensures o.Fail? && !Nullish(e1) && !Nullish(e2) ==> o.error == SemanticError("Operands do not have the same type")
  {
    if Nullish(e1) || Nullish(e2) then Fail(TypeError)
    else Must(Equivalent(TypeOf(recs, e1).value, TypeOf(recs, e2).value), "Operands do not have the same type")
  }

  /** `mustAllHaveSameType`: every expression after the first is equivalent in type to the first. */
  function MustAllHaveSameType(recs: seq<Node>, es: seq<Value>): (o: Outcome)
    requires forall i :: 0 <= i < |es| ==> Bound(es[i]) <= |recs|
  {
    if |es| <= 1 then Pass else SameTypeAsFirst(recs, es, 1)
  }

  /** The `every` loop over `expressions.slice(1)`, stopping at the first mismatch. */
  function SameTypeAsFirst(recs: seq<Node>, es: seq<Value>, i: nat): (o: Outcome)
    requires 1 <= i <= |es|
    requires forall k :: 0 <= k < |es| ==> Bound(es[k]) <= |recs|
    decreases |es| - i
  {
    if i == |es| then Pass
    else if Nullish(es[i]) || Nullish(es[0]) then Fail(TypeError)
    else if !Equivalent(TypeOf(recs, es[i]).value, TypeOf(recs, es[0]).value) then
      Fail(SemanticError("Not all elements have the same type"))
    else SameTypeAsFirst(recs, es, i + 1)
  }

  /** The check passes exactly when no expression is null or undefined and all types agree with the first. */
  lemma {:induction false} SameTypeAsFirstPasses(recs: seq<Node>, es: seq<Value>, i: nat)
    requires 1 <= i <= |es|
    requires forall k :: 0 <= k < |es| ==> Bound(es[k]) <= |recs|
    ensures SameTypeAsFirst(recs, es, i).Pass? <==>
              i == |es| ||
              (!Nullish(es[0]) &&
               forall k :: i <= k < |es| ==> !Nullish(es[k]) && Equivalent(TypeOf(recs, es[k]).value, TypeOf(recs, es[0]).value))
    decreases |es| - i
  {
    if i < |es| {
      SameTypeAsFirstPasses(recs, es, i + 1);
    }
  }

  lemma MustAllHaveSameTypePasses(recs: seq<Node>, es: seq<Value>)
    requires forall k :: 0 <= k < |es| ==> Bound(es[k]) <= |recs|
    ensures MustAllHaveSameType(recs, es).Pass? <==>
              |es| <= 1 ||
              ((forall k :: 0 <= k < |es| ==> !Nullish(es[k])) &&
               (forall k :: 1 <= k < |es| ==> Equivalent(TypeOf(recs, es[k]).value, TypeOf(recs, es[0]).value)))
  {
    if |es| > 1 {
      SameTypeAsFirstPasses(recs, es, 1);
    }
  }

  // ---------------------------------------------------------------------------------------------
  // types as values

  predicate OccursAt(s: string, w: string, i: int) {
    0 <= i && i + |w| <= |s| && s[i..i + |w|] == w
  }

  predicate Contains(s: string, w: string) {
    exists i | 0 <= i <= |s| :: OccursAt(s, w, i)
  }

  /** The words the basic-type pattern of `mustBeAType` searches for, anywhere in its argument. */
  const BasicTypeWords: seq<string> := ["int", "float", "string", "bool", "void", "any"]

  /**
   * `mustBeAType(e)` as written: a primitive passes when its name merely contains one of the words
   * (the pattern is unanchored), a composite type passes by its kind, a missing type fails.
   */
  function MustBeAType(t: Type): (o: Outcome)
    ensures o == Pass <==> (t.Prim? && exists w :: w in BasicTypeWords && Contains(t.name, w)) || (!t.Untyped? && !t.Prim?)
    ensures o.Fail? ==> o.error == SemanticError("Type expected")
  {
    var isBasicType := t.Prim? && exists w :: w in BasicTypeWords && Contains(t.name, w);
    var isCompositeType := t.StructType? || t.FunctionType? || t.ArrayType? || t.OptionalType?;
    Must(isBasicType || isCompositeType, "Type expected")
  }

  /** The unanchored pattern lets names through that are not types: "print" contains "int". */
  lemma MustBeATypeAcceptsPrint()
    ensures MustBeAType(Prim("print")).Pass?
    ensures "print" !in PrimitiveNames
  {
    assert OccursAt("print", "int", 2);
    assert "int" in BasicTypeWords && Contains("print", "int");
  }

  /** The evidently intended check: a primitive must be one of the six primitive names. */
  function MustBeATypeExact(t: Type): (o: Outcome)
    ensures o == Pass <==> (t.Prim? && t.name in PrimitiveNames) || (!t.Untyped? && !t.Prim?)
    ensures o.Fail? ==> o.error == SemanticError("Type expected")
  {
    Must((t.Prim? && t.name in PrimitiveNames) || t.StructType? || t.FunctionType? || t.ArrayType? || t.OptionalType?,
         "Type expected")
  }

  /** The exact check rejects "print" and accepts every type the loose one accepts for a real name. */
  lemma MustBeATypeExactRefines(t: Type)
    ensures MustBeATypeExact(Prim("print")).Fail?
    ensures MustBeATypeExact(t).Pass? ==> MustBeAType(t).Pass?
  {
    if t.Prim? && t.name in PrimitiveNames {
      var w := if t.name == BooleanType then "bool" else t.name;
      assert w in BasicTypeWords;
      assert OccursAt(t.name, w, 0);
    }
  }

  function MustBeAnArrayType(t: Type): (o: Outcome)
    ensures o.Pass? <==> t.ArrayType?
    ensures o.Fail? ==> o.error == SemanticError("Must be an array type")
  {
    Must(t.ArrayType?, "Must be an array type")
  }

  /** `mustNotBeSelfContaining`: rejects a struct some of whose reachable fields have the struct itself as type. */
  function MustNotBeSelfContaining(s: Type): (o: Outcome)
    requires s.StructType?
    ensures o.Fail? <==> exists u :: u in ReachableFieldTypes(s) && Identical(u, s)
    ensures o.Fail? ==> o.error == SemanticError("Struct type must not be self-containing")
  {
    IncludesAsFieldReachable(s, s);
    Must(!IncludesAsField(s, s), "Struct type must not be self-containing")
  }

  // ---------------------------------------------------------------------------------------------
  // assignment

  /** The message of a failed assignment check. */
  function AssignMessage(source: string, target: string): string {
    "Cannot assign a " + source + " to a " + target
  }

  /**
   * `mustBeAssignable(e, {toType})`. Both descriptions are computed first, so a type that cannot
   * be described throws even when the assignment would be allowed.
   */
  function MustBeAssignable(recs: seq<Node>, e: Value, toType: Type): (o: Outcome)
    requires Bound(e) <= |recs|
    ensures o.Pass? <==> !Nullish(e) && !HasUntyped(TypeOf(recs, e).value) && !HasUntyped(toType)
                         && Assignable(TypeOf(recs, e).value, toType)
    ensures o.Fail? && o.error.SemanticError? ==>
              TypeOf(recs, e).Some? && TypeDescription(TypeOf(recs, e).value).Some? && TypeDescription(toType).Some? &&
              o.error.message == AssignMessage(TypeDescription(TypeOf(recs, e).value).value, TypeDescription(toType).value)
  {
    match TypeOf(recs, e)
    case None => Fail(TypeError)
    case Some(t) =>
      TypeDescriptionDefined(t);
      TypeDescriptionDefined(toType);
      var source := TypeDescription(t);
      var target := TypeDescription(toType);
      if source.None? || target.None? then Fail(TypeError)
      else Must(Assignable(t, toType), AssignMessage(source.value, target.value))
  }

  /** Assigning to `any` fails only when a type cannot be described. */
  lemma AssignToAnyPasses(recs: seq<Node>, e: Value)
    requires Bound(e) <= |recs| && !Nullish(e) && !HasUntyped(TypeOf(recs, e).value)
    ensures MustBeAssignable(recs, e, Prim(AnyType)).Pass?
  {
  }

  /** Assigning an int literal to a string reports both primitive names. */
  lemma AssignMessageExample(recs: seq<Node>)
    ensures MustBeAssignable(recs, Lit(BigIntLit(1)), Prim(StringType)) == Fail(SemanticError("Cannot assign a int to a string"))
  {
  }

  // ---------------------------------------------------------------------------------------------
  // mutability

  /** `isMutable(e)`: a mutable Variable, or a subscript or member access whose base is mutable. */
  predicate IsMutable(recs: seq<Node>, e: Value)
    requires WellFormed(recs) && Bound(e) <= |recs|
    decreases Bound(e)
  {
    e.Ref? &&
    match recs[e.addr]
    case Variable(_, mutable, _) => mutable
    case SubscriptExpression(a, _, _) => (FirstChildBelow(recs, e.addr); IsMutable(recs, a))
    case MemberExpression(o, _, _, _) => (FirstChildBelow(recs, e.addr); IsMutable(recs, o))
    case _ => false
  }

  /** The value an access path starts from: strip subscripts and member accesses. */
  function AccessBase(recs: seq<Node>, e: Value): (b: Value)
    requires WellFormed(recs) && Bound(e) <= |recs|
    ensures Bound(b) <= |recs|
    ensures b.Ref? ==> !recs[b.addr].SubscriptExpression? && !recs[b.addr].MemberExpression?
    decreases Bound(e)
  {
    if e.Ref? && recs[e.addr].SubscriptExpression? then
      FirstChildBelow(recs, e.addr); AccessBase(recs, recs[e.addr].indexed)
    else if e.Ref? && recs[e.addr].MemberExpression? then
      FirstChildBelow(recs, e.addr); AccessBase(recs, recs[e.addr].receiver)
    else e
  }

  /** An expression is mutable exactly when its access path starts at a mutable variable. */
  lemma {:induction false} IsMutableIffMutableBase(recs: seq<Node>, e: Value)
    requires WellFormed(recs) && Bound(e) <= |recs|
    ensures IsMutable(recs, e) <==>
              AccessBase(recs, e).Ref? && recs[AccessBase(recs, e).addr].Variable? && recs[AccessBase(recs, e).addr].mutable
    decreases Bound(e)
  {
    if e.Ref? && recs[e.addr].SubscriptExpression? {
      FirstChildBelow(recs, e.addr);
      IsMutableIffMutableBase(recs, recs[e.addr].indexed);
    } else if e.Ref? && recs[e.addr].MemberExpression? {
      FirstChildBelow(recs, e.addr);
      IsMutableIffMutableBase(recs, recs[e.addr].receiver);
    }
  }

  /**
   * `mustBeMutable(e)`. The message reads `e.name` before the check, so a null or undefined
   * target throws; a target without a name is reported as "undefined".
   */
  function MustBeMutable(recs: seq<Node>, e: Value): (o: Outcome)
    requires WellFormed(recs) && Bound(e) <= |recs|
    ensures o.Pass? <==> IsMutable(recs, e)
    ensures o.Fail? && e.Ref? && recs[e.addr].Variable? ==>
              o.error == SemanticError("Cannot assign to immutable " + recs[e.addr].name)
  {
    match NameOf(recs, e)
    case None => Fail(TypeError)
    case Some(name) => Must(IsMutable(recs, e), "Cannot assign to immutable " + ShowName(name))
  }

  /** A name inside a message: a string as itself, anything else by its JavaScript rendering. */
  function ShowName(v: Value): string {
    match v
    case Lit(StringLit(s)) => s
    case Undefined => "undefined"
    case Null => "null"
    case _ => "[object Object]"
  }

  // ---------------------------------------------------------------------------------------------
  // structs

  function FieldNames(fields: seq<Field>): (names: seq<string>)
    ensures |names| == |fields|
    ensures forall i :: 0 <= i < |fields| ==> names[i] == fields[i].name
  {
    if fields == [] then [] else [fields[0].name] + FieldNames(fields[1..])
  }

  /** `mustHaveDistinctFields(type)`: the set of field names is as large as the field list. */
  function MustHaveDistinctFields(s: Type): (o: Outcome)
    requires s.StructType?
    ensures o.Pass? <==> forall i, j :: 0 <= i < j < |s.fields| ==> s.fields[i].name != s.fields[j].name
    ensures o.Fail? ==> o.error == SemanticError("Fields must be distinct")
  {
    DistinctIffSetSize(FieldNames(s.fields));
    Must(|set n | n in FieldNames(s.fields)| == |s.fields|, "Fields must be distinct")
  }

  lemma {:induction false} SetSizeAtMost(xs: seq<string>)
    ensures |set x | x in xs| <= |xs|
  {
    if xs != [] {
      SetSizeAtMost(xs[1..]);
      assert (set x | x in xs) == {xs[0]} + (set x | x in xs[1..]);
    }
  }

  /** A list has no repeated element exactly when its set of elements is as large as the list. */
  lemma {:induction false} DistinctIffSetSize(xs: seq<string>)
    ensures |set x | x in xs| == |xs| <==> forall i, j :: 0 <= i < j < |xs| ==> xs[i] != xs[j]
  {
    if xs != [] {
      var rest := set x | x in xs[1..];
      assert (set x | x in xs) == {xs[0]} + rest;
      DistinctIffSetSize(xs[1..]);
      SetSizeAtMost(xs[1..]);
      DistinctCons(xs);
    }
  }

  /** A sequence has no repeats iff its head does not occur in its tail and its tail has none. */
  lemma DistinctCons(xs: seq<string>)
    requires xs != []
    ensures (forall i, j :: 0 <= i < j < |xs| ==> xs[i] != xs[j])
            <==> xs[0] !in xs[1..] && forall i, j :: 0 <= i < j < |xs[1..]| ==> xs[1..][i] != xs[1..][j]
  {
  }

  function MustHaveMember(s: Type, field: string): (o: Outcome)
    requires s.StructType?
    ensures o.Pass? <==> exists i :: 0 <= i < |s.fields| && s.fields[i].name == field
    ensures o.Fail? ==> o.error == SemanticError("No such field")
  {
    Must(field in FieldNames(s.fields), "No such field")
  }

  // ---------------------------------------------------------------------------------------------
  // statements and calls

  function MustBeInLoop(ctx: Context): (o: Outcome)
    ensures o.Pass? <==> ctx.inLoop
    ensures o.Fail? ==> o.error == SemanticError("Break can only appear in a loop")
  {
    Must(ctx.inLoop, "Break can only appear in a loop")
  }

  function MustBeInAFunction(ctx: Context): (o: Outcome)
    ensures o.Pass? <==> Truthy(ctx.currentFunction)
    ensures o.Fail? ==> o.error == SemanticError("Return can only appear in a function")
  {
    Must(Truthy(ctx.currentFunction), "Return can only appear in a function")
  }

  /** Break is rejected at the top level and accepted in any scope entered for a loop. */
  lemma LoopScopes(root: Context, body: Context)
    requires root.Valid() && root.parent == null && !root.inLoop
    requires body.Valid() && body.parent == root && body.inLoop
    ensures MustBeInLoop(root).Fail? && MustBeInLoop(body).Pass?
  {
  }

  /**
   * `mustBeCallable(e)`: an IR value is callable when its type is a function type (no IR value
   * has kind "StructType").
   */
  function MustBeCallable(recs: seq<Node>, e: Value): (o: Outcome)
    requires Bound(e) <= |recs|
    ensures o.Pass? <==> !Nullish(e) && TypeOf(recs, e).value.FunctionType?
  {
    CheckType(recs, e, !Nullish(e) && (TypeOf(recs, e).value.FunctionType?), "Call of non-function or non-constructor")
  }

  /** The standard library's print functions are typed "void", so none of them passes the call check. */
  lemma PrintIsNotCallable(recs: seq<Node>)
    requires |recs| >= |CoreRecords()| && recs[..|CoreRecords()|] == CoreRecords()
    ensures MustBeCallable(recs, Ref(PrintAddr)) == Fail(SemanticError("Call of non-function or non-constructor"))
    ensures MustBeCallable(recs, Ref(PAddr)).Fail? && MustBeCallable(recs, Ref(PlAddr)).Fail?
  {
    assert recs[PrintAddr] == CoreRecords()[PrintAddr];
    assert recs[PAddr] == CoreRecords()[PAddr];
    assert recs[PlAddr] == CoreRecords()[PlAddr];
  }

  /** `f.type.returnType`; None when it throws. A type without a return type gives Untyped. */
  function ReturnTypeOf(recs: seq<Node>, f: Value): (r: Option<Type>)
    requires Bound(f) <= |recs|
    ensures r.Some? <==> !Nullish(f) && !TypeOf(recs, f).value.Untyped?
    ensures r.Some? && TypeOf(recs, f).value.FunctionType? ==> r.value == TypeOf(recs, f).value.returnType
  {
    match TypeOf(recs, f)
    case None => None
    case Some(Untyped) => None
    case Some(FunctionType(_, r)) => Some(r)
    case Some(_) => Some(Untyped)
  }

  function MustNotReturnAnything(recs: seq<Node>, f: Value): (o: Outcome)
    requires Bound(f) <= |recs|
    ensures o.Pass? <==> ReturnTypeOf(recs, f) == Some(Prim(VoidType))
    ensures o.Fail? && ReturnTypeOf(recs, f).Some? ==> o.error == SemanticError("Something should be returned")
  {
    match ReturnTypeOf(recs, f)
    case None => Fail(TypeError)
    case Some(r) => Must(r == Prim(VoidType), "Something should be returned")
  }

  function MustReturnSomething(recs: seq<Node>, f: Value): (o: Outcome)
    requires Bound(f) <= |recs|
    ensures o.Pass? <==> ReturnTypeOf(recs, f).Some? && ReturnTypeOf(recs, f) != Some(Prim(VoidType))
    ensures o.Fail? && ReturnTypeOf(recs, f).Some? ==> o.error == SemanticError("Cannot return a value from this function")
  {
    match ReturnTypeOf(recs, f)
    case None => Fail(TypeError)
    case Some(r) => Must(r != Prim(VoidType), "Cannot return a value from this function")
  }

  /** For a function whose return type can be read, exactly one of the two return checks passes. */
  lemma ReturnChecksComplementary(recs: seq<Node>, f: Value)
    requires Bound(f) <= |recs| && ReturnTypeOf(recs, f).Some?
    ensures MustNotReturnAnything(recs, f).Pass? != MustReturnSomething(recs, f).Pass?
  {
  }

  /** `mustBeReturnable(e, {from: f})`: e must be assignable to f's return type. */
  function MustBeReturnable(recs: seq<Node>, e: Value, f: Value): (o: Outcome)
    requires Bound(e) <= |recs| && Bound(f) <= |recs|
    ensures o.Pass? <==> ReturnTypeOf(recs, f).Some? && MustBeAssignable(recs, e, ReturnTypeOf(recs, f).value).Pass?
  {
    match ReturnTypeOf(recs, f)
    case None => Fail(TypeError)
    case Some(r) => MustBeAssignable(recs, e, r)
  }

  /** `mustHaveCorrectArgumentCount(argCount, paramCount)`. */
  function MustHaveCorrectArgumentCount(argCount: nat, paramCount: nat): (o: Outcome)
    ensures o.Pass? <==> argCount == paramCount
    ensures o.Fail? ==> o.error == SemanticError(Strings.NatToString(paramCount) + " argument(s) required but "
                                                 + Strings.NatToString(argCount) + " passed")
  {
    Must(argCount == paramCount,
         Strings.NatToString(paramCount) + " argument(s) required but " + Strings.NatToString(argCount) + " passed")
  }
}
