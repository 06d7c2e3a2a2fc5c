/**
 * The analyzer's type relations (src/analyzer.js:146-211): identity, structural equivalence,
 * assignability with function variance, self-containment of structs and the textual rendering
 * of types used in diagnostics.
 */
module TypeRules {
  import opened Types
  import opened Wrappers
  import Strings

  /**
   * JavaScript `===` on type values: primitive names compare by value, struct types by identity.
   * Other composite types are modelled as values, so two equal ones count as the same object;
   * `Equivalent` is unaffected by this because it compares them structurally anyway.
   */
  predicate Identical(t1: Type, t2: Type) {
    if t1.StructType? && t2.StructType? then t1.id == t2.id else t1 == t2
  }

  /** `equivalent(t1, t2)`. */
  predicate Equivalent(t1: Type, t2: Type)
    decreases t1
  {
    || Identical(t1, t2)
    || (t1.OptionalType? && t2.OptionalType? && Equivalent(t1.baseType, t2.baseType))
    || (t1.ArrayType? && t2.ArrayType? && Equivalent(t1.baseType, t2.baseType))
    || (t1.FunctionType? && t2.FunctionType?
        && Equivalent(t1.returnType, t2.returnType)
        && |t1.paramTypes| == |t2.paramTypes|
        && forall i :: 0 <= i < |t1.paramTypes| ==> Equivalent(t1.paramTypes[i], t2.paramTypes[i]))
  }

  /** `assignable(fromType, toType)`: covariant in return types, contravariant in parameter types. */
  predicate Assignable(from: Type, to: Type)
    decreases Size(from) + Size(to)
  {
    || to == Prim(AnyType)
    || Equivalent(from, to)
    || (from.FunctionType? && to.FunctionType?
        && Assignable(from.returnType, to.returnType)
        && |from.paramTypes| == |to.paramTypes|
        && forall i :: 0 <= i < |to.paramTypes| ==>
             (SizeAllBounds(to.paramTypes, i); SizeAllBounds(from.paramTypes, i);
              Assignable(to.paramTypes[i], from.paramTypes[i])))
  }

  // ---------------------------------------------------------------------------------------------
  // equivalent is an equivalence relation

  lemma EquivalentReflexive(t: Type)
    ensures Equivalent(t, t)
  {
  }

  lemma {:induction false} EquivalentSymmetric(t1: Type, t2: Type)
    requires Equivalent(t1, t2)
    ensures Equivalent(t2, t1)
    decreases t1
  {
    if Identical(t1, t2) {
    } else if t1.OptionalType? && t2.OptionalType? && Equivalent(t1.baseType, t2.baseType) {
      EquivalentSymmetric(t1.baseType, t2.baseType);
    } else if t1.ArrayType? && t2.ArrayType? && Equivalent(t1.baseType, t2.baseType) {
      EquivalentSymmetric(t1.baseType, t2.baseType);
    } else {
      EquivalentSymmetric(t1.returnType, t2.returnType);
      forall i | 0 <= i < |t2.paramTypes|
        ensures Equivalent(t2.paramTypes[i], t1.paramTypes[i])
      {
        EquivalentSymmetric(t1.paramTypes[i], t2.paramTypes[i]);
      }
    }
  }

  lemma {:induction false} EquivalentTransitive(t1: Type, t2: Type, t3: Type)
    requires Equivalent(t1, t2) && Equivalent(t2, t3)
    ensures Equivalent(t1, t3)
    decreases t1
  {
    if Identical(t1, t2) {
      if !t1.StructType? {
        assert t1 == t2;
      } else if !Identical(t2, t3) {
        // t2 is a struct type, and a struct type is equivalent only to an identical one
        assert false;
      }
    } else if Identical(t2, t3) {
      if !t2.StructType? {
        assert t2 == t3;
      } else {
        assert false;
      }
    } else if t1.OptionalType? || t1.ArrayType? {
      EquivalentTransitive(t1.baseType, t2.baseType, t3.baseType);
    } else {
      EquivalentTransitive(t1.returnType, t2.returnType, t3.returnType);
      forall i | 0 <= i < |t1.paramTypes|
        ensures Equivalent(t1.paramTypes[i], t3.paramTypes[i])
      {
        EquivalentTransitive(t1.paramTypes[i], t2.paramTypes[i], t3.paramTypes[i]);
      }
    }
  }

  /** A primitive type is equivalent exactly to itself. */
  lemma EquivalentToPrimitive(n: string, t: Type)
    ensures Equivalent(Prim(n), t) <==> t == Prim(n)
    ensures Equivalent(t, Prim(n)) <==> t == Prim(n)
  {
  }

  // ---------------------------------------------------------------------------------------------
  // assignable: `any` is the top, equivalence implies it, function types are variant

  lemma AssignableToAny(t: Type)
    ensures Assignable(t, Prim(AnyType))
  {
  }

  lemma EquivalentIsAssignable(t1: Type, t2: Type)
    requires Equivalent(t1, t2)
    ensures Assignable(t1, t2)
  {
  }

  lemma AssignableReflexive(t: Type)
    ensures Assignable(t, t)
  {
  }

  /** Nothing but `any` accepts a value of type `any`. */
  lemma AssignableFromAny(t: Type)
    ensures Assignable(Prim(AnyType), t) <==> t == Prim(AnyType)
  {
    EquivalentToPrimitive(AnyType, t);
  }

  /** Function types: equal arity, covariant return type, contravariant parameter types. */
  lemma FunctionVariance(ps1: seq<Type>, r1: Type, ps2: seq<Type>, r2: Type)
    requires |ps1| == |ps2|
    requires Assignable(r1, r2)
    requires forall i :: 0 <= i < |ps1| ==> Assignable(ps2[i], ps1[i])
    ensures Assignable(FunctionType(ps1, r1), FunctionType(ps2, r2))
  {
  }

  /** A function type with a different number of parameters is never assignable, unless to `any`. */
  lemma ArityMismatchNotAssignable(ps1: seq<Type>, r1: Type, ps2: seq<Type>, r2: Type)
    requires |ps1| != |ps2|
    ensures !Assignable(FunctionType(ps1, r1), FunctionType(ps2, r2))
  {
  }

  /** assignable is transitive, so it is a preorder on types. */
  lemma {:induction false} AssignableTransitive(a: Type, b: Type, c: Type)
    requires Assignable(a, b) && Assignable(b, c)
    ensures Assignable(a, c)
    decreases Size(a) + Size(b) + Size(c)
  {
    if c == Prim(AnyType) {
    } else if b == Prim(AnyType) {
      AssignableFromAny(c);
    } else if Equivalent(a, b) && Equivalent(b, c) {
      EquivalentTransitive(a, b, c);
    } else {
      // at least one step goes through function variance, so all three are function types
      assert b.FunctionType?;
      if Equivalent(a, b) {
        FunctionShape(a, b);
      }
      if Equivalent(b, c) {
        FunctionShape(b, c);
      }
      FunctionStep(a, b);
      FunctionStep(b, c);
      AssignableTransitive(a.returnType, b.returnType, c.returnType);
      forall i | 0 <= i < |c.paramTypes|
        ensures Assignable(c.paramTypes[i], a.paramTypes[i])
      {
        SizeAllBounds(a.paramTypes, i);
        SizeAllBounds(b.paramTypes, i);
        SizeAllBounds(c.paramTypes, i);
        AssignableTransitive(c.paramTypes[i], b.paramTypes[i], a.paramTypes[i]);
      }
    }
  }

  /** Only a function type is equivalent to a function type. */
  lemma FunctionShape(t1: Type, t2: Type)
    requires Equivalent(t1, t2)
    ensures t1.FunctionType? <==> t2.FunctionType?
  {
  }

  /** Between function types, assignability always has the variance form. */
  lemma FunctionStep(f: Type, g: Type)
    requires f.FunctionType? && g.FunctionType?
    requires Assignable(f, g)
    ensures Assignable(f.returnType, g.returnType)
    ensures |f.paramTypes| == |g.paramTypes|
    ensures forall i :: 0 <= i < |g.paramTypes| ==> Assignable(g.paramTypes[i], f.paramTypes[i])
  {
    if Equivalent(f, g) && !(Assignable(f.returnType, g.returnType) && |f.paramTypes| == |g.paramTypes|
                              && forall i :: 0 <= i < |g.paramTypes| ==> Assignable(g.paramTypes[i], f.paramTypes[i])) {
      assert Equivalent(f.returnType, g.returnType);
      forall i | 0 <= i < |g.paramTypes|
        ensures Assignable(g.paramTypes[i], f.paramTypes[i])
      {
        EquivalentSymmetric(f.paramTypes[i], g.paramTypes[i]);
      }
    }
  }

  // ---------------------------------------------------------------------------------------------
  // typeDescription

  /** Whether a missing type occurs anywhere in t (typeDescription then throws a TypeError). */
  predicate HasUntyped(t: Type) {
    match t
    case Untyped => true
    case ArrayType(b) => HasUntyped(b)
    case OptionalType(b) => HasUntyped(b)
    case FunctionType(ps, r) => HasUntyped(r) || exists i :: 0 <= i < |ps| && HasUntyped(ps[i])
    case _ => false
  }

  /**
   * `typeDescription(type)`: `[T]` for arrays, `T?` for optionals, `(P1, P2)->R` for functions,
   * the name for structs and the string itself for primitives. None means the JavaScript code
   * throws, which it does on an undefined type.
   */
  function TypeDescription(t: Type): Option<string> {
    match t
    case Untyped => None
    case Prim(n) => Some(n)
    case StructType(_, n, _) => Some(n)
    case FunctionType(ps, r) =>
      var pds := DescribeAll(ps);
      var rd := TypeDescription(r);
      if pds.None? || rd.None? then None else Some("(" + Strings.Join(pds.value, ", ") + ")->" + rd.value)
    case ArrayType(b) =>
      var d := TypeDescription(b);
      if d.None? then None else Some("[" + d.value + "]")
    case OptionalType(b) =>
      var d := TypeDescription(b);
      if d.None? then None else Some(d.value + "?")
  }

  /** `paramTypes.map(typeDescription)`. */
  function DescribeAll(ts: seq<Type>): (r: Option<seq<string>>)
    ensures r.Some? ==> |r.value| == |ts|
  {
    if ts == [] then Some([])
    else
      var d := TypeDescription(ts[0]);
      var rest := DescribeAll(ts[1..]);
      if d.None? || rest.None? then None else Some([d.value] + rest.value)
  }

  /** A type can be described exactly when no part of it is missing. */
  lemma {:induction false} TypeDescriptionDefined(t: Type)
    ensures TypeDescription(t).Some? <==> !HasUntyped(t)
  {
    match t
    case Untyped =>
    case Prim(_) =>
    case StructType(_, _, _) =>
    case ArrayType(b) => TypeDescriptionDefined(b);
    case OptionalType(b) => TypeDescriptionDefined(b);
    case FunctionType(ps, r) =>
      TypeDescriptionDefined(r);
      DescribeAllDefined(ps);
  }

  lemma {:induction false} DescribeAllDefined(ts: seq<Type>)
    ensures DescribeAll(ts).Some? <==> forall i :: 0 <= i < |ts| ==> !HasUntyped(ts[i])
  {
    if ts != [] {
      TypeDescriptionDefined(ts[0]);
      DescribeAllDefined(ts[1..]);
      assert forall i :: 1 <= i < |ts| ==> ts[i] == ts[1..][i - 1];
    }
  }

  // ---------------------------------------------------------------------------------------------
  // includesAsField

  /** `includesAsField(structType, type)`: some field, directly or through struct-typed fields, has type t. */
  predicate IncludesAsField(s: Type, t: Type)
    requires s.StructType?
    decreases s
  {
    exists i :: 0 <= i < |s.fields| &&
      (Identical(s.fields[i].ty, t) || (s.fields[i].ty.StructType? && IncludesAsField(s.fields[i].ty, t)))
  }

  /** The reference definition: every field type reachable from s through struct-typed fields. */
  function ReachableFieldTypes(s: Type): set<Type>
    requires s.StructType?
    decreases s
  {
    set i, u | 0 <= i < |s.fields| && u in FieldClosure(s.fields[i]) :: u
  }

  function FieldClosure(f: Field): set<Type>
    decreases f
  {
    {f.ty} + (if f.ty.StructType? then ReachableFieldTypes(f.ty) else {})
  }

  /** includesAsField(s, t) holds exactly when some reachable field type is identical to t. */
  lemma {:induction false} IncludesAsFieldReachable(s: Type, t: Type)
    requires s.StructType?
    ensures IncludesAsField(s, t) <==> exists u :: u in ReachableFieldTypes(s) && Identical(u, t)
    decreases s
  {
    forall i | 0 <= i < |s.fields| && s.fields[i].ty.StructType?
      ensures IncludesAsField(s.fields[i].ty, t) <==>
              exists u :: u in ReachableFieldTypes(s.fields[i].ty) && Identical(u, t)
    {
      IncludesAsFieldReachable(s.fields[i].ty, t);
    }
    if IncludesAsField(s, t) {
      var i :| 0 <= i < |s.fields| &&
        (Identical(s.fields[i].ty, t) || (s.fields[i].ty.StructType? && IncludesAsField(s.fields[i].ty, t)));
      if Identical(s.fields[i].ty, t) {
        assert s.fields[i].ty in FieldClosure(s.fields[i]);
      } else {
        var u :| u in ReachableFieldTypes(s.fields[i].ty) && Identical(u, t);
        assert u in FieldClosure(s.fields[i]);
      }
    }
    if exists u :: u in ReachableFieldTypes(s) && Identical(u, t) {
      var u :| u in ReachableFieldTypes(s) && Identical(u, t);
      var i :| 0 <= i < |s.fields| && u in FieldClosure(s.fields[i]);
      assert Identical(s.fields[i].ty, t) || (s.fields[i].ty.StructType? && IncludesAsField(s.fields[i].ty, t));
    }
  }
}
