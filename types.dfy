/**
 * The type vocabulary of the IR (src/core.js:1-6 and the type objects the analyzer inspects).
 * A primitive type is a plain string; composite types are records tagged ArrayType, OptionalType,
 * FunctionType or StructType. A missing `type` field (JavaScript `undefined`) is `Untyped`.
 */
module Types {

  const BooleanType: string := "boolean"
  const IntType: string := "int"
  const FloatType: string := "float"
  const StringType: string := "string"
  const VoidType: string := "void"
  const AnyType: string := "any"

  /** The `types` entry of the standard library, in its order. */
  const PrimitiveNames: seq<string> := [BooleanType, IntType, FloatType, StringType, VoidType, AnyType]

  datatype Type =
    | Untyped
    | Prim(name: string)
    | ArrayType(baseType: Type)
    | OptionalType(baseType: Type)
    | FunctionType(paramTypes: seq<Type>, returnType: Type)
      /** Struct types are compared by identity, which `id` stands for. */
    | StructType(id: nat, name: string, fields: seq<Field>)

  /** A struct field; `ty` is the record's `type` field (a Dafny keyword). */
  datatype Field = Field(name: string, ty: Type)

  /** The number of type constructors in t, not looking into struct fields; a termination measure. */
  function Size(t: Type): nat {
    match t
    case ArrayType(b) => 1 + Size(b)
    case OptionalType(b) => 1 + Size(b)
    case FunctionType(ps, r) => 1 + SizeAll(ps) + Size(r)
    case _ => 1
  }

  function SizeAll(ts: seq<Type>): nat {
    if ts == [] then 0 else Size(ts[0]) + SizeAll(ts[1..])
  }

  lemma {:induction false} SizeAllBounds(ts: seq<Type>, i: int)
    requires 0 <= i < |ts|
    ensures Size(ts[i]) <= SizeAll(ts)
  {
    if i > 0 {
      SizeAllBounds(ts[1..], i - 1);
    }
  }

  /** The six primitive type names are pairwise distinct strings. */
  lemma PrimitiveNamesDistinct()
    ensures forall i, j :: 0 <= i < j < |PrimitiveNames| ==> PrimitiveNames[i] != PrimitiveNames[j]
  {
  }
}
