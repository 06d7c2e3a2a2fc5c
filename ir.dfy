/**
 * The IR vocabulary of src/core.js. Every node record carries a fixed `kind` tag and exactly the
 * fields its constructor function receives. Records live in a heap of objects (`Heap`); a field
 * holds a JavaScript value (`Value`): a reference to a record, a host literal, null, undefined or
 * an array. Host literals carry the type that src/core.js:15-18 attaches to their prototypes.
 */
module Ir {
  import opened Types
  import opened Wrappers

  /** Host values that the analyzer uses as literal nodes. A Number keeps its `String(n)` text. */
  datatype Literal =
    | StringLit(text: string)
    | NumberLit(text: string)
    | BigIntLit(n: int)
    | BooleanLit(b: bool)

  datatype Value =
    | Ref(addr: nat)
    | Lit(lit: Literal)
    | Null
    | Undefined
    | List(items: seq<Value>)

  /**
   * The node records. Field names follow src/core.js except where the JavaScript name is a Dafny
   * keyword: `ty` is `type`, `indexed` is `array`, `receiver` is `object`, `ctor` is `constructor`,
   * `loopVar` is `iterator`; a Range's `op` is `rangeOp`, because unlike the operator strings of
   * unary and binary expressions it may be undefined.
   * TypeDeclaration, SubscriptExpression and MemberExpression have no constructor in src/core.js;
   * they are the kinds src/optimizer.js and `isMutable` dispatch on.
   */
  datatype Node =
    | Program(statements: Value)
    | ArrayExpression(elements: Value, ty: Type)
    | ArrayIndexing(indexed: Value, index: Value, ty: Type)
    | EmptyArray(ty: Type)
    | VariableDeclaration(variable: Value, initializer: Value)
    | Variable(name: string, mutable: bool, ty: Type)
    | Assignment(target: Value, source: Value)
    | Range(start: Value, end: Value, rangeOp: Value, value: Value, ty: Type)
    | UnaryExpression(op: string, operand: Value, ty: Type)
    | BinaryExpression(op: string, left: Value, right: Value, ty: Type)
    | IfStatement(test: Value, consequent: Value, elseif: Value, otherwise: Value)
    | ElseIf(test: Value, consequent: Value)
    | Else(consequent: Value)
    | WhileStatement(test: Value, body: Value)
    | ForStatement(loopVar: Value, collection: Value, body: Value)
    | BreakStatement
    | FunctionDeclaration(fun: Value)
    | Function(name: string, params: Value, body: Value, ty: Type)
    | Parameter(id: string, defaultValue: Value, ty: Type)
    | ReturnStatement(expression: Value)
    | FunctionCall(callee: Value, args: Value, ty: Type)
    | ClassDeclaration(ctor: Value, methods: Value)
    | ConstructorCall(args: Value)
    | MethodCall(methodName: string, receiver: Value, args: Value, ty: Type)
    | TypeDeclaration(ty: Type)
    | SubscriptExpression(indexed: Value, subscript: Value, ty: Type)
    | MemberExpression(receiver: Value, dot: string, field: Value, ty: Type)

  /**
   * How a step of the toolchain can end abnormally: an analyzer check that throws its message, a
   * JavaScript TypeError (a property read on null or undefined, a call of a missing method), or
   * a case this model does not cover.
   */
  datatype Error = SemanticError(message: string) | TypeError | NotModelled(what: string)

  /** JavaScript truthiness of a value. A Number keeps its `String(n)` text, so 0 and NaN are the falsy ones. */
  predicate Truthy(v: Value) {
    match v
    case Ref(_) => true
    case List(_) => true
    case Null => false
    case Undefined => false
    case Lit(StringLit(s)) => s != ""
    case Lit(NumberLit(t)) => t != "0" && t != "NaN"
    case Lit(BigIntLit(n)) => n != 0
    case Lit(BooleanLit(b)) => b
  }

  /** `null` and `undefined`, the two values whose property reads throw. */
  predicate Nullish(v: Value) {
    v.Null? || v.Undefined?
  }

  // ---------------------------------------------------------------------------------------------
  // kind tags

  datatype Kind =
    | KProgram | KArray | KArrayIndexing | KEmptyArray | KVariableDeclaration | KVariable
    | KAssignment | KRange | KUnaryExpression | KBinaryExpression | KIfStatement | KElseIf | KElse
    | KWhileStatement | KForStatement | KBreakStatement | KFunctionDeclaration | KFunction
    | KParameter | KReturnStatement | KFunctionCall | KClassDeclaration | KConstructorCall
    | KMethodCall | KTypeDeclaration | KSubscriptExpression | KMemberExpression

  function KindOf(n: Node): Kind {
    match n
    case Program(_) => KProgram
    case ArrayExpression(_, _) => KArray
    case ArrayIndexing(_, _, _) => KArrayIndexing
    case EmptyArray(_) => KEmptyArray
    case VariableDeclaration(_, _) => KVariableDeclaration
    case Variable(_, _, _) => KVariable
    case Assignment(_, _) => KAssignment
    case Range(_, _, _, _, _) => KRange
    case UnaryExpression(_, _, _) => KUnaryExpression
    case BinaryExpression(_, _, _, _) => KBinaryExpression
    case IfStatement(_, _, _, _) => KIfStatement
    case ElseIf(_, _) => KElseIf
    case Else(_) => KElse
    case WhileStatement(_, _) => KWhileStatement
    case ForStatement(_, _, _) => KForStatement
    case BreakStatement => KBreakStatement
    case FunctionDeclaration(_) => KFunctionDeclaration
    case Function(_, _, _, _) => KFunction
    case Parameter(_, _, _) => KParameter
    case ReturnStatement(_) => KReturnStatement
    case FunctionCall(_, _, _) => KFunctionCall
    case ClassDeclaration(_, _) => KClassDeclaration
    case ConstructorCall(_) => KConstructorCall
    case MethodCall(_, _, _, _) => KMethodCall
    case TypeDeclaration(_) => KTypeDeclaration
    case SubscriptExpression(_, _, _) => KSubscriptExpression
    case MemberExpression(_, _, _, _) => KMemberExpression
  }

  /** The string stored in a record's `kind` field. */
  function KindName(k: Kind): string {
    match k
    case KProgram => "Program"
    case KArray => "Array"
    case KArrayIndexing => "ArrayIndexing"
    case KEmptyArray => "EmptyArray"
    case KVariableDeclaration => "VariableDeclaration"
    case KVariable => "Variable"
    case KAssignment => "Assignment"
    case KRange => "Range"
    case KUnaryExpression => "UnaryExpression"
    case KBinaryExpression => "BinaryExpression"
    case KIfStatement => "IfStatement"
    case KElseIf => "ElseIF"
    case KElse => "Else"
    case KWhileStatement => "WhileStatement"
    case KForStatement => "ForStatement"
    case KBreakStatement => "BreakStatement"
    case KFunctionDeclaration => "FunctionDeclaration"
    case KFunction => "Function"
    case KParameter => "Parameter"
    case KReturnStatement => "ReturnStatement"
    case KFunctionCall => "FunctionCall"
    case KClassDeclaration => "ClassDeclaration"
    case KConstructorCall => "ConstructorCall"
    case KMethodCall => "MethodCall"
    case KTypeDeclaration => "TypeDeclaration"
    case KSubscriptExpression => "SubscriptExpression"
    case KMemberExpression => "MemberExpression"
  }

  /** Looking up a dispatch table by `kind` string: which kind, if any, a string names. */
  function KindNamed(s: string): Option<Kind> {
    if |s| == 4 then
      if s == "Else" then Some(KElse) else None
    else if |s| == 5 then
      if s == "Array" then Some(KArray) else if s == "Range" then Some(KRange) else None
    else if |s| == 6 then
      if s == "ElseIF" then Some(KElseIf) else None
    else if |s| == 7 then
      if s == "Program" then Some(KProgram) else None
    else if |s| == 8 then
      if s == "Variable" then Some(KVariable) else if s == "Function" then Some(KFunction) else None
    else if |s| == 9 then
      if s == "Parameter" then Some(KParameter) else None
    else if |s| == 10 then
      if s == "EmptyArray" then Some(KEmptyArray) else if s == "Assignment" then Some(KAssignment) else if s == "MethodCall" then Some(KMethodCall) else None
    else if |s| == 11 then
      if s == "IfStatement" then Some(KIfStatement) else None
    else if |s| == 12 then
      if s == "ForStatement" then Some(KForStatement) else if s == "FunctionCall" then Some(KFunctionCall) else None
    else if |s| == 13 then
      if s == "ArrayIndexing" then Some(KArrayIndexing) else None
    else if |s| == 14 then
      if s == "WhileStatement" then Some(KWhileStatement) else if s == "BreakStatement" then Some(KBreakStatement) else None
    else if |s| == 15 then
      if s == "UnaryExpression" then Some(KUnaryExpression) else if s == "ReturnStatement" then Some(KReturnStatement) else if s == "ConstructorCall" then Some(KConstructorCall) else if s == "TypeDeclaration" then Some(KTypeDeclaration) else None
    else if |s| == 16 then
      if s == "BinaryExpression" then Some(KBinaryExpression) else if s == "ClassDeclaration" then Some(KClassDeclaration) else if s == "MemberExpression" then Some(KMemberExpression) else None
    else if |s| == 19 then
      if s == "VariableDeclaration" then Some(KVariableDeclaration) else if s == "FunctionDeclaration" then Some(KFunctionDeclaration) else if s == "SubscriptExpression" then Some(KSubscriptExpression) else None
    else None
  }

  /** Every constructor has its own tag: reading the tag back names the same kind. */
  lemma KindNameRoundTrip(k: Kind)
    ensures KindNamed(KindName(k)) == Some(k)
  {
    match k
    case KProgram => {}
    case KArray => {}
    case KArrayIndexing => {}
    case KEmptyArray => {}
    case KVariableDeclaration => {}
    case KVariable => {}
    case KAssignment => {}
    case KRange => {}
    case KUnaryExpression => {}
    case KBinaryExpression => {}
    case KIfStatement => {}
    case KElseIf => {}
    case KElse => {}
    case KWhileStatement => {}
    case KForStatement => {}
    case KBreakStatement => {}
    case KFunctionDeclaration => {}
    case KFunction => {}
    case KParameter => {}
    case KReturnStatement => {}
    case KFunctionCall => {}
    case KClassDeclaration => {}
    case KConstructorCall => {}
    case KMethodCall => {}
    case KTypeDeclaration => {}
    case KSubscriptExpression => {}
    case KMemberExpression => {}
  }

  /** So two records have the same `kind` string exactly when they are built by the same constructor. */
  lemma KindNamesDistinct(a: Node, b: Node)
    ensures KindName(KindOf(a)) == KindName(KindOf(b)) <==> KindOf(a) == KindOf(b)
  {
    KindNameRoundTrip(KindOf(a));
    KindNameRoundTrip(KindOf(b));
  }

  // ---------------------------------------------------------------------------------------------
  // reading fields generically

  /** `x.name` of a record: only Variable and Function records have a `name` field. */
  function NameField(n: Node): Value {
    match n
    case Variable(name, _, _) => Lit(StringLit(name))
    case Function(name, _, _, _) => Lit(StringLit(name))
    case _ => Undefined
  }

  /** `x.type` of a record; Untyped when the record has no `type` field. */
  function TypeField(n: Node): Type {
    match n
    case ArrayExpression(_, t) => t
    case ArrayIndexing(_, _, t) => t
    case EmptyArray(t) => t
    case Variable(_, _, t) => t
    case Range(_, _, _, _, t) => t
    case UnaryExpression(_, _, t) => t
    case BinaryExpression(_, _, _, t) => t
    case Function(_, _, _, t) => t
    case Parameter(_, _, t) => t
    case FunctionCall(_, _, t) => t
    case MethodCall(_, _, _, t) => t
    case TypeDeclaration(t) => t
    case SubscriptExpression(_, _, t) => t
    case MemberExpression(_, _, _, t) => t
    case _ => Untyped
  }

  /** `e.type` of a value in the heap; None when reading it throws (e is null or undefined). */
  function TypeOf(recs: seq<Node>, v: Value): (t: Option<Type>)
    requires Bound(v) <= |recs|
    ensures t.None? <==> Nullish(v)
  {
    match v
    case Ref(a) => Some(TypeField(recs[a]))
    case Lit(l) => Some(LiteralType(l))
    case List(_) => Some(Untyped)
    case Null => None
    case Undefined => None
  }

  /** `e.name` of a value in the heap; None when reading it throws. */
  function NameOf(recs: seq<Node>, v: Value): (n: Option<Value>)
    requires Bound(v) <= |recs|
    ensures n.None? <==> Nullish(v)
  {
    match v
    case Ref(a) => Some(NameField(recs[a]))
    case Null => None
    case Undefined => None
    case _ => Some(Undefined)
  }

  /** The type src/core.js:15-18 gives every host literal through its prototype. */
  function LiteralType(l: Literal): (t: Type)
    ensures t.Prim? && t.name in [StringType, FloatType, IntType, BooleanType]
    ensures t != Prim(AnyType) && t != Prim(VoidType)
  {
    match l
    case StringLit(_) => Prim(StringType)
    case NumberLit(_) => Prim(FloatType)
    case BigIntLit(_) => Prim(IntType)
    case BooleanLit(_) => Prim(BooleanType)
  }

  /** `emptyArray()` ignores whatever it is passed: its record always has type "any". */
  function MakeEmptyArray(requested: Type): (n: Node)
    ensures n.EmptyArray? && n.ty == Prim(AnyType)
  {
    EmptyArray(Prim(AnyType))
  }

  // ---------------------------------------------------------------------------------------------
  // the heap of records

  function Max(a: nat, b: nat): nat {
    if a < b then b else a
  }

  /** One more than the largest address a value refers to (0 when it refers to none). */
  function Bound(v: Value): nat {
    match v
    case Ref(a) => a + 1
    case List(items) => BoundAll(items)
    case _ => 0
  }

  function BoundAll(vs: seq<Value>): nat {
    if vs == [] then 0 else Max(Bound(vs[0]), BoundAll(vs[1..]))
  }

  lemma {:induction false} BoundAllElement(vs: seq<Value>, i: int)
    requires 0 <= i < |vs|
    ensures Bound(vs[i]) <= BoundAll(vs)
  {
    if i > 0 {
      BoundAllElement(vs[1..], i - 1);
    }
  }

  lemma {:induction false} BoundAllBelow(vs: seq<Value>, n: nat)
    requires forall i :: 0 <= i < |vs| ==> Bound(vs[i]) <= n
    ensures BoundAll(vs) <= n
  {
    if vs != [] {
      assert forall i :: 0 <= i < |vs[1..]| ==> vs[1..][i] == vs[i + 1];
      BoundAllBelow(vs[1..], n);
    }
  }

  lemma {:induction false} BoundAllAppend(xs: seq<Value>, ys: seq<Value>)
    ensures BoundAll(xs + ys) == Max(BoundAll(xs), BoundAll(ys))
  {
    if xs == [] {
      assert xs + ys == ys;
    } else {
      assert (xs + ys)[0] == xs[0];
      assert (xs + ys)[1..] == xs[1..] + ys;
      BoundAllAppend(xs[1..], ys);
    }
  }

  /** A suffix's children are bounded by the whole sequence's. */
  lemma BoundAllDrop(vs: seq<Value>, i: nat)
    requires i <= |vs|
    ensures BoundAll(vs[i..]) <= BoundAll(vs)
  {
    assert vs == vs[..i] + vs[i..];
    BoundAllAppend(vs[..i], vs[i..]);
  }

  /**
   * The fields the optimizer and the generator descend into. A Function record's parameters and
   * body are left out: they are filled in after the function is registered (so that a body may
   * call its own function) and are reached only through the FunctionDeclaration that holds it.
   */
  function Children(n: Node): seq<Value> {
    match n
    case Program(s) => [s]
    case ArrayExpression(e, _) => [e]
    case ArrayIndexing(a, i, _) => [a, i]
    case EmptyArray(_) => []
    case VariableDeclaration(v, i) => [v, i]
    case Variable(_, _, _) => []
    case Assignment(t, s) => [t, s]
    case Range(s, e, o, v, _) => [s, e, o, v]
    case UnaryExpression(_, o, _) => [o]
    case BinaryExpression(_, l, r, _) => [l, r]
    case IfStatement(t, c, ei, o) => [t, c, ei, o]
    case ElseIf(t, c) => [t, c]
    case Else(c) => [c]
    case WhileStatement(t, b) => [t, b]
    case ForStatement(i, c, b) => [i, c, b]
    case BreakStatement => []
    case FunctionDeclaration(f) => [f]
    case Function(_, _, _, _) => []
    case Parameter(_, d, _) => [d]
    case ReturnStatement(e) => [e]
    case FunctionCall(c, a, _) => [c, a]
    case ClassDeclaration(c, m) => [c, m]
    case ConstructorCall(a) => [a]
    case MethodCall(_, o, a, _) => [o, a]
    case TypeDeclaration(_) => []
    case SubscriptExpression(a, s, _) => [a, s]
    case MemberExpression(o, _, f, _) => [o, f]
  }

  /**
   * The record at address a refers only to records allocated before it, along the fields that
   * are traversed; a FunctionDeclaration also to its function's parameters and body.
   */
  predicate RecordOrdered(recs: seq<Node>, a: nat)
    requires a < |recs|
  {
    && BoundAll(Children(recs[a])) <= a
    && (recs[a].FunctionDeclaration? && recs[a].fun.Ref? && recs[a].fun.addr < |recs|
        && recs[recs[a].fun.addr].Function? ==>
          Bound(recs[recs[a].fun.addr].params) <= a && Bound(recs[recs[a].fun.addr].body) <= a)
  }

  predicate WellFormed(recs: seq<Node>) {
    forall a | 0 <= a < |recs| :: RecordOrdered(recs, a)
  }

  /** The first traversed field of a record, the base of an access path, refers below the record. */
  lemma FirstChildBelow(recs: seq<Node>, a: nat)
    requires WellFormed(recs) && a < |recs| && |Children(recs[a])| > 0
    ensures Bound(Children(recs[a])[0]) <= a
  {
    ChildrenBelow(recs, a);
  }

  /** The same, field by field for the records the passes descend into. */
  lemma FieldsBelow(recs: seq<Node>, a: nat)
    requires WellFormed(recs) && a < |recs|
    ensures recs[a].Program? ==> Bound(recs[a].statements) <= a
    ensures recs[a].ArrayExpression? ==> Bound(recs[a].elements) <= a
    ensures recs[a].ArrayIndexing? ==> Bound(recs[a].indexed) <= a && Bound(recs[a].index) <= a
    ensures recs[a].VariableDeclaration? ==> Bound(recs[a].variable) <= a && Bound(recs[a].initializer) <= a
    ensures recs[a].Assignment? ==> Bound(recs[a].target) <= a && Bound(recs[a].source) <= a
    ensures recs[a].Range? ==> Bound(recs[a].start) <= a && Bound(recs[a].end) <= a
                               && Bound(recs[a].rangeOp) <= a && Bound(recs[a].value) <= a
    ensures recs[a].UnaryExpression? ==> Bound(recs[a].operand) <= a
    ensures recs[a].BinaryExpression? ==> Bound(recs[a].left) <= a && Bound(recs[a].right) <= a
    ensures recs[a].IfStatement? ==> Bound(recs[a].test) <= a && Bound(recs[a].consequent) <= a
                                     && Bound(recs[a].elseif) <= a && Bound(recs[a].otherwise) <= a
    ensures recs[a].ElseIf? ==> Bound(recs[a].test) <= a && Bound(recs[a].consequent) <= a
    ensures recs[a].Else? ==> Bound(recs[a].consequent) <= a
    ensures recs[a].WhileStatement? ==> Bound(recs[a].test) <= a && Bound(recs[a].body) <= a
    ensures recs[a].ForStatement? ==> Bound(recs[a].loopVar) <= a && Bound(recs[a].collection) <= a && Bound(recs[a].body) <= a
    ensures recs[a].FunctionDeclaration? ==> Bound(recs[a].fun) <= a
    ensures recs[a].FunctionDeclaration? && recs[a].fun.Ref? && recs[recs[a].fun.addr].Function? ==>
              Bound(recs[recs[a].fun.addr].params) <= a && Bound(recs[recs[a].fun.addr].body) <= a
    ensures recs[a].Parameter? ==> Bound(recs[a].defaultValue) <= a
    ensures recs[a].ReturnStatement? ==> Bound(recs[a].expression) <= a
    ensures recs[a].FunctionCall? ==> Bound(recs[a].callee) <= a && Bound(recs[a].args) <= a
    ensures recs[a].ClassDeclaration? ==> Bound(recs[a].ctor) <= a && Bound(recs[a].methods) <= a
    ensures recs[a].ConstructorCall? ==> Bound(recs[a].args) <= a
    ensures recs[a].MethodCall? ==> Bound(recs[a].receiver) <= a && Bound(recs[a].args) <= a
    ensures recs[a].SubscriptExpression? ==> Bound(recs[a].indexed) <= a && Bound(recs[a].subscript) <= a
    ensures recs[a].MemberExpression? ==> Bound(recs[a].receiver) <= a && Bound(recs[a].field) <= a
  {
    assert RecordOrdered(recs, a);
    ChildrenBelow(recs, a);
    var cs := Children(recs[a]);
    if |cs| > 0 { assert Bound(cs[0]) <= a; }
    if |cs| > 1 { assert Bound(cs[1]) <= a; }
    if |cs| > 2 { assert Bound(cs[2]) <= a; }
    if |cs| > 3 { assert Bound(cs[3]) <= a; }
  }

  /** In a well-formed heap every traversed field of a record refers below the record's address. */
  lemma ChildrenBelow(recs: seq<Node>, a: nat)
    requires WellFormed(recs) && a < |recs|
    ensures forall i :: 0 <= i < |Children(recs[a])| ==> Bound(Children(recs[a])[i]) <= a
  {
    assert RecordOrdered(recs, a);
    forall i | 0 <= i < |Children(recs[a])|
      ensures Bound(Children(recs[a])[i]) <= a
    {
      BoundAllElement(Children(recs[a]), i);
    }
  }

  /** Allocating a record whose fields refer only to existing records keeps the heap well formed. */
  lemma WellFormedExtend(recs: seq<Node>, n: Node)
    requires WellFormed(recs)
    requires RecordOrdered(recs + [n], |recs|)
    ensures WellFormed(recs + [n])
  {
    var recs' := recs + [n];
    forall a | 0 <= a < |recs'|
      ensures RecordOrdered(recs', a)
    {
      if a < |recs| {
        assert recs'[a] == recs[a];
        assert RecordOrdered(recs, a);
        if recs[a].FunctionDeclaration? {
          assert Children(recs[a]) == [recs[a].fun];
          BoundAllElement(Children(recs[a]), 0);
        }
      }
    }
  }

  // ---------------------------------------------------------------------------------------------
  // module-level objects of src/core.js

  /** `breakStatement` is one shared record; it and the standard-library functions come first. */
  const BreakAddr: nat := 0
  const PrintAddr: nat := 1
  const PAddr: nat := 2
  const PlAddr: nat := 3

  /** The records src/core.js allocates when it is loaded. */
  function CoreRecords(): seq<Node> {
    [ BreakStatement,
      Function("print", Undefined, Undefined, Prim(VoidType)),
      Function("print", Undefined, Undefined, Prim(VoidType)),
      Function("printLine", Undefined, Undefined, Prim(VoidType)) ]
  }

  /** `standardLibrary`, the map the root context starts from. */
  function StandardLibrary(): map<string, Value> {
    map[ "types" := List(seq(|PrimitiveNames|, i requires 0 <= i < |PrimitiveNames| => Lit(StringLit(PrimitiveNames[i])))),
         "print" := Ref(PrintAddr),
         "p" := Ref(PAddr),
         "pl" := Ref(PlAddr) ]
  }

  /** print and p are functions named "print", pl one named "printLine"; all typed void; types lists the primitives. */
  lemma StandardLibraryShape()
    ensures StandardLibrary().Keys == {"types", "print", "p", "pl"}
    ensures forall k :: k in ["print", "p", "pl"] ==>
              StandardLibrary()[k].Ref? && StandardLibrary()[k].addr < |CoreRecords()|
              && CoreRecords()[StandardLibrary()[k].addr].Function?
              && CoreRecords()[StandardLibrary()[k].addr].ty == Prim(VoidType)
    ensures CoreRecords()[StandardLibrary()["print"].addr].name == "print"
    ensures CoreRecords()[StandardLibrary()["p"].addr].name == "print"
    ensures CoreRecords()[StandardLibrary()["pl"].addr].name == "printLine"
    ensures StandardLibrary()["print"] != StandardLibrary()["p"]
    ensures StandardLibrary()["types"] == List([Lit(StringLit("boolean")), Lit(StringLit("int")), Lit(StringLit("float")),
                                               Lit(StringLit("string")), Lit(StringLit("void")), Lit(StringLit("any"))])
    ensures CoreRecords()[BreakAddr] == BreakStatement
  {
  }

  lemma CoreRecordsWellFormed()
    ensures WellFormed(CoreRecords())
  {
  }

  /** The objects of one run: every record allocated so far, at its address. */
  class Heap {
    var records: seq<Node>

    ghost predicate Valid()
      reads this
    {
      WellFormed(records)
    }

    constructor ()
      ensures Valid() && records == CoreRecords()
    {
      records := CoreRecords();
      CoreRecordsWellFormed();
    }

    /** Allocates a record built by one of the constructor functions of src/core.js. */
    method Alloc(n: Node) returns (v: Value)
      requires Valid()
      requires BoundAll(Children(n)) <= |records|
      requires n.FunctionDeclaration? && n.fun.Ref? && n.fun.addr < |records| && records[n.fun.addr].Function? ==>
                 Bound(records[n.fun.addr].params) <= |records| && Bound(records[n.fun.addr].body) <= |records|
      modifies this
      ensures Valid()
      ensures records == old(records) + [n] && v == Ref(|old(records)|)
    {
      v := Ref(|records|);
      assert RecordOrdered(records + [n], |records|);
      WellFormedExtend(records, n);
      records := records + [n];
    }
  }
}
