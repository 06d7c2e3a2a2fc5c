/**
 * The code generator of src/generator.js as functions. One run shares an `output` list, a
 * `classes` list and the `targetName` map; `gen(node)` dispatches on `node.kind` and yields the
 * generated text, or the node itself when its kind has no generator or the generator returns
 * nothing (Program). Here every generator takes the run's `classes` and map (`GenState`) and gives
 * an `Outcome`: its result, the state afterwards, and what it pushed onto `output`, in order.
 */
module Codegen {
  import opened Wrappers
  import opened Strings
  import opened Ir
  import opened Render
  import opened TargetNames
  import opened Ranges

  datatype GenState = GenState(classes: seq<Value>, mapping: map<Value, nat>)

  /** A generator's result, the state after it, and the values it pushed onto `output`. */
  datatype Outcome<T> = Outcome(result: Result<T, Error>, state: GenState, emitted: seq<Value>)

  function Done<T>(v: T, st: GenState): Outcome<T> {
    Outcome(Success(v), st, [])
  }

  function Fail<T>(e: Error, st: GenState): Outcome<T> {
    Outcome(Failure(e), st, [])
  }

  /** A step that threw: its exception, its state and its pushes carry over. */
  function Abort<T, U>(o: Outcome<T>): Outcome<U>
    requires o.result.Failure?
  {
    Outcome(Failure(o.result.error), o.state, o.emitted)
  }

  /** A step that succeeded, followed by returning v. */
  function Then<T, U>(o: Outcome<T>, v: U): Outcome<U> {
    Outcome(Success(v), o.state, o.emitted)
  }

  /** `first` then `second`: the pushes of both, in order. */
  function Seq<T, U>(first: Outcome<T>, second: Outcome<U>): Outcome<U> {
    Outcome(second.result, second.state, first.emitted + second.emitted)
  }

  /** Generated text, a string. */
  function Code(s: string): Value {
    Lit(StringLit(s))
  }

  const ClassLowering := "class lowering"

  /** What a generator may do to the state: number new names, keeping the old ordinals; no modelled generator records a class. */
  predicate Evolves(st: GenState, st': GenState) {
    Ordinal(st'.mapping) && Extends(st.mapping, st'.mapping) && st'.classes == st.classes
  }

  /** No Program record lies below address n. */
  predicate NoProgramBelow(recs: seq<Node>, n: nat)
    requires n <= |recs|
  {
    forall b | 0 <= b < n :: !recs[b].Program?
  }

  /** A step reading only records below n: it evolves the state, and pushes nothing unless a Program lies below n. */
  predicate Follows<T>(recs: seq<Node>, n: nat, st: GenState, out: Outcome<T>)
    requires n <= |recs|
  {
    Evolves(st, out.state) && (NoProgramBelow(recs, n) ==> out.emitted == [])
  }

  /** `x.f.map(...)` and `x.f.forEach(...)`: anything but an array throws. */
  function ItemsOf(v: Value): Result<seq<Value>, Error> {
    if v.List? then Success(v.items) else Failure(TypeError)
  }

  /** `x.f.length > 0`: reading `length` of null or undefined throws; only arrays and strings have one. */
  function Populated(v: Value): Result<bool, Error> {
    match v
    case Null => Failure(TypeError)
    case Undefined => Failure(TypeError)
    case List(items) => Success(|items| > 0)
    case Lit(StringLit(s)) => Success(|s| > 0)
    case _ => Success(false)
  }

  /** `x.f[0]` of a populated array or string. */
  function FirstOf(v: Value): (r: Value)
    requires Populated(v) == Success(true)
    ensures Bound(r) <= Bound(v)
  {
    if v.List? then
      BoundAllElement(v.items, 0);
      v.items[0]
    else Code([v.lit.text[0]])
  }

  /** The operator a BinaryExpression is written with in JavaScript. */
  function JsOperator(op: string): string {
    if op == "=" then "===" else if op == "!=" then "!==" else op
  }

  /** The loop test of a `for` over a Range. */
  function ForTest(op: Value): string {
    if op in [Code("-"), Code("%"), Code("/")] then ">=" else "<="
  }

  // ---------------------------------------------------------------------------------------------
  // gen and its folds

  /** `gen(v)`. */
  function GenSpec(recs: seq<Node>, v: Value, st: GenState): (out: Outcome<Value>)
    requires WellFormed(recs) && Bound(v) <= |recs| && Ordinal(st.mapping)
    ensures Follows(recs, Bound(v), st, out)
    ensures out.result.Success? && out.result.value != v ==> out.result.value.Lit? && out.result.value.lit.StringLit?
    decreases Bound(v), 1
  {
    if !v.Ref? then Done(v, st)
    else
      var c := GenCode(recs, v.addr, st);
      if c.result.Failure? then Abort(c)
      else if c.result.value.None? then Then(c, v)
      else Then(c, Code(c.result.value.value))
  }

  /** `x.map(gen)`, appended to `acc`. */
  function GenItems(recs: seq<Node>, items: seq<Value>, acc: seq<Value>, st: GenState): (out: Outcome<seq<Value>>)
    requires WellFormed(recs) && BoundAll(items) <= |recs| && Ordinal(st.mapping)
    ensures Follows(recs, BoundAll(items), st, out)
    ensures out.result.Success? ==> |out.result.value| == |acc| + |items|
    decreases BoundAll(items), 2, |items|
  {
    if items == [] then Done(acc, st)
    else
      BoundAllElement(items, 0);
      var o := GenSpec(recs, items[0], st);
      if o.result.Failure? then Abort(o)
      else Seq(o, GenItems(recs, items[1..], acc + [o.result.value], o.state))
  }

  /** One element of `x.map(gen)`: generate it, append it, go on with the rest. */
  lemma GenItemsStep(recs: seq<Node>, items: seq<Value>, i: nat, acc: seq<Value>, st: GenState)
    requires WellFormed(recs) && BoundAll(items) <= |recs| && Ordinal(st.mapping) && i < |items|
    ensures BoundAll(items[i..]) <= |recs| && Bound(items[i]) <= |recs| && BoundAll(items[i + 1..]) <= |recs|
    ensures var o := GenSpec(recs, items[i], st);
            GenItems(recs, items[i..], acc, st)
            == if o.result.Failure? then Abort(o) else Seq(o, GenItems(recs, items[i + 1..], acc + [o.result.value], o.state))
  {
    BoundAllDrop(items, i);
    BoundAllDrop(items, i + 1);
    BoundAllElement(items, i);
    assert items[i..][0] == items[i] && items[i..][1..] == items[i + 1..];
  }

  /** One step of `x.map(gen)` that succeeds: the rest of the map continues from its state. */
  lemma GenItemsNext(recs: seq<Node>, items: seq<Value>, i: nat, acc: seq<Value>, st: GenState)
    requires WellFormed(recs) && BoundAll(items) <= |recs| && Ordinal(st.mapping) && i < |items|
    requires BoundAll(items[i..]) <= |recs| && Bound(items[i]) <= |recs| && GenSpec(recs, items[i], st).result.Success?
    ensures BoundAll(items[i + 1..]) <= |recs|
    ensures var o := GenSpec(recs, items[i], st);
            var cur := GenItems(recs, items[i..], acc, st);
            var next := GenItems(recs, items[i + 1..], acc + [o.result.value], o.state);
            cur.result == next.result && cur.state == next.state && cur.emitted == o.emitted + next.emitted
  {
    GenItemsStep(recs, items, i, acc, st);
  }

  /** One step of `x.map(gen)` that fails: the map stops with that failure. */
  lemma GenItemsStop(recs: seq<Node>, items: seq<Value>, i: nat, acc: seq<Value>, st: GenState)
    requires WellFormed(recs) && BoundAll(items) <= |recs| && Ordinal(st.mapping) && i < |items|
    requires BoundAll(items[i..]) <= |recs| && Bound(items[i]) <= |recs| && GenSpec(recs, items[i], st).result.Failure?
    ensures var o := GenSpec(recs, items[i], st);
            var cur := GenItems(recs, items[i..], acc, st);
            cur.result == Failure(o.result.error) && cur.state == o.state && cur.emitted == o.emitted
  {
    GenItemsStep(recs, items, i, acc, st);
  }

  /** `gen(x)` then `gen(y)`. */
  function Pair(recs: seq<Node>, x: Value, y: Value, st: GenState): (out: Outcome<(Value, Value)>)
    requires WellFormed(recs) && Bound(x) <= |recs| && Bound(y) <= |recs| && Ordinal(st.mapping)
    ensures Follows(recs, Max(Bound(x), Bound(y)), st, out)
    decreases Max(Bound(x), Bound(y)), 2
  {
    var o1 := GenSpec(recs, x, st);
    if o1.result.Failure? then Abort(o1)
    else
      var o2 := GenSpec(recs, y, o1.state);
      if o2.result.Failure? then Seq(o1, Abort(o2))
      else Seq(o1, Then(o2, (o1.result.value, o2.result.value)))
  }

  /**
   * `code = keyword + gen(test) + " {\n"`, then `code += "  " + gen(s) + lineEnd` for every `s`
   * of the block, then `"\n}"`: the shape of If, ElseIF and While.
   */
  function Block(recs: seq<Node>, n: nat, keyword: string, test: Value, block: Value, lineEnd: string, st: GenState): (out: Outcome<string>)
    requires WellFormed(recs) && n <= |recs| && Bound(test) <= n && Bound(block) <= n && Ordinal(st.mapping)
    ensures Follows(recs, n, st, out)
    decreases n, 3
  {
    var t := GenSpec(recs, test, st);
    if t.result.Failure? then Abort(t)
    else if !block.List? then Seq(t, Fail(TypeError, t.state))
    else
      var cs := GenItems(recs, block.items, [], t.state);
      if cs.result.Failure? then Seq(t, Abort(cs))
      else Seq(t, Then(cs, keyword + Show(t.result.value) + " {\n" + Wrap("  ", cs.result.value, lineEnd) + "\n}"))
  }

  /** The kinds whose generator makes a statement. */
  predicate IsStatement(n: Node) {
    n.VariableDeclaration? || n.Assignment? || n.IfStatement? || n.ElseIf? || n.Else? || n.WhileStatement?
    || n.ForStatement? || n.FunctionDeclaration? || n.ReturnStatement?
  }

  /** The kinds whose generator makes an expression. */
  predicate IsExpression(n: Node) {
    n.ArrayExpression? || n.ArrayIndexing? || n.Range? || n.UnaryExpression? || n.BinaryExpression?
    || n.Parameter? || n.FunctionCall? || n.MethodCall?
  }

  /** What `generators[kind]` returns for the record at a; None for no generator or a generator returning nothing. */
  function GenCode(recs: seq<Node>, a: nat, st: GenState): (out: Outcome<Option<string>>)
    requires WellFormed(recs) && a < |recs| && Ordinal(st.mapping)
    ensures Evolves(st, out.state)
    ensures !recs[a].Program? ==> Follows(recs, a, st, out)
    ensures out.result.Success? && out.result.value.None? ==> recs[a].Program? || recs[a].TypeDeclaration? || recs[a].SubscriptExpression? || recs[a].MemberExpression?
    decreases a + 1, 0, 2
  {
    var n := recs[a];
    if IsStatement(n) then Defined(GenStatementCode(recs, a, st))
    else if IsExpression(n) then Defined(GenExpressionCode(recs, a, st))
    else if n.Program? then
      var p := GenProgram(recs, a, st);
      if p.result.Failure? then Abort(p) else Then(p, None)
    else if n.TypeDeclaration? || n.SubscriptExpression? || n.MemberExpression? then Done(None, st)
    else if n.EmptyArray? then Done(Some("[]"), st)
    else if n.BreakStatement? then Done(Some("break;"), st)
    else if n.Variable? || n.Function? then Defined(GenTargetName(Code(n.name), st))
    else Fail(NotModelled(ClassLowering), st)
  }

  /** The generators of statement kinds. */
  function GenStatementCode(recs: seq<Node>, a: nat, st: GenState): (out: Outcome<string>)
    requires WellFormed(recs) && a < |recs| && IsStatement(recs[a]) && Ordinal(st.mapping)
    ensures Follows(recs, a, st, out)
    decreases a + 1, 0, 1
  {
    var n := recs[a];
    if n.VariableDeclaration? then GenVariableDeclaration(recs, a, st)
    else if n.Assignment? then GenAssignment(recs, a, st)
    else if n.IfStatement? then GenIf(recs, a, st)
    else if n.ElseIf? then GenElseIf(recs, a, st)
    else if n.Else? then GenElse(recs, a, st)
    else if n.WhileStatement? then GenWhile(recs, a, st)
    else if n.ForStatement? then GenFor(recs, a, st)
    else if n.FunctionDeclaration? then GenFunctionDeclaration(recs, a, st)
    else GenReturn(recs, a, st)
  }

  /** The generators of expression kinds. */
  function GenExpressionCode(recs: seq<Node>, a: nat, st: GenState): (out: Outcome<string>)
    requires WellFormed(recs) && a < |recs| && IsExpression(recs[a]) && Ordinal(st.mapping)
    ensures Follows(recs, a, st, out)
    decreases a + 1, 0, 1
  {
    var n := recs[a];
    if n.ArrayExpression? then GenArray(recs, a, st)
    else if n.ArrayIndexing? then GenArrayIndexing(recs, a, st)
    else if n.Range? then GenRange(recs, a, st)
    else if n.UnaryExpression? then GenUnary(recs, a, st)
    else if n.BinaryExpression? then GenBinary(recs, a, st)
    else if n.Parameter? then GenParameter(recs, a, st)
    else if n.FunctionCall? then GenFunctionCall(recs, a, st)
    else GenMethodCall(recs, a, st)
  }

  /** A generator that returned text. */
  function Lift(r: Result<string, Error>): Result<Option<string>, Error> {
    if r.Success? then Success(Some(r.value)) else Failure(r.error)
  }

  function Defined(o: Outcome<string>): Outcome<Option<string>> {
    Outcome(Lift(o.result), o.state, o.emitted)
  }

  /** `targetName(key)` as a generator step. */
  function GenTargetName(key: Value, st: GenState): (out: Outcome<string>)
    requires Ordinal(st.mapping)
    ensures Evolves(st, out.state) && out.emitted == []
  {
    var (name, m) := TargetName(st.mapping, key);
    Done(name, st.(mapping := m))
  }

  // ---------------------------------------------------------------------------------------------
  // the generators, one per kind

  /** Program: `x.statements.forEach((x) => output.push(gen(x)))`. */
  function GenProgram(recs: seq<Node>, a: nat, st: GenState): (out: Outcome<()>)
    requires WellFormed(recs) && a < |recs| && recs[a].Program? && Ordinal(st.mapping)
    ensures Evolves(st, out.state)
    ensures out.result.Success? ==> recs[a].statements.List? && |out.emitted| >= |recs[a].statements.items|
    decreases a + 1, 0, 0
  {
    FieldsBelow(recs, a);
    var statements := recs[a].statements;
    if !statements.List? then Fail(TypeError, st)
    else GenStatements(recs, statements.items, st)
  }

  /** The `forEach` of Program from `items[0]` on: each statement's result is pushed after its own pushes. */
  function GenStatements(recs: seq<Node>, items: seq<Value>, st: GenState): (out: Outcome<()>)
    requires WellFormed(recs) && BoundAll(items) <= |recs| && Ordinal(st.mapping)
    ensures Evolves(st, out.state)
    ensures out.result.Success? ==> |out.emitted| >= |items|
    decreases BoundAll(items), 2, |items|
  {
    if items == [] then Done((), st)
    else
      BoundAllElement(items, 0);
      var o := GenSpec(recs, items[0], st);
      if o.result.Failure? then Abort(o)
      else
        var rest := GenStatements(recs, items[1..], o.state);
        Outcome(rest.result, rest.state, o.emitted + [o.result.value] + rest.emitted)
  }

  /** One statement of the Program `forEach`: generate it, push the result, go on with the rest. */
  lemma GenStatementsStep(recs: seq<Node>, items: seq<Value>, i: nat, st: GenState)
    requires WellFormed(recs) && BoundAll(items) <= |recs| && Ordinal(st.mapping) && i < |items|
    ensures BoundAll(items[i..]) <= |recs| && Bound(items[i]) <= |recs| && BoundAll(items[i + 1..]) <= |recs|
    ensures var o := GenSpec(recs, items[i], st);
            GenStatements(recs, items[i..], st)
            == if o.result.Failure? then Abort(o)
               else
                 var rest := GenStatements(recs, items[i + 1..], o.state);
                 Outcome(rest.result, rest.state, o.emitted + [o.result.value] + rest.emitted)
  {
    BoundAllDrop(items, i);
    BoundAllDrop(items, i + 1);
    BoundAllElement(items, i);
    assert items[i..][0] == items[i] && items[i..][1..] == items[i + 1..];
  }

  /** One statement of Program that succeeds: its pushes, then its own value, then the rest. */
  lemma GenStatementsNext(recs: seq<Node>, items: seq<Value>, i: nat, st: GenState)
    requires WellFormed(recs) && BoundAll(items) <= |recs| && Ordinal(st.mapping) && i < |items|
    requires BoundAll(items[i..]) <= |recs| && Bound(items[i]) <= |recs| && GenSpec(recs, items[i], st).result.Success?
    ensures BoundAll(items[i + 1..]) <= |recs|
    ensures var o := GenSpec(recs, items[i], st);
            var cur := GenStatements(recs, items[i..], st);
            var next := GenStatements(recs, items[i + 1..], o.state);
            cur.result == next.result && cur.state == next.state && cur.emitted == o.emitted + [o.result.value] + next.emitted
  {
    GenStatementsStep(recs, items, i, st);
  }

  /** One statement of Program that fails: Program stops with that failure. */
  lemma GenStatementsStop(recs: seq<Node>, items: seq<Value>, i: nat, st: GenState)
    requires WellFormed(recs) && BoundAll(items) <= |recs| && Ordinal(st.mapping) && i < |items|
    requires BoundAll(items[i..]) <= |recs| && Bound(items[i]) <= |recs| && GenSpec(recs, items[i], st).result.Failure?
    ensures var o := GenSpec(recs, items[i], st);
            var cur := GenStatements(recs, items[i..], st);
            cur.result == Failure(o.result.error) && cur.state == o.state && cur.emitted == o.emitted
  {
    GenStatementsStep(recs, items, i, st);
  }

  /** Array: `[${x.elements.map(gen).join(",")}]`. */
  function GenArray(recs: seq<Node>, a: nat, st: GenState): (out: Outcome<string>)
    requires WellFormed(recs) && a < |recs| && recs[a].ArrayExpression? && Ordinal(st.mapping)
    ensures Follows(recs, a, st, out)
    decreases a + 1, 0, 0
  {
    FieldsBelow(recs, a);
    var elements := recs[a].elements;
    if !elements.List? then Fail(TypeError, st)
    else
      var es := GenItems(recs, elements.items, [], st);
      if es.result.Failure? then Abort(es)
      else Then(es, "[" + JoinValues(es.result.value, ",") + "]")
  }

  /** ArrayIndexing: `${gen(x.array)}[${gen(x.index)}]`. */
  function GenArrayIndexing(recs: seq<Node>, a: nat, st: GenState): (out: Outcome<string>)
    requires WellFormed(recs) && a < |recs| && recs[a].ArrayIndexing? && Ordinal(st.mapping)
    ensures Follows(recs, a, st, out)
    decreases a + 1, 0, 0
  {
    FieldsBelow(recs, a);
    var p := Pair(recs, recs[a].indexed, recs[a].index, st);
    if p.result.Failure? then Abort(p)
    else Then(p, Show(p.result.value.0) + "[" + Show(p.result.value.1) + "]")
  }

  /** VariableDeclaration: `let ${gen(x.variable)} = ${gen(x.initializer)};`. */
  function GenVariableDeclaration(recs: seq<Node>, a: nat, st: GenState): (out: Outcome<string>)
    requires WellFormed(recs) && a < |recs| && recs[a].VariableDeclaration? && Ordinal(st.mapping)
    ensures Follows(recs, a, st, out)
    decreases a + 1, 0, 0
  {
    FieldsBelow(recs, a);
    var p := Pair(recs, recs[a].variable, recs[a].initializer, st);
    if p.result.Failure? then Abort(p)
    else Then(p, "let " + Show(p.result.value.0) + " = " + Show(p.result.value.1) + ";")
  }

  /** Assignment: `${gen(x.target)} = ${gen(x.source)};`. */
  function GenAssignment(recs: seq<Node>, a: nat, st: GenState): (out: Outcome<string>)
    requires WellFormed(recs) && a < |recs| && recs[a].Assignment? && Ordinal(st.mapping)
    ensures Follows(recs, a, st, out)
    decreases a + 1, 0, 0
  {
    FieldsBelow(recs, a);
    var p := Pair(recs, recs[a].target, recs[a].source, st);
    if p.result.Failure? then Abort(p)
    else Then(p, Show(p.result.value.0) + " = " + Show(p.result.value.1) + ";")
  }

  /** Range: generate start, end, value and op, run the `switch`, and print the elements. */
  function GenRange(recs: seq<Node>, a: nat, st: GenState): (out: Outcome<string>)
    requires WellFormed(recs) && a < |recs| && recs[a].Range? && Ordinal(st.mapping)
    ensures Follows(recs, a, st, out)
    decreases a + 1, 0, 0
  {
    FieldsBelow(recs, a);
    var n := recs[a];
    var bounds := Pair(recs, n.start, n.end, st);
    if bounds.result.Failure? then Abort(bounds)
    else
      var stepOp := Pair(recs, n.value, n.rangeOp, bounds.state);
      if stepOp.result.Failure? then Seq(bounds, Abort(stepOp))
      else
        var elements := RangeElements(stepOp.result.value.1, bounds.result.value.0, bounds.result.value.1, stepOp.result.value.0);
        if elements.Failure? then Seq(bounds, Outcome(Failure(elements.error), stepOp.state, stepOp.emitted))
        else Seq(bounds, Then(stepOp, RangeText(elements.value)))
  }

  /** UnaryExpression: `${x.op}(${gen(x.operand)})`. */
  function GenUnary(recs: seq<Node>, a: nat, st: GenState): (out: Outcome<string>)
    requires WellFormed(recs) && a < |recs| && recs[a].UnaryExpression? && Ordinal(st.mapping)
    ensures Follows(recs, a, st, out)
    decreases a + 1, 0, 0
  {
    FieldsBelow(recs, a);
    var o := GenSpec(recs, recs[a].operand, st);
    if o.result.Failure? then Abort(o)
    else Then(o, recs[a].op + "(" + Show(o.result.value) + ")")
  }

  /** BinaryExpression: `(${gen(x.left)} ${op} ${gen(x.right)})` with the operator mapped. */
  function GenBinary(recs: seq<Node>, a: nat, st: GenState): (out: Outcome<string>)
    requires WellFormed(recs) && a < |recs| && recs[a].BinaryExpression? && Ordinal(st.mapping)
    ensures Follows(recs, a, st, out)
    decreases a + 1, 0, 0
  {
    FieldsBelow(recs, a);
    var p := Pair(recs, recs[a].left, recs[a].right, st);
    if p.result.Failure? then Abort(p)
    else Then(p, "(" + Show(p.result.value.0) + " " + JsOperator(recs[a].op) + " " + Show(p.result.value.1) + ")")
  }

  /** IfStatement: the `if` block, then each ElseIF, then the first element of `otherwise`. */
  function GenIf(recs: seq<Node>, a: nat, st: GenState): (out: Outcome<string>)
    requires WellFormed(recs) && a < |recs| && recs[a].IfStatement? && Ordinal(st.mapping)
    ensures Follows(recs, a, st, out)
    decreases a + 1, 0, 0
  {
    FieldsBelow(recs, a);
    var n := recs[a];
    var head := Block(recs, a, "if ", n.test, n.consequent, "", st);
    if head.result.Failure? then Abort(head)
    else
      var elifs := GenElseIfs(recs, a, n.elseif, head.state);
      if elifs.result.Failure? then Seq(head, Abort(elifs))
      else
        var other := GenOtherwise(recs, a, n.otherwise, elifs.state);
        if other.result.Failure? then Seq(Seq(head, elifs), Abort(other))
        else Seq(Seq(head, elifs), Then(other, head.result.value + elifs.result.value + other.result.value))
  }

  /** What `if (x.elseif.length > 0) x.elseif.map((x) => (code += "\n" + gen(x)))` appends. */
  function GenElseIfs(recs: seq<Node>, n: nat, elseif: Value, st: GenState): (out: Outcome<string>)
    requires WellFormed(recs) && n <= |recs| && Bound(elseif) <= n && Ordinal(st.mapping)
    ensures Follows(recs, n, st, out)
    decreases n, 3
  {
    var populated := Populated(elseif);
    if populated.Failure? then Fail(populated.error, st)
    else if !populated.value then Done("", st)
    else if !elseif.List? then Fail(TypeError, st)
    else
      var es := GenItems(recs, elseif.items, [], st);
      if es.result.Failure? then Abort(es)
      else Then(es, Wrap("\n", es.result.value, ""))
  }

  /** What `if (x.otherwise.length > 0) code += "\n" + gen(x.otherwise[0])` appends. */
  function GenOtherwise(recs: seq<Node>, n: nat, otherwise: Value, st: GenState): (out: Outcome<string>)
    requires WellFormed(recs) && n <= |recs| && Bound(otherwise) <= n && Ordinal(st.mapping)
    ensures Follows(recs, n, st, out)
    decreases n, 3
  {
    var populated := Populated(otherwise);
    if populated.Failure? then Fail(populated.error, st)
    else if !populated.value then Done("", st)
    else
      var o := GenSpec(recs, FirstOf(otherwise), st);
      if o.result.Failure? then Abort(o)
      else Then(o, "\n" + Show(o.result.value))
  }

  /** ElseIF: `else if ${gen(x.test)} {`, the consequent, `}`. */
  function GenElseIf(recs: seq<Node>, a: nat, st: GenState): (out: Outcome<string>)
    requires WellFormed(recs) && a < |recs| && recs[a].ElseIf? && Ordinal(st.mapping)
    ensures Follows(recs, a, st, out)
    decreases a + 1, 0, 0
  {
    FieldsBelow(recs, a);
    Block(recs, a, "else if ", recs[a].test, recs[a].consequent, "", st)
  }

  /** Else: `else {`, the consequent, `}`. */
  function GenElse(recs: seq<Node>, a: nat, st: GenState): (out: Outcome<string>)
    requires WellFormed(recs) && a < |recs| && recs[a].Else? && Ordinal(st.mapping)
    ensures Follows(recs, a, st, out)
    decreases a + 1, 0, 0
  {
    FieldsBelow(recs, a);
    var consequent := recs[a].consequent;
    if !consequent.List? then Fail(TypeError, st)
    else
      var cs := GenItems(recs, consequent.items, [], st);
      if cs.result.Failure? then Abort(cs)
      else Then(cs, "else {\n" + Wrap("  ", cs.result.value, "") + "\n}")
  }

  /** WhileStatement: `while ${gen(x.test)} {`, one line per statement, `}`. */
  function GenWhile(recs: seq<Node>, a: nat, st: GenState): (out: Outcome<string>)
    requires WellFormed(recs) && a < |recs| && recs[a].WhileStatement? && Ordinal(st.mapping)
    ensures Follows(recs, a, st, out)
    decreases a + 1, 0, 0
  {
    FieldsBelow(recs, a);
    Block(recs, a, "while ", recs[a].test, recs[a].body, "\n", st)
  }

  /** ForStatement: the header, then `"  " + gen(s) + "\n"` for each statement, then `}`. */
  function GenFor(recs: seq<Node>, a: nat, st: GenState): (out: Outcome<string>)
    requires WellFormed(recs) && a < |recs| && recs[a].ForStatement? && Ordinal(st.mapping)
    ensures Follows(recs, a, st, out)
    decreases a + 1, 0, 0
  {
    FieldsBelow(recs, a);
    var n := recs[a];
    var header := GenForHeader(recs, a, n.loopVar, n.collection, st);
    if header.result.Failure? then Abort(header)
    else Seq(header, ForBody(recs, a, header.result.value, n.body, header.state))
  }

  /** The rest of a ForStatement after its `header`: `"  " + gen(s) + "\n"` per statement, then `}`. */
  function ForBody(recs: seq<Node>, n: nat, header: string, body: Value, st: GenState): (out: Outcome<string>)
    requires WellFormed(recs) && n <= |recs| && Bound(body) <= n && Ordinal(st.mapping)
    ensures Follows(recs, n, st, out)
    decreases n, 3
  {
    if !body.List? then Fail(TypeError, st)
    else
      var bs := GenItems(recs, body.items, [], st);
      if bs.result.Failure? then Abort(bs)
      else Then(bs, header + Wrap("  ", bs.result.value, "\n") + "}\n")
  }

  /** The `for` header: over a Range record, or a counted loop up to the generated collection. */
  function GenForHeader(recs: seq<Node>, n: nat, loopVar: Value, collection: Value, st: GenState): (out: Outcome<string>)
    requires WellFormed(recs) && n <= |recs| && Bound(loopVar) <= n && Bound(collection) <= n && Ordinal(st.mapping)
    ensures Follows(recs, n, st, out)
    decreases n, 4
  {
    if Nullish(collection) then Fail(TypeError, st)
    else if collection.Ref? && recs[collection.addr].Range? then GenForRangeHeader(recs, n, loopVar, collection.addr, st)
    else
      var name := NameOf(recs, loopVar);
      if name.None? then Fail(TypeError, st)
      else
        var (i, m) := TargetName(st.mapping, name.value);
        var count := GenSpec(recs, collection, st.(mapping := m));
        if count.result.Failure? then Abort(count)
        else Then(count, CountedHeader(i, Show(count.result.value)))
  }

  /** The header over the Range record at c: start, end and step are generated, the operator is not. */
  function GenForRangeHeader(recs: seq<Node>, n: nat, loopVar: Value, c: nat, st: GenState): (out: Outcome<string>)
    requires WellFormed(recs) && c < n <= |recs| && recs[c].Range? && Bound(loopVar) <= n && Ordinal(st.mapping)
    ensures Follows(recs, n, st, out)
    decreases n, 3
  {
    FieldsBelow(recs, c);
    var range := recs[c];
    var bounds := Pair(recs, range.start, range.end, st);
    if bounds.result.Failure? then Abort(bounds)
    else
      var step := GenSpec(recs, range.value, bounds.state);
      if step.result.Failure? then Seq(bounds, Abort(step))
      else
        var name := NameOf(recs, loopVar);
        if name.None? then Seq(Seq(bounds, step), Fail(TypeError, step.state))
        else
          var (i, m) := TargetName(step.state.mapping, name.value);
          var op := range.rangeOp;
          var header := RangeHeader(i, Show(bounds.result.value.0), ForTest(op), Show(bounds.result.value.1), Show(op), Show(step.result.value));
          Seq(Seq(bounds, step), Done(header, step.state.(mapping := m)))
  }

  function RangeHeader(i: string, start: string, test: string, end: string, op: string, step: string): string {
    "for (let " + i + " = " + start + "; " + i + " " + test + " " + end + "; " + i + " " + op + "= " + step + ") {\n"
  }

  function CountedHeader(i: string, count: string): string {
    "for (let " + i + " = 1; " + i + " <= " + count + "; " + i + "++) {\n"
  }

  /** FunctionDeclaration: `function name(params) {`, the body, `}`. */
  function GenFunctionDeclaration(recs: seq<Node>, a: nat, st: GenState): (out: Outcome<string>)
    requires WellFormed(recs) && a < |recs| && recs[a].FunctionDeclaration? && Ordinal(st.mapping)
    ensures Follows(recs, a, st, out)
    decreases a + 1, 0, 0
  {
    FieldsBelow(recs, a);
    var fun := recs[a].fun;
    var f := GenSpec(recs, fun, st);
    if f.result.Failure? then Abort(f)
    else if !(fun.Ref? && recs[fun.addr].Function?) then Seq(f, Fail(TypeError, f.state))
    else Seq(f, GenFunctionParts(recs, a, Show(f.result.value), recs[fun.addr].params, recs[fun.addr].body, f.state))
  }

  /** `x.fun.params.map(gen)`, then `x.fun.body.map(...)`, and the text of the whole function. */
  function GenFunctionParts(recs: seq<Node>, n: nat, name: string, params: Value, body: Value, st: GenState): (out: Outcome<string>)
    requires WellFormed(recs) && n <= |recs| && Bound(params) <= n && Bound(body) <= n && Ordinal(st.mapping)
    ensures Follows(recs, n, st, out)
    decreases n, 3
  {
    if !params.List? then Fail(TypeError, st)
    else
      var ps := GenItems(recs, params.items, [], st);
      if ps.result.Failure? then Abort(ps)
      else if !body.List? then Seq(ps, Fail(TypeError, ps.state))
      else
        var bs := GenItems(recs, body.items, [], ps.state);
        if bs.result.Failure? then Seq(ps, Abort(bs))
        else Seq(ps, Then(bs, FunctionText(name, ps.result.value, bs.result.value, BodyLineEnd)))
  }

  /**
   * What each body statement of a FunctionDeclaration is followed by in `code`: nothing. The
   * callback of `x.fun.body.map` adds `gen(x)` to `code` and appends `"\n"` only to the value
   * it returns, which `map` then drops.
   */
  const BodyLineEnd := ""

  /** `function name(p1, p2) {\n`, every body statement followed by `lineEnd`, then `\n}\n`. */
  function FunctionText(name: string, params: seq<Value>, body: seq<Value>, lineEnd: string): string {
    "function " + name + "(" + JoinValues(params, ", ") + ") {\n" + Wrap("", body, lineEnd) + "\n}\n"
  }

  /** The key a Parameter is renamed under: `x.name`, a field a Parameter record does not have. */
  function ParameterKey(n: Node): Value
    requires n.Parameter?
  {
    NameField(n)
  }

  /** Parameter: `name = gen(defaultValue)` when the default is truthy, else `name`. */
  function GenParameter(recs: seq<Node>, a: nat, st: GenState): (out: Outcome<string>)
    requires WellFormed(recs) && a < |recs| && recs[a].Parameter? && Ordinal(st.mapping)
    ensures Follows(recs, a, st, out)
    decreases a + 1, 0, 0
  {
    FieldsBelow(recs, a);
    var (name, m) := TargetName(st.mapping, ParameterKey(recs[a]));
    var st1 := st.(mapping := m);
    if !Truthy(recs[a].defaultValue) then Done(name, st1)
    else
      var d := GenSpec(recs, recs[a].defaultValue, st1);
      if d.result.Failure? then Abort(d)
      else Then(d, name + " = " + Show(d.result.value))
  }

  /** ReturnStatement: `return;` for an undefined expression, else `return e;`. */
  function GenReturn(recs: seq<Node>, a: nat, st: GenState): (out: Outcome<string>)
    requires WellFormed(recs) && a < |recs| && recs[a].ReturnStatement? && Ordinal(st.mapping)
    ensures Follows(recs, a, st, out)
    decreases a + 1, 0, 0
  {
    FieldsBelow(recs, a);
    var e := GenSpec(recs, recs[a].expression, st);
    if e.result.Failure? then Abort(e)
    else Then(e, ReturnText(e.result.value))
  }

  function ReturnText(e: Value): string {
    "return" + (if e == Undefined then "" else " " + Show(e)) + ";"
  }

  /** FunctionCall: `console.log(...)` for a callee named "print", else the call, with `new ` for a class. */
  function GenFunctionCall(recs: seq<Node>, a: nat, st: GenState): (out: Outcome<string>)
    requires WellFormed(recs) && a < |recs| && recs[a].FunctionCall? && Ordinal(st.mapping)
    ensures Follows(recs, a, st, out)
    decreases a + 1, 0, 0
  {
    FieldsBelow(recs, a);
    var n := recs[a];
    var name := NameOf(recs, n.callee);
    if name.None? then Fail(TypeError, st)
    else if name.value == Code("print") then
      if !n.args.List? then Fail(TypeError, st)
      else
        var args := GenItems(recs, n.args.items, [], st);
        if args.result.Failure? then Abort(args)
        else Then(args, "console.log(" + JoinValues(args.result.value, ", ") + ");")
    else
      var isClass := name.value in st.classes;
      var callee := GenSpec(recs, n.callee, st);
      if callee.result.Failure? then Abort(callee)
      else if !n.args.List? then Seq(callee, Fail(TypeError, callee.state))
      else
        var args := GenItems(recs, n.args.items, [], callee.state);
        if args.result.Failure? then Seq(callee, Abort(args))
        else Seq(callee, Then(args, CallText(isClass, Show(callee.result.value), args.result.value)))
  }

  function CallText(isClass: bool, callee: string, args: seq<Value>): string {
    (if isClass then "new " else "") + callee + "(" + JoinValues(args, ", ") + ")"
  }

  /** The key a MethodCall's method is renamed under: `x.name`, a field a MethodCall record does not have. */
  function MethodKey(n: Node): Value
    requires n.MethodCall?
  {
    NameField(n)
  }

  /** MethodCall: the arguments, then the receiver, then the renamed method: `obj.m_k(args)`. */
  function GenMethodCall(recs: seq<Node>, a: nat, st: GenState): (out: Outcome<string>)
    requires WellFormed(recs) && a < |recs| && recs[a].MethodCall? && Ordinal(st.mapping)
    ensures Follows(recs, a, st, out)
    decreases a + 1, 0, 0
  {
    FieldsBelow(recs, a);
    var n := recs[a];
    if !n.args.List? then Fail(TypeError, st)
    else
      var args := GenItems(recs, n.args.items, [], st);
      if args.result.Failure? then Abort(args)
      else
        var receiver := GenSpec(recs, n.receiver, args.state);
        if receiver.result.Failure? then Seq(args, Abort(receiver))
        else
          var (name, m) := TargetName(receiver.state.mapping, MethodKey(n));
          Seq(Seq(args, receiver), Done(Show(receiver.result.value) + "." + name + "(" + JoinValues(args.result.value, ",") + ")", receiver.state.(mapping := m)))
  }

  /** The state a run starts from: no classes, no names. */
  const Initial := GenState([], map[])

  /** `generate(program)`: run `gen` on the program, then join what was pushed with newlines. */
  function Generate(recs: seq<Node>, program: Value): Result<string, Error>
    requires WellFormed(recs) && Bound(program) <= |recs|
  {
    var g := GenSpec(recs, program, Initial);
    if g.result.Failure? then Failure(g.result.error) else Success(JoinValues(g.emitted, "\n"))
  }
}
