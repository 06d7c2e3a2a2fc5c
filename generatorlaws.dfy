/**
 * What a run of src/generator.js promises, stated over the functions of `Codegen`: Program pushes
 * one entry per statement, in order, and `generate` joins them with newlines; every name is
 * rendered the same way throughout a run, and different names differently; a value without a
 * generator comes out as itself; literals, calls and loop headers render as the source writes them.
 * Also the three places where the code as written departs from what it evidently means, each
 * next to its corrected form.
 */
module CodegenLaws {
  import opened Wrappers
  import opened Strings
  import opened Types
  import opened Ir
  import opened Render
  import opened TargetNames
  import opened Codegen

  // ---------------------------------------------------------------------------------------------
  // Program and generate

  lemma NoProgramBelowLess(recs: seq<Node>, m: nat, n: nat)
    requires m <= n <= |recs| && NoProgramBelow(recs, n)
    ensures NoProgramBelow(recs, m)
  {
  }

  /** The `forEach` of Program and `map(gen)` over the same statements end alike, and the map's result is what was pushed. */
  predicate PushesLikeMap(s: Outcome<()>, g: Outcome<seq<Value>>, acc: seq<Value>) {
    && s.state == g.state
    && (s.result.Success? <==> g.result.Success?)
    && (s.result.Failure? ==> s.result.error == g.result.error)
    && (g.result.Success? ==> g.result.value == acc + s.emitted)
  }

  /**
   * Without a nested Program, no statement pushes anything itself, so the `forEach` of Program
   * pushes exactly `x.statements.map(gen)`, and stops at the same statement with the same error.
   */
  lemma {:induction false} StatementsPushTheirCode(recs: seq<Node>, items: seq<Value>, acc: seq<Value>, st: GenState)
    requires WellFormed(recs) && BoundAll(items) <= |recs| && Ordinal(st.mapping) && NoProgramBelow(recs, BoundAll(items))
    ensures var s := GenStatements(recs, items, st);
            var g := GenItems(recs, items, acc, st);
            && s.state == g.state
            && (s.result.Success? <==> g.result.Success?)
            && (s.result.Failure? ==> s.result.error == g.result.error)
            && (g.result.Success? ==> g.result.value == acc + s.emitted)
    decreases |items|
  {
    if items != [] {
      BoundAllElement(items, 0);
      var o := GenSpec(recs, items[0], st);
      if o.result.Failure? {
        FirstStatementFails(recs, items, acc, st);
      } else {
        BoundAllDrop(items, 1);
        NoProgramBelowLess(recs, BoundAll(items[1..]), BoundAll(items));
        StatementsPushTheirCode(recs, items[1..], acc + [o.result.value], o.state);
        FirstStatementSucceeds(recs, items, acc, st);
      }
    }
  }

  /** A first statement that throws stops both the `forEach` and the map, with its own error. */
  lemma FirstStatementFails(recs: seq<Node>, items: seq<Value>, acc: seq<Value>, st: GenState)
    requires WellFormed(recs) && BoundAll(items) <= |recs| && Ordinal(st.mapping) && NoProgramBelow(recs, BoundAll(items))
    requires items != [] && Bound(items[0]) <= |recs| && GenSpec(recs, items[0], st).result.Failure?
    ensures PushesLikeMap(GenStatements(recs, items, st), GenItems(recs, items, acc, st), acc)
  {
    assert items[0..] == items;
    GenStatementsStop(recs, items, 0, st);
    GenItemsStop(recs, items, 0, acc, st);
  }

  /** A first statement that succeeds pushes nothing itself, so both go on alike with the rest. */
  lemma FirstStatementSucceeds(recs: seq<Node>, items: seq<Value>, acc: seq<Value>, st: GenState)
    requires WellFormed(recs) && BoundAll(items) <= |recs| && Ordinal(st.mapping) && NoProgramBelow(recs, BoundAll(items))
    requires items != [] && Bound(items[0]) <= |recs| && BoundAll(items[1..]) <= |recs|
    requires GenSpec(recs, items[0], st).result.Success?
    requires var o := GenSpec(recs, items[0], st);
             PushesLikeMap(GenStatements(recs, items[1..], o.state), GenItems(recs, items[1..], acc + [o.result.value], o.state), acc + [o.result.value])
    ensures PushesLikeMap(GenStatements(recs, items, st), GenItems(recs, items, acc, st), acc)
  {
    var o := GenSpec(recs, items[0], st);
    var v := o.result.value;
    var s := GenStatements(recs, items, st);
    var g := GenItems(recs, items, acc, st);
    var s' := GenStatements(recs, items[1..], o.state);
    var g' := GenItems(recs, items[1..], acc + [v], o.state);
    assert o.emitted == [] by {
      NoProgramBelowLess(recs, Bound(items[0]), BoundAll(items));
    }
    assert s.result == s'.result && s.state == s'.state && s.emitted == [v] + s'.emitted by {
      assert items[0..] == items;
      GenStatementsNext(recs, items, 0, st);
      assert s.emitted == o.emitted + [v] + s'.emitted;
      ConsAssociates(o.emitted, v, s'.emitted);
      EmptyLeft(o.emitted, [v] + s'.emitted);
    }
    assert g.result == g'.result && g.state == g'.state by {
      assert items[0..] == items;
      GenItemsNext(recs, items, 0, acc, st);
    }
    ConsAssociates(acc, v, s'.emitted);
  }

  lemma EmptyLeft<T>(a: seq<T>, b: seq<T>)
    requires a == []
    ensures a + b == b
  {
  }

  lemma ConsAssociates<T>(a: seq<T>, x: T, b: seq<T>)
    ensures a + [x] + b == a + ([x] + b)
  {
  }

  /** `x.statements` of a Program record holding an array: values of records below it. */
  function StatementsOf(recs: seq<Node>, a: nat): (items: seq<Value>)
    requires WellFormed(recs) && a < |recs| && recs[a].Program? && recs[a].statements.List?
    ensures items == recs[a].statements.items && BoundAll(items) <= a
  {
    FieldsBelow(recs, a);
    assert Bound(recs[a].statements) <= a;
    recs[a].statements.items
  }

  /** Program: the entries pushed are the generated statements, one each, in their order. */
  lemma ProgramPushesStatements(recs: seq<Node>, a: nat, st: GenState)
    requires WellFormed(recs) && a < |recs| && recs[a].Program? && Ordinal(st.mapping) && NoProgramBelow(recs, a)
    ensures var p := GenProgram(recs, a, st);
            var statements := recs[a].statements;
            && (!statements.List? ==> p.result == Failure(TypeError))
            && (statements.List? ==>
                  var g := GenItems(recs, StatementsOf(recs, a), [], st);
                  && p.state == g.state
                  && (p.result.Success? <==> g.result.Success?)
                  && (g.result.Success? ==> p.emitted == g.result.value && |p.emitted| == |statements.items|))
  {
    FieldsBelow(recs, a);
    var statements := recs[a].statements;
    if statements.List? {
      assert BoundAll(statements.items) <= a by {
        assert Bound(statements) <= a;
      }
      NoProgramBelowLess(recs, BoundAll(statements.items), a);
      StatementsPushTheirCode(recs, statements.items, [], st);
    }
  }

  /** `gen` of a Program record runs its generator, which returns nothing, so the result is the record. */
  lemma ProgramRecord(recs: seq<Node>, a: nat, st: GenState)
    requires WellFormed(recs) && a < |recs| && recs[a].Program? && Ordinal(st.mapping)
    ensures var p := GenProgram(recs, a, st);
            var o := GenSpec(recs, Ref(a), st);
            o.result == (if p.result.Success? then Success(Ref(a)) else Failure(p.result.error)) && o.state == p.state && o.emitted == p.emitted
  {
    assert !IsStatement(recs[a]) && !IsExpression(recs[a]);
  }

  /** `generate` on a Program record: what its generator pushed, joined with newlines. */
  lemma GenerateProgram(recs: seq<Node>, a: nat)
    requires WellFormed(recs) && a < |recs| && recs[a].Program?
    ensures var p := GenProgram(recs, a, Initial);
            Generate(recs, Ref(a)) == if p.result.Success? then Success(JoinValues(p.emitted, "\n")) else Failure(p.result.error)
  {
    ProgramRecord(recs, a, Initial);
  }

  /** `generate(program)`: the generated statements of the program, joined with newlines. */
  lemma GenerateJoinsStatements(recs: seq<Node>, a: nat)
    requires WellFormed(recs) && a < |recs| && recs[a].Program? && NoProgramBelow(recs, a)
    requires recs[a].statements.List?
    ensures var g := GenItems(recs, StatementsOf(recs, a), [], Initial);
            && (Generate(recs, Ref(a)).Success? <==> g.result.Success?)
            && (g.result.Success? ==> Generate(recs, Ref(a)) == Success(JoinValues(g.result.value, "\n")))
  {
    ProgramPushesStatements(recs, a, Initial);
    GenerateProgram(recs, a);
  }

  // ---------------------------------------------------------------------------------------------
  // names

  /** `gen` of a Variable or Function record is `targetName(x.name)`, which pushes nothing. */
  lemma NamedRecord(recs: seq<Node>, a: nat, st: GenState)
    requires WellFormed(recs) && a < |recs| && (recs[a].Variable? || recs[a].Function?) && Ordinal(st.mapping)
    ensures var o := GenSpec(recs, Ref(a), st);
            var t := GenTargetName(NameField(recs[a]), st);
            && t.result.Success? && NameField(recs[a]) in t.state.mapping
            && t.result.value == Named(t.state.mapping, NameField(recs[a]))
            && o == Outcome(Success(Code(t.result.value)), t.state, [])
  {
    assert !IsStatement(recs[a]) && !IsExpression(recs[a]);
  }

  /** A name generated once is generated the same way at every later point of the run. */
  lemma NameStable(recs: seq<Node>, a: nat, st: GenState, later: GenState)
    requires WellFormed(recs) && a < |recs| && (recs[a].Variable? || recs[a].Function?) && Ordinal(st.mapping)
    requires Evolves(GenSpec(recs, Ref(a), st).state, later)
    ensures GenSpec(recs, Ref(a), later).result == GenSpec(recs, Ref(a), st).result
  {
    NamedRecord(recs, a, st);
    NamedRecord(recs, a, later);
  }

  /** A name numbered earlier and a different name numbered then or later render differently. */
  lemma NamedDistinctLater(m1: map<Value, nat>, m2: map<Value, nat>, ka: Value, kb: Value)
    requires Ordinal(m2) && Extends(m1, m2) && ka in m1 && kb in m2 && ka != kb
    ensures Named(m1, ka) != Named(m2, kb)
  {
    if Named(m1, ka) == Named(m2, kb) {
      assert Named(m2, ka) == Named(m1, ka);
      NamedInjective(m2, ka, kb);
    }
  }

  /** `targetName` of two different names, the second at the same point of the run or later: different texts. */
  lemma TargetNamesDistinct(ka: Value, kb: Value, st: GenState, later: GenState)
    requires Ordinal(st.mapping) && ka != kb && Evolves(GenTargetName(ka, st).state, later)
    ensures GenTargetName(kb, later).result != GenTargetName(ka, st).result
  {
    var o1 := GenTargetName(ka, st);
    var o2 := GenTargetName(kb, later);
    NamedDistinctLater(o1.state.mapping, o2.state.mapping, ka, kb);
  }

  /** The `?? node` of `gen`: a plain value, or a record whose kind has no generator, is its own result. */
  lemma NoGeneratorYieldsNode(recs: seq<Node>, v: Value, st: GenState)
    requires WellFormed(recs) && Bound(v) <= |recs| && Ordinal(st.mapping)
    requires v.Ref? ==> recs[v.addr].TypeDeclaration? || recs[v.addr].SubscriptExpression? || recs[v.addr].MemberExpression?
    ensures GenSpec(recs, v, st) == Done(v, st)
  {
  }

  // ---------------------------------------------------------------------------------------------
  // operators

  /** `=` and `!=` come out strict; every other operator, `==` included, is written as it is. */
  lemma StrictComparisons(op: string)
    ensures JsOperator(op) != "!=" && JsOperator(op) != "="
    ensures JsOperator(op) == "===" <==> op == "=" || op == "==="
    ensures JsOperator(op) == "!==" <==> op == "!=" || op == "!=="
    ensures op != "=" && op != "!=" ==> JsOperator(op) == op
  {
  }

  // ---------------------------------------------------------------------------------------------
  // rendering

  /** `x.map(gen)` over literals gives them back as they are, numbering and pushing nothing. */
  lemma LiteralsGenerateThemselves(recs: seq<Node>, items: seq<Value>, acc: seq<Value>, st: GenState)
    requires WellFormed(recs) && BoundAll(items) <= |recs| && Ordinal(st.mapping)
    requires forall i :: 0 <= i < |items| ==> items[i].Lit?
    ensures var g := GenItems(recs, items, acc, st);
            g.result == Success(acc + items) && g.state == st && g.emitted == []
  {
    LiteralsFrom(recs, items, 0, acc, st);
    assert items[0..] == items;
  }

  /** The same from index i on, with `acc` holding the literals before it. */
  lemma {:induction false} LiteralsFrom(recs: seq<Node>, items: seq<Value>, i: nat, acc: seq<Value>, st: GenState)
    requires WellFormed(recs) && BoundAll(items) <= |recs| && Ordinal(st.mapping) && i <= |items|
    requires forall k :: 0 <= k < |items| ==> items[k].Lit?
    ensures BoundAll(items[i..]) <= |recs|
    ensures var g := GenItems(recs, items[i..], acc, st);
            g.result == Success(acc + items[i..]) && g.state == st && g.emitted == []
    decreases |items| - i
  {
    BoundAllDrop(items, i);
    if i == |items| {
      assert items[i..] == [] && acc + items[i..] == acc;
    } else {
      BoundAllElement(items, i);
      NoGeneratorYieldsNode(recs, items[i], st);
      GenItemsNext(recs, items, i, acc, st);
      LiteralsFrom(recs, items, i + 1, acc + [items[i]], st);
      assert acc + [items[i]] + items[i + 1..] == acc + items[i..] by {
        assert items[i..] == [items[i]] + items[i + 1..];
      }
    }
  }

  /** A BinaryExpression over two literals renders as `(l op r)`, with `=` and `!=` made strict. */
  lemma BinaryRenders(recs: seq<Node>, a: nat, st: GenState)
    requires WellFormed(recs) && a < |recs| && recs[a].BinaryExpression? && Ordinal(st.mapping)
    requires recs[a].left.Lit? && recs[a].right.Lit?
    ensures var n := recs[a];
            var op := if n.op == "=" then "===" else if n.op == "!=" then "!==" else n.op;
            GenSpec(recs, Ref(a), st) == Outcome(Success(Code("(" + Show(n.left) + " " + op + " " + Show(n.right) + ")")), st, [])
  {
    var n := recs[a];
    FieldsBelow(recs, a);
    assert GenSpec(recs, n.left, st) == Done(n.left, st);
    assert GenSpec(recs, n.right, st) == Done(n.right, st);
    assert Pair(recs, n.left, n.right, st) == Outcome(Success((n.left, n.right)), st, []);
    var text := "(" + Show(n.left) + " " + JsOperator(n.op) + " " + Show(n.right) + ")";
    assert GenBinary(recs, a, st) == Done(text, st);
    assert IsExpression(n) && !IsStatement(n);
    assert GenExpressionCode(recs, a, st) == Done(text, st);
    assert GenCode(recs, a, st) == Done(Some(text), st);
  }

  /** A UnaryExpression over a value with no generator renders as `op(v)`. */
  lemma UnaryRenders(recs: seq<Node>, a: nat, st: GenState)
    requires WellFormed(recs) && a < |recs| && recs[a].UnaryExpression? && Ordinal(st.mapping)
    requires !recs[a].operand.Ref?
    ensures GenSpec(recs, Ref(a), st) == Outcome(Success(Code(recs[a].op + "(" + Show(recs[a].operand) + ")")), st, [])
  {
    var n := recs[a];
    FieldsBelow(recs, a);
    assert GenSpec(recs, n.operand, st) == Done(n.operand, st);
    var text := n.op + "(" + Show(n.operand) + ")";
    assert GenUnary(recs, a, st) == Done(text, st);
    assert IsExpression(n) && !IsStatement(n);
    assert GenExpressionCode(recs, a, st) == Done(text, st);
    assert GenCode(recs, a, st) == Done(Some(text), st);
  }

  /** An ArrayIndexing over values with no generator renders as `a[i]`. */
  lemma ArrayIndexingRenders(recs: seq<Node>, a: nat, st: GenState)
    requires WellFormed(recs) && a < |recs| && recs[a].ArrayIndexing? && Ordinal(st.mapping)
    requires !recs[a].indexed.Ref? && !recs[a].index.Ref?
    ensures GenSpec(recs, Ref(a), st) == Outcome(Success(Code(Show(recs[a].indexed) + "[" + Show(recs[a].index) + "]")), st, [])
  {
    var n := recs[a];
    FieldsBelow(recs, a);
    assert GenSpec(recs, n.indexed, st) == Done(n.indexed, st);
    assert GenSpec(recs, n.index, st) == Done(n.index, st);
    assert Pair(recs, n.indexed, n.index, st) == Outcome(Success((n.indexed, n.index)), st, []);
    var text := Show(n.indexed) + "[" + Show(n.index) + "]";
    assert GenArrayIndexing(recs, a, st) == Done(text, st);
    assert IsExpression(n) && !IsStatement(n);
    assert GenExpressionCode(recs, a, st) == Done(text, st);
    assert GenCode(recs, a, st) == Done(Some(text), st);
  }

  /**
   * `gen` of a Variable record followed by `gen` of a value with no generator: the variable's
   * target name, then the value itself, with only the name's numbering changing the state.
   */
  lemma VariableThenValue(recs: seq<Node>, b: nat, v: Value, st: GenState)
    requires WellFormed(recs) && b < |recs| && recs[b].Variable? && Bound(v) <= |recs| && !v.Ref? && Ordinal(st.mapping)
    ensures var t := TargetName(st.mapping, NameField(recs[b]));
            Pair(recs, Ref(b), v, st) == Outcome(Success((Code(t.0), v)), st.(mapping := t.1), [])
            && Show(Code(t.0)) == t.0
  {
    var t := TargetName(st.mapping, NameField(recs[b]));
    NamedRecord(recs, b, st);
    assert GenSpec(recs, Ref(b), st) == Outcome(Success(Code(t.0)), st.(mapping := t.1), []);
    assert GenSpec(recs, v, st.(mapping := t.1)) == Done(v, st.(mapping := t.1));
    ShowCode(t.0);
  }

  /**
   * An Assignment to a Variable record from a value with no generator renders as `x_k = v;`,
   * where `x_k` is the variable's target name; only that name's numbering changes the state.
   */
  lemma AssignmentRenders(recs: seq<Node>, a: nat, st: GenState)
    requires WellFormed(recs) && a < |recs| && recs[a].Assignment? && Ordinal(st.mapping)
    requires recs[a].target.Ref? && recs[a].target.addr < |recs| && recs[recs[a].target.addr].Variable?
    requires !recs[a].source.Ref?
    ensures var t := TargetName(st.mapping, NameField(recs[recs[a].target.addr]));
            GenSpec(recs, Ref(a), st) == Outcome(Success(Code(t.0 + " = " + Show(recs[a].source) + ";")), st.(mapping := t.1), [])
  {
    var n := recs[a];
    FieldsBelow(recs, a);
    var t := TargetName(st.mapping, NameField(recs[n.target.addr]));
    VariableThenValue(recs, n.target.addr, n.source, st);
    var st1 := st.(mapping := t.1);
    var text := t.0 + " = " + Show(n.source) + ";";
    assert GenAssignment(recs, a, st) == Done(text, st1);
    assert IsStatement(n);
    assert GenStatementCode(recs, a, st) == Done(text, st1);
    assert GenCode(recs, a, st) == Done(Some(text), st1);
  }

  /**
   * A VariableDeclaration of a Variable record initialized with a value with no generator renders
   * as `let x_k = v;`, whether or not the variable is mutable.
   */
  lemma VariableDeclarationRenders(recs: seq<Node>, a: nat, st: GenState)
    requires WellFormed(recs) && a < |recs| && recs[a].VariableDeclaration? && Ordinal(st.mapping)
    requires recs[a].variable.Ref? && recs[a].variable.addr < |recs| && recs[recs[a].variable.addr].Variable?
    requires !recs[a].initializer.Ref?
    ensures var t := TargetName(st.mapping, NameField(recs[recs[a].variable.addr]));
            GenSpec(recs, Ref(a), st) == Outcome(Success(Code("let " + t.0 + " = " + Show(recs[a].initializer) + ";")), st.(mapping := t.1), [])
  {
    var n := recs[a];
    FieldsBelow(recs, a);
    var t := TargetName(st.mapping, NameField(recs[n.variable.addr]));
    VariableThenValue(recs, n.variable.addr, n.initializer, st);
    var st1 := st.(mapping := t.1);
    var text := "let " + t.0 + " = " + Show(n.initializer) + ";";
    assert GenVariableDeclaration(recs, a, st) == Done(text, st1);
    assert IsStatement(n);
    assert GenStatementCode(recs, a, st) == Done(text, st1);
    assert GenCode(recs, a, st) == Done(Some(text), st1);
  }

  /** A ReturnStatement renders as `return;` for undefined and as `return v;` for any other value with no generator. */
  lemma ReturnRenders(recs: seq<Node>, a: nat, st: GenState)
    requires WellFormed(recs) && a < |recs| && recs[a].ReturnStatement? && Ordinal(st.mapping)
    requires !recs[a].expression.Ref?
    ensures var e := recs[a].expression;
            GenSpec(recs, Ref(a), st) == Outcome(Success(Code(if e == Undefined then "return;" else "return " + Show(e) + ";")), st, [])
  {
    var n := recs[a];
    FieldsBelow(recs, a);
    assert GenSpec(recs, n.expression, st) == Done(n.expression, st);
    var text := ReturnText(n.expression);
    assert text == if n.expression == Undefined then "return;" else "return " + Show(n.expression) + ";" by {
      if n.expression == Undefined {
        assert "return" + "" + ";" == "return;";
      } else {
        assert "return" + (" " + Show(n.expression)) + ";" == "return " + Show(n.expression) + ";";
      }
    }
    assert GenReturn(recs, a, st) == Done(text, st);
    assert IsStatement(n);
    assert GenStatementCode(recs, a, st) == Done(text, st);
    assert GenCode(recs, a, st) == Done(Some(text), st);
  }

  /**
   * A WhileStatement with a test and body statements that have no generator renders as
   * `while t {`, then `"  " + s + "\n"` for each statement, then a newline and `}`.
   */
  lemma WhileRenders(recs: seq<Node>, a: nat, st: GenState)
    requires WellFormed(recs) && a < |recs| && recs[a].WhileStatement? && Ordinal(st.mapping)
    requires !recs[a].test.Ref? && recs[a].body.List? && forall i :: 0 <= i < |recs[a].body.items| ==> recs[a].body.items[i].Lit?
    ensures var n := recs[a];
            GenSpec(recs, Ref(a), st) == Outcome(Success(Code("while " + Show(n.test) + " {\n" + Wrap("  ", n.body.items, "\n") + "\n}")), st, [])
  {
    var n := recs[a];
    FieldsBelow(recs, a);
    assert BoundAll(n.body.items) == Bound(n.body) <= a;
    assert GenSpec(recs, n.test, st) == Done(n.test, st);
    LiteralsGenerateThemselves(recs, n.body.items, [], st);
    assert [] + n.body.items == n.body.items;
    var text := "while " + Show(n.test) + " {\n" + Wrap("  ", n.body.items, "\n") + "\n}";
    assert Block(recs, a, "while ", n.test, n.body, "\n", st) == Done(text, st);
    assert GenWhile(recs, a, st) == Done(text, st);
    assert IsStatement(n);
    assert GenStatementCode(recs, a, st) == Done(text, st);
    assert GenCode(recs, a, st) == Done(Some(text), st);
  }

  /**
   * A call of a function named "print" becomes `console.log(args)`: the callee itself is not
   * generated, so the call numbers no name.
   */
  lemma PrintCallsConsoleLog(recs: seq<Node>, a: nat, st: GenState)
    requires WellFormed(recs) && a < |recs| && recs[a].FunctionCall? && Ordinal(st.mapping)
    requires recs[a].callee.Ref? && recs[a].callee.addr < |recs|
    requires recs[recs[a].callee.addr].Function? && recs[recs[a].callee.addr].name == "print"
    requires recs[a].args.List? && forall i :: 0 <= i < |recs[a].args.items| ==> recs[a].args.items[i].Lit?
    ensures GenFunctionCall(recs, a, st) == Outcome(Success("console.log(" + JoinValues(recs[a].args.items, ", ") + ");"), st, [])
  {
    FieldsBelow(recs, a);
    var items := recs[a].args.items;
    LiteralsGenerateThemselves(recs, items, [], st);
    assert [] + items == items;
    assert NameOf(recs, recs[a].callee) == Some(Code("print"));
  }

  /**
   * Any other call of a named function renders as `f_k(args)`, with `new ` in front exactly when
   * the callee's name is one of the run's classes.
   */
  lemma CallRendersCallee(recs: seq<Node>, a: nat, st: GenState)
    requires WellFormed(recs) && a < |recs| && recs[a].FunctionCall? && Ordinal(st.mapping)
    requires recs[a].callee.Ref? && recs[a].callee.addr < |recs|
    requires recs[recs[a].callee.addr].Function? && recs[recs[a].callee.addr].name != "print"
    requires recs[a].args.List? && forall i :: 0 <= i < |recs[a].args.items| ==> recs[a].args.items[i].Lit?
    ensures var f := recs[a].callee.addr;
            var key := NameField(recs[f]);
            var t := TargetName(st.mapping, key);
            GenFunctionCall(recs, a, st)
            == Outcome(Success((if key in st.classes then "new " else "") + t.0 + "(" + JoinValues(recs[a].args.items, ", ") + ")"),
                       st.(mapping := t.1), [])
  {
    FieldsBelow(recs, a);
    var f := recs[a].callee.addr;
    var items := recs[a].args.items;
    var key := NameField(recs[f]);
    var t := TargetName(st.mapping, key);
    var st1 := st.(mapping := t.1);
    NamedRecord(recs, f, st);
    assert GenSpec(recs, recs[a].callee, st) == Outcome(Success(Code(t.0)), st1, []);
    ShowCode(t.0);
    LiteralsGenerateThemselves(recs, items, [], st1);
    assert [] + items == items;
    assert GenItems(recs, items, [], st1) == Outcome(Success(items), st1, []);
    assert NameOf(recs, recs[a].callee) == Some(key) && key != Code("print");
  }

  /**
   * A `for` over a Range record whose bounds, step and operator are literals:
   * `for (let i = s; i T e; i op= v) {`, where T is `>=` for `-`, `%` and `/` and `<=` otherwise.
   */
  lemma ForRangeHeaderRenders(recs: seq<Node>, n: nat, loopVar: nat, c: nat, st: GenState)
    requires WellFormed(recs) && loopVar < n && c < n <= |recs| && Ordinal(st.mapping)
    requires recs[loopVar].Variable? && recs[c].Range?
    requires recs[c].start.Lit? && recs[c].end.Lit? && recs[c].value.Lit? && recs[c].rangeOp.Lit?
    ensures var r := recs[c];
            var t := TargetName(st.mapping, NameField(recs[loopVar]));
            var test := if r.rangeOp in [Code("-"), Code("%"), Code("/")] then ">=" else "<=";
            GenForHeader(recs, n, Ref(loopVar), Ref(c), st)
            == Outcome(Success(RangeHeader(t.0, Show(r.start), test, Show(r.end), Show(r.rangeOp), Show(r.value))),
                       st.(mapping := t.1), [])
  {
    FieldsBelow(recs, c);
    var r := recs[c];
    var t := TargetName(st.mapping, NameField(recs[loopVar]));
    assert Pair(recs, r.start, r.end, st) == Outcome(Success((r.start, r.end)), st, []);
    assert GenSpec(recs, r.value, st) == Done(r.value, st);
    assert NameOf(recs, Ref(loopVar)) == Some(NameField(recs[loopVar]));
    var header := RangeHeader(t.0, Show(r.start), ForTest(r.rangeOp), Show(r.end), Show(r.rangeOp), Show(r.value));
    assert GenForRangeHeader(recs, n, Ref(loopVar), c, st) == Outcome(Success(header), st.(mapping := t.1), []);
  }

  /** A `for` over anything else that is a literal counts from 1 up to it: `for (let i = 1; i <= c; i++) {`. */
  lemma CountedHeaderRenders(recs: seq<Node>, n: nat, loopVar: nat, collection: Value, st: GenState)
    requires WellFormed(recs) && loopVar < n <= |recs| && Ordinal(st.mapping)
    requires recs[loopVar].Variable? && collection.Lit?
    ensures var t := TargetName(st.mapping, NameField(recs[loopVar]));
            GenForHeader(recs, n, Ref(loopVar), collection, st)
            == Outcome(Success("for (let " + t.0 + " = 1; " + t.0 + " <= " + Show(collection) + "; " + t.0 + "++) {\n"),
                       st.(mapping := t.1), [])
  {
  }

  // ---------------------------------------------------------------------------------------------
  // Parameter and MethodCall names

  /** As written, a parameter without a default renders as the target name of `x.name`, which is undefined. */
  lemma ParameterRendersAsWritten(recs: seq<Node>, a: nat, st: GenState)
    requires WellFormed(recs) && a < |recs| && recs[a].Parameter? && Ordinal(st.mapping)
    requires !Truthy(recs[a].defaultValue)
    ensures var t := TargetName(st.mapping, Undefined);
            GenParameter(recs, a, st) == Outcome(Success(t.0), st.(mapping := t.1), [])
  {
    assert ParameterKey(recs[a]) == Undefined;
  }

  /** As written, any two parameters without defaults are both renamed to the same `undefined_k`. */
  lemma ParametersCollideAsWritten(recs: seq<Node>, a: nat, b: nat, st: GenState)
    requires WellFormed(recs) && a < |recs| && b < |recs| && recs[a].Parameter? && recs[b].Parameter? && Ordinal(st.mapping)
    requires !Truthy(recs[a].defaultValue) && !Truthy(recs[b].defaultValue)
    ensures var o1 := GenParameter(recs, a, st);
            var o2 := GenParameter(recs, b, o1.state);
            && o1.result.Success? && o2.result == o1.result && o2.state == o1.state
            && o1.result.value == "undefined_" + NatToString(o1.state.mapping[Undefined])
  {
    ParameterRendersAsWritten(recs, a, st);
    var t := TargetName(st.mapping, Undefined);
    ParameterRendersAsWritten(recs, b, st.(mapping := t.1));
    UndefinedNamedTwice(st.mapping);
  }

  /** `targetName(undefined)` twice: `undefined_k` both times, and the map is left as the first call left it. */
  lemma UndefinedNamedTwice(m: map<Value, nat>)
    requires Ordinal(m)
    ensures var t := TargetName(m, Undefined);
            TargetName(t.1, Undefined) == t && t.0 == "undefined_" + NatToString(t.1[Undefined])
  {
    assert Show(Undefined) == "undefined";
  }

  /**
   * As written, the parameters `x` and `y` of a function already named `f_1` both become
   * `undefined_2`: the names `GenParameter` gives them when they have no defaults.
   */
  lemma TwoParametersShareANameAsWritten()
    ensures var m0 := map[Code("f") := 1];
            var (s1, m1) := TargetName(m0, ParameterKey(Parameter("x", Undefined, Untyped)));
            var (s2, _) := TargetName(m1, ParameterKey(Parameter("y", Undefined, Untyped)));
            s1 == "undefined_2" && s2 == "undefined_2"
  {
    assert ParameterKey(Parameter("x", Undefined, Untyped)) == Undefined;
    assert ParameterKey(Parameter("y", Undefined, Untyped)) == Undefined;
    var m0 := map[Code("f") := 1];
    assert Ordinal(m0);
    assert Undefined !in m0 && |m0| == 1;
    var m1 := m0[Undefined := 2];
    var t1 := TargetName(m0, Undefined);
    assert t1.1 == m1;
    assert NatToString(2) == "2";
    assert t1.0 == Named(m1, Undefined) == "undefined_2";
    var t2 := TargetName(t1.1, Undefined);
    assert t2.1 == m1 && t2.0 == Named(m1, Undefined);
  }

  /** The key the Parameter generator evidently means: the record's `id`. */
  function IntendedParameterKey(n: Node): Value
    requires n.Parameter?
  {
    Code(n.id)
  }

  /** Parameter with the key corrected to `id`: `name = gen(defaultValue)` when the default is truthy, else `name`. */
  function GenParameterById(recs: seq<Node>, a: nat, st: GenState): (out: Outcome<string>)
    requires WellFormed(recs) && a < |recs| && recs[a].Parameter? && Ordinal(st.mapping)
    ensures Follows(recs, a, st, out)
  {
    FieldsBelow(recs, a);
    var (name, m) := TargetName(st.mapping, IntendedParameterKey(recs[a]));
    var st1 := st.(mapping := m);
    if !Truthy(recs[a].defaultValue) then Done(name, st1)
    else
      var d := GenSpec(recs, recs[a].defaultValue, st1);
      if d.result.Failure? then Abort(d)
      else Then(d, name + " = " + Show(d.result.value))
  }

  /** Corrected: two parameters without defaults and with different ids get different names. */
  lemma ParameterNamesDistinct(recs: seq<Node>, a: nat, b: nat, st: GenState)
    requires WellFormed(recs) && a < |recs| && b < |recs| && recs[a].Parameter? && recs[b].Parameter? && Ordinal(st.mapping)
    requires !Truthy(recs[a].defaultValue) && !Truthy(recs[b].defaultValue) && recs[a].id != recs[b].id
    ensures var o1 := GenParameterById(recs, a, st);
            var o2 := GenParameterById(recs, b, o1.state);
            o1.result.Success? && o2.result.Success? && o1.result.value != o2.result.value
  {
    var (s1, m1) := TargetName(st.mapping, IntendedParameterKey(recs[a]));
    var (s2, m2) := TargetName(m1, IntendedParameterKey(recs[b]));
    if s1 == s2 {
      assert Named(m2, IntendedParameterKey(recs[a])) == s1;
      NamedInjective(m2, IntendedParameterKey(recs[a]), IntendedParameterKey(recs[b]));
    }
  }

  /**
   * A method call on a literal receiver with literal arguments renders as `obj.name(args)`, where
   * `name` is the target name of `x.name`: undefined for every MethodCall record.
   */
  lemma MethodCallRenders(recs: seq<Node>, a: nat, st: GenState)
    requires WellFormed(recs) && a < |recs| && recs[a].MethodCall? && Ordinal(st.mapping)
    requires recs[a].receiver.Lit? && recs[a].args.List?
    requires forall i :: 0 <= i < |recs[a].args.items| ==> recs[a].args.items[i].Lit?
    ensures var n := recs[a];
            var t := TargetName(st.mapping, Undefined);
            GenMethodCall(recs, a, st)
            == Outcome(Success(Show(n.receiver) + "." + t.0 + "(" + JoinValues(n.args.items, ",") + ")"), st.(mapping := t.1), [])
  {
    FieldsBelow(recs, a);
    var n := recs[a];
    var items := n.args.items;
    LiteralsGenerateThemselves(recs, items, [], st);
    assert [] + items == items;
    assert GenItems(recs, items, [], st) == Outcome(Success(items), st, []);
    NoGeneratorYieldsNode(recs, n.receiver, st);
    assert GenSpec(recs, n.receiver, st) == Outcome(Success(n.receiver), st, []);
    assert MethodKey(n) == Undefined;
  }

  /** As written, every two method calls call the same renamed method, whatever their `methodName`. */
  lemma MethodsCollideAsWritten(m: map<Value, nat>, c1: Node, c2: Node)
    requires Ordinal(m) && c1.MethodCall? && c2.MethodCall?
    ensures MethodKey(c1) == MethodKey(c2) == Undefined
    ensures var (s1, m1) := TargetName(m, MethodKey(c1));
            var (s2, _) := TargetName(m1, MethodKey(c2));
            s1 == s2
  {
    TargetNameStable(m, Undefined);
  }

  /** The key the MethodCall generator evidently means: the record's `methodName`. */
  function IntendedMethodKey(n: Node): Value
    requires n.MethodCall?
  {
    Code(n.methodName)
  }

  /** MethodCall with the key corrected to `methodName`: the arguments, the receiver, then `obj.m_k(args)`. */
  function GenMethodCallByName(recs: seq<Node>, a: nat, st: GenState): (out: Outcome<string>)
    requires WellFormed(recs) && a < |recs| && recs[a].MethodCall? && Ordinal(st.mapping)
    ensures Follows(recs, a, st, out)
  {
    FieldsBelow(recs, a);
    var n := recs[a];
    if !n.args.List? then Fail(TypeError, st)
    else
      var args := GenItems(recs, n.args.items, [], st);
      if args.result.Failure? then Abort(args)
      else
        var receiver := GenSpec(recs, n.receiver, args.state);
        if receiver.result.Failure? then Seq(args, Abort(receiver))
        else
          var (name, m) := TargetName(receiver.state.mapping, IntendedMethodKey(n));
          Seq(Seq(args, receiver), Done(Show(receiver.result.value) + "." + name + "(" + JoinValues(args.result.value, ",") + ")", receiver.state.(mapping := m)))
  }

  /** Corrected: calls of different methods get different renamed methods. */
  lemma MethodNamesDistinct(m: map<Value, nat>, c1: Node, c2: Node)
    requires Ordinal(m) && c1.MethodCall? && c2.MethodCall? && c1.methodName != c2.methodName
    ensures var (s1, m1) := TargetName(m, IntendedMethodKey(c1));
            var (s2, m2) := TargetName(m1, IntendedMethodKey(c2));
            s1 != s2
  {
    var (s1, m1) := TargetName(m, IntendedMethodKey(c1));
    var (s2, m2) := TargetName(m1, IntendedMethodKey(c2));
    if s1 == s2 {
      assert Named(m2, IntendedMethodKey(c1)) == s1;
      NamedInjective(m2, IntendedMethodKey(c1), IntendedMethodKey(c2));
    }
  }

  // ---------------------------------------------------------------------------------------------
  // function bodies

  /** As written, the body statements `a;` and `b;` are not separated, so they share one line. */
  lemma FunctionTextRunsTogether()
    ensures FunctionText("f_1", [], [Code("a;"), Code("b;")], BodyLineEnd) == "function f_1() {\na;b;\n}\n"
  {
    var body := [Code("a;"), Code("b;")];
    assert body[..1] == [Code("a;")] && body[..1][..0] == [];
    assert Wrap("", body, "") == "a;b;";
    assert JoinValues([], ", ") == "";
  }

  /** As written, a function whose body is the two statements `a;` and `b;` has them on one line. */
  lemma BodyRunsTogetherAsWritten(recs: seq<Node>, n: nat, st: GenState)
    requires WellFormed(recs) && n <= |recs| && Ordinal(st.mapping)
    ensures GenFunctionParts(recs, n, "f_1", List([]), List([Code("a;"), Code("b;")]), st)
            == Outcome(Success("function f_1() {\na;b;\n}\n"), st, [])
  {
    var body := [Code("a;"), Code("b;")];
    LiteralsGenerateThemselves(recs, [], [], st);
    LiteralsGenerateThemselves(recs, body, [], st);
    assert [] + body == body;
    FunctionTextRunsTogether();
  }

  lemma {:induction false} JoinSnoc(xs: seq<string>, x: string, sep: string)
    requires xs != []
    ensures Join(xs + [x], sep) == Join(xs, sep) + sep + x
    decreases |xs|
  {
    if |xs| == 1 {
      assert (xs + [x])[1..] == [x];
    } else {
      assert (xs + [x])[1..] == xs[1..] + [x];
      JoinSnoc(xs[1..], x, sep);
    }
  }

  function Lines(vs: seq<Value>): seq<string> {
    seq(|vs|, i requires 0 <= i < |vs| => Show(vs[i]))
  }

  /** What each body statement evidently should be followed by: a newline. */
  const IntendedBodyLineEnd := "\n"

  /** The text of a FunctionDeclaration with every body statement on its own line. */
  function IntendedFunctionText(name: string, params: seq<Value>, body: seq<Value>): string {
    FunctionText(name, params, body, IntendedBodyLineEnd)
  }

  /** Corrected: each body statement ends its own line, so the body is the statements joined by newlines. */
  lemma {:induction false} BodyStatementsOnOwnLines(body: seq<Value>)
    requires body != []
    ensures Wrap("", body, IntendedBodyLineEnd) == Join(Lines(body), "\n") + "\n"
    decreases |body|
  {
    var init := body[..|body| - 1];
    var last := body[|body| - 1];
    if init == [] {
      assert Lines(body) == [Show(last)];
    } else {
      BodyStatementsOnOwnLines(init);
      assert Lines(body) == Lines(init) + [Show(last)];
      JoinSnoc(Lines(init), Show(last), "\n");
      var j := Join(Lines(init), "\n");
      assert Wrap("", body, "\n") == Wrap("", init, "\n") + "" + Show(last) + "\n";
      StringsReassociate(j, "\n", Show(last));
    }
  }

  /** `(j + "\n") + "" + x + "\n"` and `j + "\n" + x + "\n"` are the same string. */
  lemma StringsReassociate(j: string, nl: string, x: string)
    ensures (j + nl) + "" + x + nl == j + nl + x + nl
  {
  }

  /** Corrected, the same body keeps one statement per line. */
  lemma BodyOnSeparateLines()
    ensures IntendedFunctionText("f_1", [], [Code("a;"), Code("b;")]) == "function f_1() {\na;\nb;\n\n}\n"
  {
    var body := [Code("a;"), Code("b;")];
    assert body[..1] == [Code("a;")] && body[..1][..0] == [];
    assert Wrap("", body, "\n") == "a;\nb;\n";
    assert JoinValues([], ", ") == "";
  }
}
