/**
 * The run of src/generator.js as the closure state it is: `output` and `classes` are pushed to,
 * `targetName` updates its map, `gen` recurses, and the block generators build `code` with `+=`.
 * Every method is proved to return the result, leave the state and push the values that the
 * functions of `Codegen` give.
 */
module Generation {
  import opened Wrappers
  import opened Ir
  import opened Render
  import opened TargetNames
  import opened Ranges
  import Codegen

  /** What `output` holds after a step that pushed `first` and then a step that pushed `second`. */
  lemma Pushed(before: seq<Value>, mid: seq<Value>, after: seq<Value>, first: seq<Value>, second: seq<Value>)
    requires mid == before + first && after == mid + second
    ensures after == before + (first + second)
  {
  }

  /** What `output` holds after a statement that pushed `pushed` and then had its own result `v` pushed. */
  lemma PushedStatement(before: seq<Value>, pushed: seq<Value>, v: Value, rest: seq<Value>)
    ensures before + pushed + [v] + rest == before + (pushed + [v] + rest)
  {
  }

  /** What `vs.map((x) => (code += prefix + gen(x) + suffix))` appends, given the outcome of the gens. */
  function Lines(prefix: string, suffix: string, o: Codegen.Outcome<seq<Value>>): Codegen.Outcome<string> {
    Codegen.Outcome(if o.result.Success? then Success(Wrap(prefix, o.result.value, suffix)) else Failure(o.result.error), o.state, o.emitted)
  }

  class Generator {
    var output: seq<Value>
    var classes: seq<Value>
    var mapping: map<Value, nat>

    ghost predicate Valid()
      reads this
    {
      Ordinal(mapping)
    }

    function State(): Codegen.GenState
      reads this
    {
      Codegen.GenState(classes, mapping)
    }

    /** The state `generate` starts from: empty output, no classes, an empty map. */
    constructor ()
      ensures Valid() && State() == Codegen.Initial && output == []
    {
      output := [];
      classes := [];
      mapping := map[];
    }

    /** `targetName(name)`: number the name on first sight, then return `name_k`. */
    method TargetName(key: Value) returns (name: string)
      requires Valid()
      modifies this
      ensures Valid() && output == old(output)
      ensures var out := Codegen.GenTargetName(key, old(State())); Success(name) == out.result && State() == out.state && out.emitted == []
    {
      if key !in mapping {
        mapping := mapping[key := |mapping| + 1];
      }
      name := Named(mapping, key);
    }

    /** `output.push(v)`. */
    method Push(v: Value)
      modifies this
      ensures State() == old(State()) && output == old(output) + [v]
      ensures Valid() == old(Valid())
    {
      output := output + [v];
    }

    /** `gen(v)`. */
    method Gen(recs: seq<Node>, v: Value) returns (r: Result<Value, Error>)
      requires Valid() && WellFormed(recs) && Bound(v) <= |recs|
      modifies this
      ensures Valid()
      ensures var out := Codegen.GenSpec(recs, v, old(State())); r == out.result && State() == out.state && output == old(output) + out.emitted
      decreases Bound(v), 1
    {
      if !v.Ref? {
        return Success(v);
      }
      var c := GenKind(recs, v.addr);
      if c.Failure? {
        return Failure(c.error);
      }
      if c.value.None? {
        return Success(v);
      }
      return Success(Codegen.Code(c.value.value));
    }

    /** `gen(x)`, then `gen(y)`. */
    method GenPair(recs: seq<Node>, x: Value, y: Value) returns (r: Result<(Value, Value), Error>)
      requires Valid() && WellFormed(recs) && Bound(x) <= |recs| && Bound(y) <= |recs|
      modifies this
      ensures Valid()
      ensures var out := Codegen.Pair(recs, x, y, old(State())); r == out.result && State() == out.state && output == old(output) + out.emitted
      decreases Max(Bound(x), Bound(y)), 2
    {
      ghost var before := output;
      ghost var o1 := Codegen.GenSpec(recs, x, State());
      var first := Gen(recs, x);
      if first.Failure? {
        return Failure(first.error);
      }
      ghost var mid := output;
      ghost var o2 := Codegen.GenSpec(recs, y, State());
      var second := Gen(recs, y);
      Pushed(before, mid, output, o1.emitted, o2.emitted);
      if second.Failure? {
        return Failure(second.error);
      }
      return Success((first.value, second.value));
    }

    /** `x.map(gen)`. */
    method GenAll(recs: seq<Node>, items: seq<Value>) returns (r: Result<seq<Value>, Error>)
      requires Valid() && WellFormed(recs) && BoundAll(items) <= |recs|
      modifies this
      ensures Valid()
      ensures var out := Codegen.GenItems(recs, items, [], old(State())); r == out.result && State() == out.state && output == old(output) + out.emitted
      decreases BoundAll(items), 2, |items|
    {
      ghost var all := Codegen.GenItems(recs, items, [], State());
      var acc := [];
      var i := 0;
      while i < |items|
        invariant 0 <= i <= |items| && Valid()
        invariant BoundAll(items[i..]) <= |recs|
        invariant var rest := Codegen.GenItems(recs, items[i..], acc, State());
                  rest.result == all.result && rest.state == all.state && old(output) + all.emitted == output + rest.emitted
      {
        BoundAllElement(items, i);
        ghost var st := State();
        ghost var before := output;
        ghost var o := Codegen.GenSpec(recs, items[i], st);
        var x := Gen(recs, items[i]);
        if x.Failure? {
          Codegen.GenItemsStop(recs, items, i, acc, st);
          return Failure(x.error);
        }
        Codegen.GenItemsNext(recs, items, i, acc, st);
        ghost var next := Codegen.GenItems(recs, items[i + 1..], acc + [x.value], State());
        Pushed(before, output, output + next.emitted, o.emitted, next.emitted);
        acc := acc + [x.value];
        i := i + 1;
      }
      assert items[i..] == [];
      return Success(acc);
    }

    /** What `vs.map((x) => (code += prefix + gen(x) + suffix))` appends to `code`. */
    method GenLines(recs: seq<Node>, items: seq<Value>, prefix: string, suffix: string) returns (r: Result<string, Error>)
      requires Valid() && WellFormed(recs) && BoundAll(items) <= |recs|
      modifies this
      ensures Valid()
      ensures var out := Lines(prefix, suffix, Codegen.GenItems(recs, items, [], old(State())));
              r == out.result && State() == out.state && output == old(output) + out.emitted
      decreases BoundAll(items), 2, |items|
    {
      ghost var all := Codegen.GenItems(recs, items, [], State());
      var acc := [];
      var code := "";
      var i := 0;
      while i < |items|
        invariant 0 <= i <= |items| && Valid()
        invariant BoundAll(items[i..]) <= |recs|
        invariant code == Wrap(prefix, acc, suffix)
        invariant var rest := Codegen.GenItems(recs, items[i..], acc, State());
                  rest.result == all.result && rest.state == all.state && old(output) + all.emitted == output + rest.emitted
      {
        BoundAllElement(items, i);
        ghost var st := State();
        ghost var before := output;
        ghost var o := Codegen.GenSpec(recs, items[i], st);
        var x := Gen(recs, items[i]);
        if x.Failure? {
          Codegen.GenItemsStop(recs, items, i, acc, st);
          return Failure(x.error);
        }
        Codegen.GenItemsNext(recs, items, i, acc, st);
        ghost var next := Codegen.GenItems(recs, items[i + 1..], acc + [x.value], State());
        Pushed(before, output, output + next.emitted, o.emitted, next.emitted);
        code := code + prefix + Show(x.value) + suffix;
        WrapAppend(prefix, acc, x.value, suffix);
        acc := acc + [x.value];
        i := i + 1;
      }
      assert items[i..] == [];
      return Success(code);
    }

    /** `generators[kind](node)`; None where there is no generator or it returns nothing. */
    method GenKind(recs: seq<Node>, a: nat) returns (r: Result<Option<string>, Error>)
      requires Valid() && WellFormed(recs) && a < |recs|
      modifies this
      ensures Valid()
      ensures var out := Codegen.GenCode(recs, a, old(State())); r == out.result && State() == out.state && output == old(output) + out.emitted
      decreases a + 1, 0, 2
    {
      var n := recs[a];
      if Codegen.IsStatement(n) {
        var s := GenStatement(recs, a);
        r := Codegen.Lift(s);
      } else if Codegen.IsExpression(n) {
        var s := GenExpression(recs, a);
        r := Codegen.Lift(s);
      } else if n.Program? {
        var p := GenProgram(recs, a);
        r := if p.Success? then Success(None) else Failure(p.error);
      } else if n.TypeDeclaration? || n.SubscriptExpression? || n.MemberExpression? {
        r := Success(None);
      } else if n.EmptyArray? {
        r := Success(Some("[]"));
      } else if n.BreakStatement? {
        r := Success(Some("break;"));
      } else if n.Variable? || n.Function? {
        var s := TargetName(Codegen.Code(n.name));
        r := Success(Some(s));
      } else {
        r := Failure(NotModelled(Codegen.ClassLowering));
      }
    }

    /** The generators of statement kinds. */
    method GenStatement(recs: seq<Node>, a: nat) returns (r: Result<string, Error>)
      requires Valid() && WellFormed(recs) && a < |recs| && Codegen.IsStatement(recs[a])
      modifies this
      ensures Valid()
      ensures var out := Codegen.GenStatementCode(recs, a, old(State())); r == out.result && State() == out.state && output == old(output) + out.emitted
      decreases a + 1, 0, 1
    {
      var n := recs[a];
      FieldsBelow(recs, a);
      if n.VariableDeclaration? {
        r := GenVariableDeclaration(recs, a);
      } else if n.Assignment? {
        r := GenAssignment(recs, a);
      } else if n.IfStatement? {
        r := GenIf(recs, a);
      } else if n.ElseIf? {
        r := GenBlock(recs, a, "else if ", n.test, n.consequent, "");
      } else if n.Else? {
        r := GenElse(recs, a);
      } else if n.WhileStatement? {
        r := GenBlock(recs, a, "while ", n.test, n.body, "\n");
      } else if n.ForStatement? {
        r := GenFor(recs, a);
      } else if n.FunctionDeclaration? {
        r := GenFunctionDeclaration(recs, a);
      } else {
        r := GenReturn(recs, a);
      }
    }

    /** The generators of expression kinds. */
    method GenExpression(recs: seq<Node>, a: nat) returns (r: Result<string, Error>)
      requires Valid() && WellFormed(recs) && a < |recs| && Codegen.IsExpression(recs[a])
      modifies this
      ensures Valid()
      ensures var out := Codegen.GenExpressionCode(recs, a, old(State())); r == out.result && State() == out.state && output == old(output) + out.emitted
      decreases a + 1, 0, 1
    {
      var n := recs[a];
      if n.ArrayExpression? {
        r := GenArray(recs, a);
      } else if n.ArrayIndexing? {
        r := GenArrayIndexing(recs, a);
      } else if n.Range? {
        r := GenRange(recs, a);
      } else if n.UnaryExpression? {
        r := GenUnary(recs, a);
      } else if n.BinaryExpression? {
        r := GenBinary(recs, a);
      } else if n.Parameter? {
        r := GenParameter(recs, a);
      } else if n.FunctionCall? {
        r := GenFunctionCall(recs, a);
      } else {
        r := GenMethodCall(recs, a);
      }
    }

    /** Program: `x.statements.forEach((x) => { output.push(gen(x)); })`. */
    method GenProgram(recs: seq<Node>, a: nat) returns (r: Result<(), Error>)
      requires Valid() && WellFormed(recs) && a < |recs| && recs[a].Program?
      modifies this
      ensures Valid()
      ensures var out := Codegen.GenProgram(recs, a, old(State())); r == out.result && State() == out.state && output == old(output) + out.emitted
      decreases a + 1, 0, 0
    {
      FieldsBelow(recs, a);
      var statements := recs[a].statements;
      if !statements.List? {
        return Failure(TypeError);
      }
      r := PushAll(recs, statements.items);
    }

    /** The `forEach` loop of Program: generate each statement and push the result onto `output`. */
    method PushAll(recs: seq<Node>, items: seq<Value>) returns (r: Result<(), Error>)
      requires Valid() && WellFormed(recs) && BoundAll(items) <= |recs|
      modifies this
      ensures Valid()
      ensures var out := Codegen.GenStatements(recs, items, old(State())); r == out.result && State() == out.state && output == old(output) + out.emitted
      decreases BoundAll(items), 2, |items|
    {
      ghost var all := Codegen.GenStatements(recs, items, State());
      var i := 0;
      while i < |items|
        invariant 0 <= i <= |items| && Valid()
        invariant BoundAll(items[i..]) <= |recs|
        invariant var rest := Codegen.GenStatements(recs, items[i..], State());
                  rest.result == all.result && rest.state == all.state && old(output) + all.emitted == output + rest.emitted
      {
        BoundAllElement(items, i);
        ghost var st := State();
        ghost var before := output;
        ghost var o := Codegen.GenSpec(recs, items[i], st);
        var x := Gen(recs, items[i]);
        if x.Failure? {
          Codegen.GenStatementsStop(recs, items, i, st);
          return Failure(x.error);
        }
        Codegen.GenStatementsNext(recs, items, i, st);
        Push(x.value);
        ghost var next := Codegen.GenStatements(recs, items[i + 1..], State());
        PushedStatement(before, o.emitted, x.value, next.emitted);
        i := i + 1;
      }
      assert items[i..] == [];
      return Success(());
    }

    method GenArray(recs: seq<Node>, a: nat) returns (r: Result<string, Error>)
      requires Valid() && WellFormed(recs) && a < |recs| && recs[a].ArrayExpression?
      modifies this
      ensures Valid()
      ensures var out := Codegen.GenArray(recs, a, old(State())); r == out.result && State() == out.state && output == old(output) + out.emitted
      decreases a + 1, 0, 0
    {
      FieldsBelow(recs, a);
      var elements := recs[a].elements;
      if !elements.List? {
        return Failure(TypeError);
      }
      var es := GenAll(recs, elements.items);
      if es.Failure? {
        return Failure(es.error);
      }
      return Success("[" + JoinValues(es.value, ",") + "]");
    }

    method GenArrayIndexing(recs: seq<Node>, a: nat) returns (r: Result<string, Error>)
      requires Valid() && WellFormed(recs) && a < |recs| && recs[a].ArrayIndexing?
      modifies this
      ensures Valid()
      ensures var out := Codegen.GenArrayIndexing(recs, a, old(State())); r == out.result && State() == out.state && output == old(output) + out.emitted
      decreases a + 1, 0, 0
    {
      FieldsBelow(recs, a);
      var p := GenPair(recs, recs[a].indexed, recs[a].index);
      if p.Failure? {
        return Failure(p.error);
      }
      return Success(Show(p.value.0) + "[" + Show(p.value.1) + "]");
    }

    method GenVariableDeclaration(recs: seq<Node>, a: nat) returns (r: Result<string, Error>)
      requires Valid() && WellFormed(recs) && a < |recs| && recs[a].VariableDeclaration?
      modifies this
      ensures Valid()
      ensures var out := Codegen.GenVariableDeclaration(recs, a, old(State())); r == out.result && State() == out.state && output == old(output) + out.emitted
      decreases a + 1, 0, 0
    {
      FieldsBelow(recs, a);
      var p := GenPair(recs, recs[a].variable, recs[a].initializer);
      if p.Failure? {
        return Failure(p.error);
      }
      return Success("let " + Show(p.value.0) + " = " + Show(p.value.1) + ";");
    }

    method GenAssignment(recs: seq<Node>, a: nat) returns (r: Result<string, Error>)
      requires Valid() && WellFormed(recs) && a < |recs| && recs[a].Assignment?
      modifies this
      ensures Valid()
      ensures var out := Codegen.GenAssignment(recs, a, old(State())); r == out.result && State() == out.state && output == old(output) + out.emitted
      decreases a + 1, 0, 0
    {
      FieldsBelow(recs, a);
      var p := GenPair(recs, recs[a].target, recs[a].source);
      if p.Failure? {
        return Failure(p.error);
      }
      return Success(Show(p.value.0) + " = " + Show(p.value.1) + ";");
    }

    /** Range: the four gens, then the counting loops of `Ranges.Expand`. */
    method GenRange(recs: seq<Node>, a: nat) returns (r: Result<string, Error>)
      requires Valid() && WellFormed(recs) && a < |recs| && recs[a].Range?
      modifies this
      ensures Valid()
      ensures var out := Codegen.GenRange(recs, a, old(State())); r == out.result && State() == out.state && output == old(output) + out.emitted
      decreases a + 1, 0, 0
    {
      FieldsBelow(recs, a);
      var n := recs[a];
      ghost var before := output;
      ghost var o1 := Codegen.Pair(recs, n.start, n.end, State());
      var bounds := GenPair(recs, n.start, n.end);
      if bounds.Failure? {
        return Failure(bounds.error);
      }
      ghost var mid := output;
      ghost var o2 := Codegen.Pair(recs, n.value, n.rangeOp, State());
      var stepOp := GenPair(recs, n.value, n.rangeOp);
      Pushed(before, mid, output, o1.emitted, o2.emitted);
      if stepOp.Failure? {
        return Failure(stepOp.error);
      }
      var elements := Expand(stepOp.value.1, bounds.value.0, bounds.value.1, stepOp.value.0);
      if elements.Failure? {
        return Failure(elements.error);
      }
      return Success(RangeText(elements.value));
    }

    method GenUnary(recs: seq<Node>, a: nat) returns (r: Result<string, Error>)
      requires Valid() && WellFormed(recs) && a < |recs| && recs[a].UnaryExpression?
      modifies this
      ensures Valid()
      ensures var out := Codegen.GenUnary(recs, a, old(State())); r == out.result && State() == out.state && output == old(output) + out.emitted
      decreases a + 1, 0, 0
    {
      FieldsBelow(recs, a);
      var operand := Gen(recs, recs[a].operand);
      if operand.Failure? {
        return Failure(operand.error);
      }
      return Success(recs[a].op + "(" + Show(operand.value) + ")");
    }

    method GenBinary(recs: seq<Node>, a: nat) returns (r: Result<string, Error>)
      requires Valid() && WellFormed(recs) && a < |recs| && recs[a].BinaryExpression?
      modifies this
      ensures Valid()
      ensures var out := Codegen.GenBinary(recs, a, old(State())); r == out.result && State() == out.state && output == old(output) + out.emitted
      decreases a + 1, 0, 0
    {
      FieldsBelow(recs, a);
      var op := Codegen.JsOperator(recs[a].op);
      var p := GenPair(recs, recs[a].left, recs[a].right);
      if p.Failure? {
        return Failure(p.error);
      }
      return Success("(" + Show(p.value.0) + " " + op + " " + Show(p.value.1) + ")");
    }

    /** `code = keyword + gen(test) + " {\n"`, the block's lines, then `"\n}"`. */
    method GenBlock(recs: seq<Node>, n: nat, keyword: string, test: Value, block: Value, lineEnd: string) returns (r: Result<string, Error>)
      requires Valid() && WellFormed(recs) && n <= |recs| && Bound(test) <= n && Bound(block) <= n
      modifies this
      ensures Valid()
      ensures var out := Codegen.Block(recs, n, keyword, test, block, lineEnd, old(State())); r == out.result && State() == out.state && output == old(output) + out.emitted
      decreases n, 3
    {
      ghost var before := output;
      ghost var o1 := Codegen.GenSpec(recs, test, State());
      var t := Gen(recs, test);
      if t.Failure? {
        return Failure(t.error);
      }
      var code := keyword + Show(t.value) + " {\n";
      if !block.List? {
        return Failure(TypeError);
      }
      ghost var mid := output;
      ghost var o2 := Codegen.GenItems(recs, block.items, [], State());
      var lines := GenLines(recs, block.items, "  ", lineEnd);
      Pushed(before, mid, output, o1.emitted, o2.emitted);
      if lines.Failure? {
        return Failure(lines.error);
      }
      code := code + lines.value;
      code := code + "\n}";
      return Success(code);
    }

    /** IfStatement: the `if` block, each ElseIF, then the first element of `otherwise`. */
    method GenIf(recs: seq<Node>, a: nat) returns (r: Result<string, Error>)
      requires Valid() && WellFormed(recs) && a < |recs| && recs[a].IfStatement?
      modifies this
      ensures Valid()
      ensures var out := Codegen.GenIf(recs, a, old(State())); r == out.result && State() == out.state && output == old(output) + out.emitted
      decreases a + 1, 0, 0
    {
      FieldsBelow(recs, a);
      var n := recs[a];
      ghost var before := output;
      ghost var o1 := Codegen.Block(recs, a, "if ", n.test, n.consequent, "", State());
      var head := GenBlock(recs, a, "if ", n.test, n.consequent, "");
      if head.Failure? {
        return Failure(head.error);
      }
      ghost var mid := output;
      ghost var o2 := Codegen.GenElseIfs(recs, a, n.elseif, State());
      var elifs := GenElseIfs(recs, a, n.elseif);
      Pushed(before, mid, output, o1.emitted, o2.emitted);
      if elifs.Failure? {
        return Failure(elifs.error);
      }
      ghost var mid2 := output;
      ghost var o3 := Codegen.GenOtherwise(recs, a, n.otherwise, State());
      var other := GenOtherwise(recs, a, n.otherwise);
      Pushed(before, mid2, output, o1.emitted + o2.emitted, o3.emitted);
      if other.Failure? {
        return Failure(other.error);
      }
      return Success(head.value + elifs.value + other.value);
    }

    /** What `if (x.elseif.length > 0) x.elseif.map((x) => (code += "\n" + gen(x)))` appends. */
    method GenElseIfs(recs: seq<Node>, n: nat, elseif: Value) returns (r: Result<string, Error>)
      requires Valid() && WellFormed(recs) && n <= |recs| && Bound(elseif) <= n
      modifies this
      ensures Valid()
      ensures var out := Codegen.GenElseIfs(recs, n, elseif, old(State())); r == out.result && State() == out.state && output == old(output) + out.emitted
      decreases n, 3
    {
      var populated := Codegen.Populated(elseif);
      if populated.Failure? {
        return Failure(populated.error);
      }
      if !populated.value {
        return Success("");
      }
      if !elseif.List? {
        return Failure(TypeError);
      }
      r := GenLines(recs, elseif.items, "\n", "");
    }

    /** What `if (x.otherwise.length > 0) code += "\n" + gen(x.otherwise[0])` appends. */
    method GenOtherwise(recs: seq<Node>, n: nat, otherwise: Value) returns (r: Result<string, Error>)
      requires Valid() && WellFormed(recs) && n <= |recs| && Bound(otherwise) <= n
      modifies this
      ensures Valid()
      ensures var out := Codegen.GenOtherwise(recs, n, otherwise, old(State())); r == out.result && State() == out.state && output == old(output) + out.emitted
      decreases n, 3
    {
      var populated := Codegen.Populated(otherwise);
      if populated.Failure? {
        return Failure(populated.error);
      }
      if !populated.value {
        return Success("");
      }
      var o := Gen(recs, Codegen.FirstOf(otherwise));
      if o.Failure? {
        return Failure(o.error);
      }
      return Success("\n" + Show(o.value));
    }

    method GenElse(recs: seq<Node>, a: nat) returns (r: Result<string, Error>)
      requires Valid() && WellFormed(recs) && a < |recs| && recs[a].Else?
      modifies this
      ensures Valid()
      ensures var out := Codegen.GenElse(recs, a, old(State())); r == out.result && State() == out.state && output == old(output) + out.emitted
      decreases a + 1, 0, 0
    {
      FieldsBelow(recs, a);
      var consequent := recs[a].consequent;
      if !consequent.List? {
        return Failure(TypeError);
      }
      var lines := GenLines(recs, consequent.items, "  ", "");
      if lines.Failure? {
        return Failure(lines.error);
      }
      return Success("else {\n" + lines.value + "\n}");
    }

    /** ForStatement: the header, `"  " + gen(s) + "\n"` per statement, then `"}\n"`. */
    method GenFor(recs: seq<Node>, a: nat) returns (r: Result<string, Error>)
      requires Valid() && WellFormed(recs) && a < |recs| && recs[a].ForStatement?
      modifies this
      ensures Valid()
      ensures var out := Codegen.GenFor(recs, a, old(State())); r == out.result && State() == out.state && output == old(output) + out.emitted
      decreases a + 1, 0, 0
    {
      FieldsBelow(recs, a);
      var n := recs[a];
      ghost var before := output;
      ghost var o1 := Codegen.GenForHeader(recs, a, n.loopVar, n.collection, State());
      var header := GenForHeader(recs, a, n.loopVar, n.collection);
      if header.Failure? {
        return Failure(header.error);
      }
      ghost var mid := output;
      ghost var o2 := Codegen.ForBody(recs, a, header.value, n.body, State());
      r := GenForBody(recs, a, header.value, n.body);
      Pushed(before, mid, output, o1.emitted, o2.emitted);
    }

    /** The rest of a ForStatement: `code += "  " + gen(s) + "\n"` per statement, then `"}\n"`. */
    method GenForBody(recs: seq<Node>, n: nat, header: string, body: Value) returns (r: Result<string, Error>)
      requires Valid() && WellFormed(recs) && n <= |recs| && Bound(body) <= n
      modifies this
      ensures Valid()
      ensures var out := Codegen.ForBody(recs, n, header, body, old(State())); r == out.result && State() == out.state && output == old(output) + out.emitted
      decreases n, 3
    {
      if !body.List? {
        return Failure(TypeError);
      }
      var lines := GenLines(recs, body.items, "  ", "\n");
      if lines.Failure? {
        return Failure(lines.error);
      }
      return Success(header + lines.value + "}\n");
    }

    method GenForHeader(recs: seq<Node>, n: nat, loopVar: Value, collection: Value) returns (r: Result<string, Error>)
      requires Valid() && WellFormed(recs) && n <= |recs| && Bound(loopVar) <= n && Bound(collection) <= n
      modifies this
      ensures Valid()
      ensures var out := Codegen.GenForHeader(recs, n, loopVar, collection, old(State())); r == out.result && State() == out.state && output == old(output) + out.emitted
      decreases n, 4
    {
      if Nullish(collection) {
        return Failure(TypeError);
      }
      if collection.Ref? && recs[collection.addr].Range? {
        r := GenForRangeHeader(recs, n, loopVar, collection.addr);
        return;
      }
      var name := NameOf(recs, loopVar);
      if name.None? {
        return Failure(TypeError);
      }
      var i := TargetName(name.value);
      var count := Gen(recs, collection);
      if count.Failure? {
        return Failure(count.error);
      }
      return Success(Codegen.CountedHeader(i, Show(count.value)));
    }

    method GenForRangeHeader(recs: seq<Node>, n: nat, loopVar: Value, c: nat) returns (r: Result<string, Error>)
      requires Valid() && WellFormed(recs) && c < n <= |recs| && recs[c].Range? && Bound(loopVar) <= n
      modifies this
      ensures Valid()
      ensures var out := Codegen.GenForRangeHeader(recs, n, loopVar, c, old(State())); r == out.result && State() == out.state && output == old(output) + out.emitted
      decreases n, 3
    {
      FieldsBelow(recs, c);
      var range := recs[c];
      ghost var before := output;
      ghost var o1 := Codegen.Pair(recs, range.start, range.end, State());
      var bounds := GenPair(recs, range.start, range.end);
      if bounds.Failure? {
        return Failure(bounds.error);
      }
      var op := range.rangeOp;
      ghost var mid := output;
      ghost var o2 := Codegen.GenSpec(recs, range.value, State());
      var value := Gen(recs, range.value);
      Pushed(before, mid, output, o1.emitted, o2.emitted);
      if value.Failure? {
        return Failure(value.error);
      }
      ghost var both := o1.emitted + o2.emitted;
      assert both + [] == both;
      var test := Codegen.ForTest(op);
      var name := NameOf(recs, loopVar);
      if name.None? {
        return Failure(TypeError);
      }
      var i := TargetName(name.value);
      return Success(Codegen.RangeHeader(i, Show(bounds.value.0), test, Show(bounds.value.1), Show(op), Show(value.value)));
    }

    /** FunctionDeclaration: `gen(x.fun)`, then the parameters and the body of the Function record. */
    method GenFunctionDeclaration(recs: seq<Node>, a: nat) returns (r: Result<string, Error>)
      requires Valid() && WellFormed(recs) && a < |recs| && recs[a].FunctionDeclaration?
      modifies this
      ensures Valid()
      ensures var out := Codegen.GenFunctionDeclaration(recs, a, old(State())); r == out.result && State() == out.state && output == old(output) + out.emitted
      decreases a + 1, 0, 0
    {
      FieldsBelow(recs, a);
      var fun := recs[a].fun;
      ghost var before := output;
      ghost var o1 := Codegen.GenSpec(recs, fun, State());
      var f := Gen(recs, fun);
      if f.Failure? {
        return Failure(f.error);
      }
      if !(fun.Ref? && recs[fun.addr].Function?) {
        return Failure(TypeError);
      }
      ghost var mid := output;
      ghost var o2 := Codegen.GenFunctionParts(recs, a, Show(f.value), recs[fun.addr].params, recs[fun.addr].body, State());
      r := GenFunctionParts(recs, a, Show(f.value), recs[fun.addr].params, recs[fun.addr].body);
      Pushed(before, mid, output, o1.emitted, o2.emitted);
    }

    /** `code = "function " + name + "(" + params + ") {\n"`, then `code += gen(s) + "\n"` per body statement, then `"\n}\n"`. */
    method GenFunctionParts(recs: seq<Node>, n: nat, name: string, params: Value, body: Value) returns (r: Result<string, Error>)
      requires Valid() && WellFormed(recs) && n <= |recs| && Bound(params) <= n && Bound(body) <= n
      modifies this
      ensures Valid()
      ensures var out := Codegen.GenFunctionParts(recs, n, name, params, body, old(State())); r == out.result && State() == out.state && output == old(output) + out.emitted
      decreases n, 3
    {
      if !params.List? {
        return Failure(TypeError);
      }
      ghost var before := output;
      ghost var o1 := Codegen.GenItems(recs, params.items, [], State());
      var ps := GenAll(recs, params.items);
      if ps.Failure? {
        return Failure(ps.error);
      }
      var code := "function " + name + "(" + JoinValues(ps.value, ", ") + ") {\n";
      if !body.List? {
        return Failure(TypeError);
      }
      ghost var mid := output;
      ghost var o2 := Codegen.GenItems(recs, body.items, [], State());
      var lines := GenLines(recs, body.items, "", Codegen.BodyLineEnd);
      Pushed(before, mid, output, o1.emitted, o2.emitted);
      if lines.Failure? {
        return Failure(lines.error);
      }
      code := code + lines.value;
      code := code + "\n}\n";
      return Success(code);
    }

    method GenParameter(recs: seq<Node>, a: nat) returns (r: Result<string, Error>)
      requires Valid() && WellFormed(recs) && a < |recs| && recs[a].Parameter?
      modifies this
      ensures Valid()
      ensures var out := Codegen.GenParameter(recs, a, old(State())); r == out.result && State() == out.state && output == old(output) + out.emitted
      decreases a + 1, 0, 0
    {
      FieldsBelow(recs, a);
      var name := TargetName(Codegen.ParameterKey(recs[a]));
      if !Truthy(recs[a].defaultValue) {
        return Success(name);
      }
      var d := Gen(recs, recs[a].defaultValue);
      if d.Failure? {
        return Failure(d.error);
      }
      return Success(name + " = " + Show(d.value));
    }

    method GenReturn(recs: seq<Node>, a: nat) returns (r: Result<string, Error>)
      requires Valid() && WellFormed(recs) && a < |recs| && recs[a].ReturnStatement?
      modifies this
      ensures Valid()
      ensures var out := Codegen.GenReturn(recs, a, old(State())); r == out.result && State() == out.state && output == old(output) + out.emitted
      decreases a + 1, 0, 0
    {
      FieldsBelow(recs, a);
      var e := Gen(recs, recs[a].expression);
      if e.Failure? {
        return Failure(e.error);
      }
      return Success(Codegen.ReturnText(e.value));
    }

    method GenFunctionCall(recs: seq<Node>, a: nat) returns (r: Result<string, Error>)
      requires Valid() && WellFormed(recs) && a < |recs| && recs[a].FunctionCall?
      modifies this
      ensures Valid()
      ensures var out := Codegen.GenFunctionCall(recs, a, old(State())); r == out.result && State() == out.state && output == old(output) + out.emitted
      decreases a + 1, 0, 0
    {
      FieldsBelow(recs, a);
      var n := recs[a];
      var name := NameOf(recs, n.callee);
      if name.None? {
        return Failure(TypeError);
      }
      if name.value == Codegen.Code("print") {
        if !n.args.List? {
          return Failure(TypeError);
        }
        var args := GenAll(recs, n.args.items);
        if args.Failure? {
          return Failure(args.error);
        }
        return Success("console.log(" + JoinValues(args.value, ", ") + ");");
      }
      var isClass := name.value in classes;
      ghost var before := output;
      ghost var o1 := Codegen.GenSpec(recs, n.callee, State());
      var callee := Gen(recs, n.callee);
      if callee.Failure? {
        return Failure(callee.error);
      }
      if !n.args.List? {
        return Failure(TypeError);
      }
      ghost var mid := output;
      ghost var o2 := Codegen.GenItems(recs, n.args.items, [], State());
      var args := GenAll(recs, n.args.items);
      Pushed(before, mid, output, o1.emitted, o2.emitted);
      if args.Failure? {
        return Failure(args.error);
      }
      return Success(Codegen.CallText(isClass, Show(callee.value), args.value));
    }

    method GenMethodCall(recs: seq<Node>, a: nat) returns (r: Result<string, Error>)
      requires Valid() && WellFormed(recs) && a < |recs| && recs[a].MethodCall?
      modifies this
      ensures Valid()
      ensures var out := Codegen.GenMethodCall(recs, a, old(State())); r == out.result && State() == out.state && output == old(output) + out.emitted
      decreases a + 1, 0, 0
    {
      FieldsBelow(recs, a);
      var n := recs[a];
      if !n.args.List? {
        return Failure(TypeError);
      }
      ghost var before := output;
      ghost var o1 := Codegen.GenItems(recs, n.args.items, [], State());
      var args := GenAll(recs, n.args.items);
      if args.Failure? {
        return Failure(args.error);
      }
      ghost var mid := output;
      ghost var o2 := Codegen.GenSpec(recs, n.receiver, State());
      var receiver := Gen(recs, n.receiver);
      Pushed(before, mid, output, o1.emitted, o2.emitted);
      if receiver.Failure? {
        return Failure(receiver.error);
      }
      var name := TargetName(Codegen.MethodKey(n));
      return Success(Show(receiver.value) + "." + name + "(" + JoinValues(args.value, ",") + ")");
    }
  }

  /** `generate(program)`: a fresh state, `gen(program)`, then `output.join("\n")`. */
  method Generate(recs: seq<Node>, program: Value) returns (r: Result<string, Error>)
    requires WellFormed(recs) && Bound(program) <= |recs|
    ensures r == Codegen.Generate(recs, program)
  {
    var g := new Generator();
    var x := g.Gen(recs, program);
    if x.Failure? {
      return Failure(x.error);
    }
    assert g.output == Codegen.GenSpec(recs, program, Codegen.Initial).emitted;
    return Success(JoinValues(g.output, "\n"));
  }
}
