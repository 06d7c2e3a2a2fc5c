/**
 * How src/generator.js turns values into text: a template literal or `"  " + v` converts with
 * `String(v)`, while `Array.prototype.join` writes null and undefined elements as empty strings.
 */
module Render {
  import opened Strings
  import opened Ir

  /** `String(v)`: a record is a plain object, an array is its elements joined by ",". */
  function Show(v: Value): string
    decreases v, 0
  {
    match v
    case Ref(_) => "[object Object]"
    case Lit(StringLit(s)) => s
    case Lit(NumberLit(t)) => t
    case Lit(BigIntLit(n)) => IntToString(n)
    case Lit(BooleanLit(b)) => if b then "true" else "false"
    case Null => "null"
    case Undefined => "undefined"
    case List(items) => Join(seq(|items|, i requires 0 <= i < |items| => Element(items[i])), ",")
  }

  /** One element as `join` writes it. */
  function Element(v: Value): string
    decreases v, 1
  {
    if Nullish(v) then "" else Show(v)
  }

  /** `vs.join(sep)`. */
  function JoinValues(vs: seq<Value>, sep: string): string {
    Join(seq(|vs|, i requires 0 <= i < |vs| => Element(vs[i])), sep)
  }

  /** What `vs.map((x) => (code += prefix + x + suffix))` appends to `code`, element by element. */
  function Wrap(prefix: string, vs: seq<Value>, suffix: string): string {
    if vs == [] then "" else Wrap(prefix, vs[..|vs| - 1], suffix) + prefix + Show(vs[|vs| - 1]) + suffix
  }

  lemma WrapAppend(prefix: string, vs: seq<Value>, v: Value, suffix: string)
    ensures Wrap(prefix, vs + [v], suffix) == Wrap(prefix, vs, suffix) + prefix + Show(v) + suffix
  {
    assert (vs + [v])[..|vs|] == vs;
  }

  /** A string literal converts to its own text, so generated code is spliced in verbatim. */
  lemma ShowCode(code: string)
    ensures Show(Lit(StringLit(code))) == code
    ensures Element(Lit(StringLit(code))) == code
  {
  }
}
