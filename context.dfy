/**
 * The scope chain of the analyzer (class `Context` of src/analyzer.js): a map of local names to
 * entities, a link to the enclosing scope, whether analysis is inside a loop, and the function
 * whose body is being analyzed.
 */
module Scope {
  import opened Wrappers
  import opened Ir

  /** The properties `newChildContext` may override; an absent one is inherited. */
  datatype ChildProps = ChildProps(inLoop: Option<bool>, currentFunction: Option<Value>)

  class Context {
    var locals: map<string, Value>
    const parent: Context?
    const inLoop: bool
    /** The `function` property: the enclosing function record, null outside any function. */
    const currentFunction: Value
    /** Distance from the root, and the contexts on the way there (this one included). */
    ghost const depth: nat
    ghost const chain: set<Context>

    ghost predicate Valid()
      decreases depth
    {
      && this in chain
      && (parent == null ==> depth == 0 && chain == {this})
      && (parent != null ==> parent.depth < depth && chain == {this} + parent.chain && parent.Valid())
    }

    /**
     * `lookup(name)`: the local binding if it is truthy, otherwise whatever the parent resolves;
     * None stands for undefined.
     */
    function Lookup(name: string): (r: Option<Value>)
      requires Valid()
      reads chain
      decreases depth
      ensures r.Some? ==> Truthy(r.value) && exists c :: c in chain && name in c.locals && c.locals[name] == r.value
      ensures r.None? <==> forall c :: c in chain ==> !(name in c.locals && Truthy(c.locals[name]))
      ensures name in locals && Truthy(locals[name]) ==> r == Some(locals[name])
      ensures !(name in locals && Truthy(locals[name])) && parent != null ==> r == parent.Lookup(name)
    {
      if name in locals && Truthy(locals[name]) then Some(locals[name])
      else if parent == null then None
      else parent.Lookup(name)
    }

    /** `Context.root()`: a scope holding the standard library, outside any loop and function. */
    constructor Root()
      ensures Valid() && parent == null
      ensures locals == StandardLibrary() && !inLoop && currentFunction == Null
    {
      locals := StandardLibrary();
      parent := null;
      inLoop := false;
      currentFunction := Null;
      depth := 0;
      chain := {this};
    }

    /** The constructor call in `newChildContext(props)`: empty locals, this scope's flags unless overridden. */
    constructor Child(p: Context, props: ChildProps)
      requires p.Valid()
      ensures Valid() && parent == p && locals == map[]
      ensures inLoop == (if props.inLoop.Some? then props.inLoop.value else p.inLoop)
      ensures currentFunction == (if props.currentFunction.Some? then props.currentFunction.value else p.currentFunction)
      ensures chain == {this} + p.chain
    {
      locals := map[];
      parent := p;
      inLoop := if props.inLoop.Some? then props.inLoop.value else p.inLoop;
      currentFunction := if props.currentFunction.Some? then props.currentFunction.value else p.currentFunction;
      depth := p.depth + 1;
      chain := {this} + p.chain;
    }

    method NewChildContext(props: ChildProps) returns (c: Context)
      requires Valid()
      ensures fresh(c) && c.Valid() && c.parent == this && c.locals == map[]
      ensures c.inLoop == (if props.inLoop.Some? then props.inLoop.value else inLoop)
      ensures c.currentFunction == (if props.currentFunction.Some? then props.currentFunction.value else currentFunction)
      ensures forall n :: c.Lookup(n) == Lookup(n)
    {
      c := new Context.Child(this, props);
      ChildResolvesThroughParent(c);
    }

    /** `add(name, entity)`, after which the name resolves to the entity when the entity is truthy. */
    method Add(name: string, entity: Value)
      requires Valid()
      modifies this
      ensures Valid()
      ensures locals == old(locals)[name := entity]
      ensures Truthy(entity) ==> Lookup(name) == Some(entity)
      ensures forall n :: n != name ==> Lookup(n) == old(Lookup(n))
      ensures parent != null ==> forall n :: parent.Lookup(n) == old(parent.Lookup(n))
    {
      AncestorsExcludeSelf(this);
      locals := locals[name := entity];
      forall n | n != name
        ensures Lookup(n) == old(Lookup(n))
      {
        if parent != null {
          assert parent.Lookup(n) == old(parent.Lookup(n));
        }
      }
    }
  }

  /** Contexts on the chain are no deeper than its head. */
  lemma {:induction false} ChainDepths(c: Context)
    requires c.Valid()
    ensures forall d :: d in c.chain ==> d.depth <= c.depth
    ensures forall d :: d in c.chain ==> d.Valid()
    decreases c.depth
  {
    if c.parent != null {
      ChainDepths(c.parent);
    }
  }

  /** So a context never occurs among its own ancestors: adding to it leaves them untouched. */
  lemma AncestorsExcludeSelf(c: Context)
    requires c.Valid()
    ensures c.parent != null ==> c !in c.parent.chain
  {
    if c.parent != null {
      ChainDepths(c.parent);
    }
  }

  /** A scope with no locals resolves every name exactly as its parent does. */
  lemma ChildResolvesThroughParent(c: Context)
    requires c.Valid() && c.parent != null && c.locals == map[]
    ensures forall n :: c.Lookup(n) == c.parent.Lookup(n)
  {
  }

  /**
   * The nearest binding wins: when scope d on the chain binds the name truthily and no scope
   * between c and d does, the name resolves to d's entity.
   */
  lemma {:induction false} NearestBindingWins(c: Context, d: Context, name: string)
    requires c.Valid() && d in c.chain && name in d.locals && Truthy(d.locals[name])
    requires forall e :: e in c.chain && e.depth > d.depth ==> !(name in e.locals && Truthy(e.locals[name]))
    ensures c.Lookup(name) == Some(d.locals[name])
    decreases c.depth
  {
    ChainDepths(c);
    if c != d {
      assert d in c.parent.chain;
      ChainDepths(c.parent);
      assert c.depth > d.depth;
      NearestBindingWins(c.parent, d, name);
    }
  }

  /** The root resolves the standard library and nothing else. */
  lemma RootResolvesStandardLibrary(c: Context)
    requires c.Valid() && c.parent == null && c.locals == StandardLibrary()
    ensures c.Lookup("print") == Some(Ref(PrintAddr))
    ensures c.Lookup("p") == Some(Ref(PAddr))
    ensures c.Lookup("pl") == Some(Ref(PlAddr))
    ensures c.Lookup("types").Some? && c.Lookup("types").value.List?
    ensures forall n :: n !in {"print", "p", "pl", "types"} ==> c.Lookup(n).None?
  {
  }

  /**
   * The analyzer's scope handling: a name declared in a child scope resolves there, and the root
   * scope it was entered from still does not know it.
   */
  method DeclareInChild(name: string, entity: Value) returns (inChild: Option<Value>, inRoot: Option<Value>)
    requires Truthy(entity) && name !in {"print", "p", "pl", "types"}
    ensures inChild == Some(entity) && inRoot == None
  {
    var root := new Context.Root();
    RootResolvesStandardLibrary(root);
    var child := root.NewChildContext(ChildProps(Some(true), None));
    child.Add(name, entity);
    inChild := child.Lookup(name);
    inRoot := root.Lookup(name);
  }
}
