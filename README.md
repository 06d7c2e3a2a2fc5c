# PANIC compiler core, modelled in Dafny

PANIC is a small language that compiles to JavaScript. This project models the core of its
compiler:

- the IR vocabulary of `src/core.js`:
  - the primitive type names;
  - the standard library;
  - the types host literals carry;
  - the node records built by the constructor functions.
- the semantic checks of `src/analyzer.js`:
  - the scope chain (`Context`);
  - the `must*` checks;
  - the type relations `equivalent`, `assignable`, `typeDescription` and `includesAsField`;
  - `isMutable`;
  - the typing rules of the operator actions `Exp1_or`, `Exp1_and`, `Exp2_test`, `Exp3_add`,
    `Exp4_mul` and `Exp5_exp`, on already analysed operands.
- the optimizer of `src/optimizer.js`, which rewrites records in place.
- the JavaScript generator of `src/generator.js`:
  - the name map of `targetName`;
  - the `output` list;
  - each generator per kind, including the counting loops of Range;
  - `generate`.

The IR is a heap of records (`Ir.Heap`, a class whose `records` sequence the optimizer and the
operator actions update). A field holds a `Value`: a reference to a record, a literal, null,
undefined or an array. A well-formed heap is one where every traversed field refers to an older
record. This ordering bounds every recursion over the tree.

Analyzer failures are `SemanticError(message)`, with the message the source throws. The
location prefix is not modelled. A JavaScript `TypeError`, such as reading a property of null
or undefined or mapping over a non-array, is modelled as `TypeError`.

The generator is a class, `Generation.Generator`, holding `output`, `classes` and the
`targetName` map. Each of its methods is proved to return, leave behind and push exactly what a
`Codegen` function of the same name gives. That function returns an `Outcome`: the result, the
state afterwards and the values pushed. The laws of a run are proved about those functions in
`CodegenLaws`.

`Codegen` and `Generation` generate what `src/generator.js` generates, including at the three
places where that code departs from what it evidently means (see "## Findings"):

- Parameter records are renamed by `x.name`, which a Parameter record does not have, so the key
  is undefined.
- MethodCall records are renamed by `x.name` too, which a MethodCall record does not have
  either, so that key is undefined as well.
- The body statements of a function are not separated.

The corrected versions are kept apart in `CodegenLaws`, next to the laws that show the
difference.

Where the repository's documentation and its code disagree, the model follows the code:

- `mustNotAlreadyBeDeclared` asks `lookup`, which searches the whole scope chain. So shadowing a
  name from an enclosing scope is rejected (`Checks.ShadowingRejected`).
- `targetName` numbers names, not entities. So two different variables with the same name are
  rendered alike, and suffixes count distinct names in first-seen order.
- `isMutable` recurses through SubscriptExpression and MemberExpression records. `src/core.js`
  has no constructor for either kind, so they appear here only as node kinds.
- `equivalent` compares types structurally, except for struct types, which compare by identity
  (`id`). `includesAsField` compares a field's type with `===`, object identity for every
  composite type; the model compares values. Its only caller, `mustNotBeSelfContaining`, always
  passes a struct type, and struct types are compared by `id` in the model, so nothing the
  source does can tell the two apart.
- Every VariableDeclaration is generated with `let` (src/generator.js:32-34), also for an
  immutable (`im`) declaration. The repository's generator tests expect `const` there.
- `pl` is a Function named `printLine`. It renders as `printLine_k`, not as `console.log`.
- The standard-library functions have type `"void"`, which is not a function type. So
  `mustBeCallable` rejects `print` (`Checks.PrintIsNotCallable`).

## Model

| member | source | states |
|---|---|---|
| Types.PrimitiveNamesDistinct | src/core.js:1-6 | the six primitive type names are pairwise different strings |
| Ir.KindNameRoundTrip | src/core.js:20-121 | every constructor's `kind` tag names that constructor back |
| Ir.KindNamesDistinct | src/core.js:20-121 | two records have the same `kind` string exactly when the same constructor built them |
| Ir.LiteralType | src/core.js:15-18 | a host literal's type is one of string, float, int and boolean, never any or void |
| Ir.MakeEmptyArray | src/core.js:36-38 | `emptyArray` ignores what it is given: the record always has type any |
| Ir.StandardLibraryShape | src/core.js:8-13 | the keys are exactly types, print, p and pl; print and p are distinct Functions named "print"; pl is one named "printLine"; all three are typed void; types lists the six primitives in order; the shared break record is a BreakStatement |
| Ir.CoreRecordsWellFormed | src/core.js:8-13 | the records allocated at load time form a well-formed heap |
| Ir.TypeOf | src/analyzer.js:86-88 | reading `e.type` fails exactly on null and undefined |
| Ir.NameOf | src/generator.js:184 | reading `x.name` fails exactly on null and undefined |
| Ir.Heap.constructor | src/core.js:8-13 | a fresh heap holds exactly the records `src/core.js` allocates when loaded |
| Ir.Heap.Alloc | src/core.js:20-121 | a constructor call appends one record and returns a reference to it; the older records are unchanged |
| Scope.Context.Lookup | src/analyzer.js:27-29 | a truthy local binding is the answer; without one, the scope answers as its parent does; any answer is a truthy binding on the chain; there is none exactly when no scope on the chain binds the name truthily |
| Scope.NearestBindingWins | src/analyzer.js:27-29 | when scope d binds the name truthily and no scope between the head and d does, the name resolves to d's entity |
| Scope.Context.Root | src/analyzer.js:30-34 | the root scope has no parent, holds the standard library, is outside loops and has null as its function |
| Scope.Context.Child | src/analyzer.js:35-37 | a child scope has the given parent and empty locals; it inherits `inLoop` and `function` unless they are overridden |
| Scope.Context.NewChildContext | src/analyzer.js:35-37 | the fresh child has the same flags as `Child` and resolves every name exactly as its parent does |
| Scope.Context.Add | src/analyzer.js:24-26 | sets the one local; the name then resolves to a truthy entity; every other name resolves as before; the parent's resolutions are unchanged |
| Scope.AncestorsExcludeSelf | src/analyzer.js:35-37 | a scope is not among its own ancestors, so adding to it cannot change them |
| Scope.ChainDepths | src/analyzer.js:27-29 | every scope on a chain is valid and no deeper than the scope at its head |
| Scope.ChildResolvesThroughParent | src/analyzer.js:27-29 | a scope with no locals resolves every name as its parent does |
| Scope.RootResolvesStandardLibrary | src/analyzer.js:30-34 | the root resolves print, p, pl and types, and no other name |
| Scope.DeclareInChild | src/analyzer.js:24-37 | a name declared in a child of the root resolves there to its entity, and the root still does not know it |
| TypeRules.Equivalent | src/analyzer.js:160-175 | `equivalent`: identical types, or optionals, arrays or function types whose parts are equivalent, with the same number of parameters; its laws are the rows below |
| TypeRules.Assignable | src/analyzer.js:177-191 | `assignable`: to any, between equivalent types, or between function types with a covariant return type and contravariant parameter types; its laws are the rows below |
| TypeRules.EquivalentReflexive | src/analyzer.js:160-175 | every type is equivalent to itself |
| TypeRules.EquivalentSymmetric | src/analyzer.js:160-175 | equivalence is symmetric |
| TypeRules.EquivalentTransitive | src/analyzer.js:160-175 | equivalence is transitive |
| TypeRules.EquivalentToPrimitive | src/analyzer.js:160-175 | a primitive type is equivalent exactly to itself, on either side |
| TypeRules.FunctionShape | src/analyzer.js:169-173 | only function types are equivalent to function types |
| TypeRules.AssignableToAny | src/analyzer.js:177-179 | every type is assignable to any |
| TypeRules.EquivalentIsAssignable | src/analyzer.js:177-180 | equivalent types are assignable |
| TypeRules.AssignableReflexive | src/analyzer.js:177-180 | every type is assignable to itself |
| TypeRules.AssignableFromAny | src/analyzer.js:177-191 | a value of type any is assignable to any, and to nothing else |
| TypeRules.FunctionVariance | src/analyzer.js:181-189 | a function type is assignable to another when the arities agree, the return type is covariant and the parameter types are contravariant |
| TypeRules.FunctionStep | src/analyzer.js:181-189 | between function types, assignability implies the variance conditions |
| TypeRules.ArityMismatchNotAssignable | src/analyzer.js:185 | function types of different arity are never assignable |
| TypeRules.AssignableTransitive | src/analyzer.js:177-191 | assignability is transitive, so it is a preorder |
| TypeRules.TypeDescription | src/analyzer.js:193-204 | `typeDescription`: `[T]`, `T?`, `(P1, P2)->R`, the struct's name or the primitive's name; undefined where a part of the type is missing |
| TypeRules.TypeDescriptionDefined | src/analyzer.js:193-204 | a type can be described exactly when no part of it is missing |
| TypeRules.DescribeAll | src/analyzer.js:197 | the parameter descriptions, when defined, correspond one to one with the parameters |
| TypeRules.DescribeAllDefined | src/analyzer.js:197 | the parameter list can be described exactly when every parameter type can |
| TypeRules.IncludesAsField | src/analyzer.js:146-153 | `includesAsField`: some field type is identical to t, or is a struct type that includes t as a field |
| TypeRules.IncludesAsFieldReachable | src/analyzer.js:146-153 | `includesAsField(s, t)` holds exactly when some field type reachable through struct fields is identical to t |
| Checks.Must | src/analyzer.js:54-59 | passes exactly when the condition holds, and otherwise fails with the message |
| Checks.MustNotAlreadyBeDeclared | src/analyzer.js:68-70 | fails exactly when some scope on the chain binds the name truthily, with "Identifier n already declared" |
| Checks.MustHaveBeenFound | src/analyzer.js:72-74 | passes exactly for a truthy entity, and otherwise fails with "Identifier n not declared" |
| Checks.FoundIffAlreadyDeclared | src/analyzer.js:68-74 | a looked-up name is found exactly when declaring it again is rejected, and exactly when `lookup` returns it |
| Checks.ShadowingRejected | src/analyzer.js:68-70 | a name the parent scope resolves cannot be declared in the child |
| Checks.CheckType | src/analyzer.js:76-113 | a check on `e.type` passes exactly when e is not nullish and the test holds; it fails with TypeError on null or undefined, and with the message otherwise |
| Checks.MustHaveNumericType | src/analyzer.js:76-79 | passes exactly for a value typed int or float |
| Checks.MustHaveNumericOrStringType | src/analyzer.js:81-84 | passes exactly for a value typed int, float or string |
| Checks.MustHaveBooleanType | src/analyzer.js:86-88 | passes exactly for a value typed boolean |
| Checks.MustHaveIntegerType | src/analyzer.js:90-92 | passes exactly for a value typed int |
| Checks.MustHaveAnArrayType | src/analyzer.js:94-96 | passes exactly for a value with an array type |
| Checks.MustHaveAnOptionalType | src/analyzer.js:98-100 | passes exactly for a value with an optional type |
| Checks.MustHaveAStructType | src/analyzer.js:102-104 | passes exactly for a value with a struct type |
| Checks.MustHaveAnOptionalStructType | src/analyzer.js:106-113 | passes exactly for a value whose type is an optional of a struct type |
| Checks.MustBothHaveTheSameType | src/analyzer.js:115-121 | passes exactly when both operands are present and their types are equivalent; otherwise fails with "Operands do not have the same type" |
| Checks.MustAllHaveSameType | src/analyzer.js:123-133 | `mustAllHaveSameType`: passes for at most one expression, and otherwise runs the `every` loop from the second one |
| Checks.SameTypeAsFirstPasses | src/analyzer.js:123-133 | the `every` from index i passes exactly when every later element is present and equivalent in type to the first |
| Checks.MustAllHaveSameTypePasses | src/analyzer.js:123-133 | passes exactly when there is at most one element, or all elements are present and all have types equivalent to the first's |
| Checks.MustBeAType | src/analyzer.js:135-140 | passes exactly for a primitive whose name contains one of the basic words anywhere, or for a composite type |
| Checks.MustBeATypeAcceptsPrint | src/analyzer.js:136 | the unanchored pattern lets the non-type "print" through |
| Checks.MustBeATypeExact | src/analyzer.js:135-140 | the exact-name check: passes exactly for the six primitive names and for composite types |
| Checks.MustBeATypeExactRefines | src/analyzer.js:135-140 | the exact-name check rejects "print", and whatever it accepts the pattern also accepts |
| Checks.MustBeAnArrayType | src/analyzer.js:142-144 | passes exactly for array types, and otherwise fails with "Must be an array type" |
| Checks.MustNotBeSelfContaining | src/analyzer.js:155-158 | fails exactly when the struct is identical to a field type reachable from it |
| Checks.MustBeAssignable | src/analyzer.js:206-211 | passes exactly when both types can be described and the value's type is assignable; a semantic failure carries "Cannot assign a S to a T" with both descriptions |
| Checks.AssignToAnyPasses | src/analyzer.js:206-211 | any present, describable value may be assigned to any |
| Checks.AssignMessageExample | src/analyzer.js:206-211 | assigning the BigInt 1 to a string fails with "Cannot assign a int to a string" |
| Checks.IsMutable | src/analyzer.js:213-219 | `isMutable`: a Variable marked mutable, or a subscript or member access whose array or object is mutable |
| Checks.AccessBase | src/analyzer.js:213-219 | the base of an access path is never a subscript or member expression |
| Checks.IsMutableIffMutableBase | src/analyzer.js:213-219 | a value is mutable exactly when the base of its access path is a Variable marked mutable |
| Checks.MustBeMutable | src/analyzer.js:221-223 | passes exactly for mutable values; an immutable Variable fails with "Cannot assign to immutable n" |
| Checks.MustHaveDistinctFields | src/analyzer.js:225-228 | passes exactly when no two fields share a name, and otherwise fails with "Fields must be distinct" |
| Checks.DistinctIffSetSize | src/analyzer.js:226-227 | the set of names is as large as the list exactly when the names are pairwise different |
| Checks.MustHaveMember | src/analyzer.js:230-236 | passes exactly when some field has the name, and otherwise fails with "No such field" |
| Checks.MustBeInLoop | src/analyzer.js:238-240 | passes exactly inside a loop, and otherwise fails with "Break can only appear in a loop" |
| Checks.MustBeInAFunction | src/analyzer.js:242-244 | passes exactly when the current function is truthy |
| Checks.LoopScopes | src/analyzer.js:238-240 | break is rejected at the root and accepted in a loop body's scope |
| Checks.MustBeCallable | src/analyzer.js:246-250 | passes exactly for a present value with a function type |
| Checks.PrintIsNotCallable | src/analyzer.js:246-250 | print, p and pl are typed void, so calling them fails with "Call of non-function or non-constructor" |
| Checks.ReturnTypeOf | src/analyzer.js:252-260 | `f.type.returnType` is defined exactly when f is present and typed; for a function type it is the return type |
| Checks.MustNotReturnAnything | src/analyzer.js:252-255 | passes exactly when the return type is void |
| Checks.MustReturnSomething | src/analyzer.js:257-260 | passes exactly when the return type is defined and not void |
| Checks.ReturnChecksComplementary | src/analyzer.js:252-260 | for a typed function, exactly one of the two return checks passes |
| Checks.MustBeReturnable | src/analyzer.js:262-264 | passes exactly when the value is assignable to the function's return type |
| Checks.MustHaveCorrectArgumentCount | src/analyzer.js:266-269 | passes exactly when the counts agree; otherwise the message names both counts in decimal |
| Operators.Exp2Test | src/analyzer.js:360-367 | accepted exactly when comparisons have numeric or string operands and the operand types are equivalent; the result is typed boolean |
| Operators.Exp2TestSymmetric | src/analyzer.js:360-367 | whether a relational expression is accepted does not depend on the order of its operands |
| Operators.Exp3Add | src/analyzer.js:423-432 | `+` needs a numeric or string left operand and `-` a numeric one; the sides must be equivalent; the result takes the left operand's type |
| Operators.Exp3AddSameType | src/analyzer.js:423-432 | an accepted sum or difference has two operands of one primitive type, and a difference is never a string |
| Operators.StringsAddButDoNotSubtract | src/analyzer.js:423-432 | "a" + "b" is accepted; "a" - "b" fails with "Expected a number" |
| Operators.Exp4Mul | src/analyzer.js:445-450 | accepted exactly when the left operand is numeric; the right one is not checked |
| Operators.Exp4MulIgnoresRight | src/analyzer.js:445-450 | 2 * "x" is accepted and typed int |
| Operators.Exp5Exp | src/analyzer.js:459-464 | accepted exactly when the left operand is numeric and the right one equivalent; typed as the left |
| Operators.ArithmeticAgreesOnNumbers | src/analyzer.js:423-464 | whenever `**` accepts its operands, so do `+`, `-` and `*`, with the same result type |
| Operators.FirstNonBoolean | src/analyzer.js:382-386 | every operand before the index passes the boolean check, and the one at the index fails it |
| Operators.Chain | src/analyzer.js:379-410 | `Exp1_or` and `Exp1_and` as a function of the heap: check the first operand, then fold the rest into boolean records; its shape is stated by `ChainShape` |
| Operators.ChainFrom | src/analyzer.js:382-387 | the loop only appends to the heap |
| Operators.ChainFromSize | src/analyzer.js:382-387 | the loop allocates one record per operand before the first non-boolean one; it throws that operand's error; without an error it returns the last record |
| Operators.ChainFromLinks | src/analyzer.js:382-387 | each allocated record joins the chain so far to the next operand |
| Operators.ChainFromShape | src/analyzer.js:382-387 | the whole loop: sizes, records, error and result together |
| Operators.ChainShape | src/analyzer.js:379-388 | the first operand is checked before anything is allocated; the result is the left-nested chain of boolean records, or the first failing operand's error |
| Operators.LogicalChain | src/analyzer.js:379-410 | the loop of `Exp1_or` and `Exp1_and` returns and allocates exactly what `Chain` describes |
| Optimizer.Flatten | src/optimizer.js:9 | flattening loses at most one entry per array element |
| Optimizer.FlattenWithoutLists | src/optimizer.js:9 | with no array among the statements, `flatMap` keeps every one, in order |
| Optimizer.OptimizeSpec | src/optimizer.js:3-5 | returns the same object or TypeError; kinds are preserved and the heap stays well formed; records above the value are untouched |
| Optimizer.OptimizeProgram | src/optimizer.js:8-11 | on success the Program's statements are the flattened optimized statements; only records at or below it change |
| Optimizer.OptimizeVariableDeclaration | src/optimizer.js:12-16 | only records below the declaration change, and kinds are preserved |
| Optimizer.OptimizeTypeDeclaration | src/optimizer.js:18-21 | the heap is unchanged; it throws exactly on an undefined type |
| Optimizer.OptimizeFunctionDeclaration | src/optimizer.js:22-25 | only records below the declaration change, and kinds are preserved |
| Optimizer.FlatMapFrom | src/optimizer.js:9 | on success the result is the accumulated prefix followed by the flattened statements |
| Optimizer.Optimize | src/optimizer.js:3-5 | `optimize(node)` returns, and leaves the heap, as `OptimizeSpec` gives |
| Optimizer.OptimizeProgramRecord | src/optimizer.js:8-11 | the `flatMap` loop and the field update behave as `OptimizeProgram` gives |
| Optimizer.OptimizeVariableDeclarationRecord | src/optimizer.js:12-16 | both field updates, as `OptimizeVariableDeclaration` gives |
| Optimizer.OptimizeTypeDeclarationRecord | src/optimizer.js:18-21 | as `OptimizeTypeDeclaration` gives |
| Optimizer.OptimizeFunctionDeclarationRecord | src/optimizer.js:22-25 | as `OptimizeFunctionDeclaration` gives |
| Optimizer.PassThrough | src/optimizer.js:3-5 | a present value with no table entry comes back as itself, and the heap is unchanged |
| Optimizer.ProgramKeepsStatements | src/optimizer.js:8-11 | with no array statement, a successful pass leaves the Program record as it was |
| Optimizer.ProgramFixpoint | src/optimizer.js:8-11 | on a heap with no array statements, optimizing a Program changes nothing |
| Optimizer.FlatMapFixpoint | src/optimizer.js:9 | on such a heap the `flatMap` changes no record |
| Optimizer.VariableDeclarationFixpoint | src/optimizer.js:12-16 | on such a heap a declaration is left as it was |
| Optimizer.FunctionDeclarationFixpoint | src/optimizer.js:22-25 | on such a heap a function declaration is left as it was |
| Optimizer.SpecFixpoint | src/optimizer.js:3-27 | on such a heap the pass changes no record |
| Optimizer.Idempotent | src/optimizer.js:3-27 | on such a heap, running the pass twice gives the same result and heap as running it once |
| Optimizer.SettlesAfterFlatRun | src/optimizer.js:3-27 | whenever the first run leaves no array statement behind, a second run leaves the heap as the first run left it |
| Optimizer.SingleArrayStatement | src/optimizer.js:8-11 | a single array statement is spliced into the Program |
| Optimizer.NestedArrayNotIdempotent | src/optimizer.js:8-11 | an array of arrays is flattened one level per run, so a second run changes the heap again |
| Optimizer.SplicedUndefinedFailsSecondRun | src/optimizer.js:3-11 | an array holding undefined is spliced in, and the next run throws on it |
| Strings.NatToString | src/generator.js:11 | the decimal text of a number is non-empty and all digits |
| Strings.NatToStringInjective | src/generator.js:11 | different numbers print differently |
| Strings.SuffixedInjective | src/generator.js:11 | `name + "_" + digits` determines both the name and the digits |
| TargetNames.TargetName | src/generator.js:6-13 | a known name keeps the map; a new name gets `mapping.size + 1`; no ordinal changes; the text is `name_k` |
| TargetNames.TargetNameStable | src/generator.js:8-11 | asking again for the same name gives the same text and leaves the map unchanged |
| TargetNames.NamedInjective | src/generator.js:6-13 | two different names never get the same target name |
| TargetNames.TargetNames | src/generator.js:6-13 | a sequence of calls keeps ordinals 1..size, one per name |
| TargetNames.OrdinalsInFirstSeenOrder | src/generator.js:6-13 | after any sequence of calls, the j-th distinct name seen has ordinal j + 1 |
| TargetNames.NumbersSize | src/generator.js:9 | the map has one entry per distinct name seen |
| Ranges.Orbit | src/generator.js:50-53 | the values the `while` loop pushes from `current` on, while the loop test holds; its shape is stated by `OrbitShape` |
| Ranges.OrbitShape | src/generator.js:50-53 | the pushed elements start at `current`; each is the step of the one before; all pass the loop test; the next step fails it |
| Ranges.AddClosedForm | src/generator.js:49-54 | counting up by k lists start + i*k while it is at most end; one more step passes end |
| Ranges.SubtractClosedForm | src/generator.js:55-60 | counting down by k lists start - i*k while it is at least end |
| Ranges.MultiplyClosedForm | src/generator.js:61-66 | multiplying by k lists start * k^i while it is at most end |
| Ranges.StepProgress | src/generator.js:48-99 | under the bound this model needs, every step keeps the bound and brings the loop closer to its end |
| Ranges.Counted | src/generator.js:48-99 | a failure only ever reports a loop this model cannot bound |
| Ranges.NotRun | src/generator.js:67-72 | the `value <= 1` branch is modelled exactly when its loop does not run |
| Ranges.RangeElements | src/generator.js:48-100 | an operator with no case yields no elements; every failure is a case this model leaves out |
| Ranges.Count | src/generator.js:50-53 | the loop pushes exactly the elements `Orbit` lists |
| Ranges.CountIfBounded | src/generator.js:48-99 | runs the loop exactly when `Counted` says it is bounded |
| Ranges.Loop | src/generator.js:61-98 | picks the case's loop, or the `value <= 1` branch, as the `switch` does |
| Ranges.Expand | src/generator.js:48-100 | the `switch` pushes exactly what `RangeElements` gives |
| Ranges.DoublingRange | src/generator.js:61-66 | `[1...20, *2]` lists 1, 2, 4, 8, 16 |
| Ranges.TenfoldDivisionRange | src/generator.js:87-92 | `[100000...10, /10]` lists 100000 down to 10 |
| Ranges.SquaringRange | src/generator.js:74-79 | `[2...10000000000, **2]` lists 2, 4, 16, 256, 65536, 4294967296 |
| Ranges.ModuloRangeIsEmpty | src/generator.js:48-102 | `%` has no case, so the range prints as `[]` |
| Ranges.CountdownRange | src/generator.js:55-60 | `[10...1, -1]` counts down from 10 to 1 |
| Render.WrapAppend | src/generator.js:114 | the `code +=` callback appends one wrapped element per value, in order |
| Render.Show | src/generator.js:24 | `String(v)` in template literals: a literal's text, `[object Object]` for a record, an array's elements joined by "," |
| Render.ShowCode | src/generator.js:24 | generated text converts to itself, in a template literal and in `join` |
| Codegen.GenSpec | src/generator.js:15 | `gen` only adds names to the map and never renumbers one; it pushes nothing unless a Program lies below; it returns the node itself or generated text |
| Codegen.GenItems | src/generator.js:24 | `x.map(gen)` keeps the map discipline and yields one entry per element |
| Codegen.GenItemsStep | src/generator.js:24 | one element of the map: generate it, append it, continue from its state, or stop at its failure |
| Codegen.Pair | src/generator.js:27 | generating two fields in order keeps the map discipline |
| Codegen.Block | src/generator.js:113-115 | the block shape of If, ElseIF and While keeps the map discipline |
| Codegen.GenCode | src/generator.js:15 | a kind yields no text only for Program and for kinds without a generator |
| Codegen.GenStatementCode | src/generator.js:32-182 | the statement generators keep the map discipline |
| Codegen.GenExpressionCode | src/generator.js:23-234 | the expression generators keep the map discipline |
| Codegen.GenTargetName | src/generator.js:6-13 | `targetName` as a step: pushes nothing and keeps every ordinal |
| Codegen.GenProgram | src/generator.js:18-22 | on success the statements are an array and at least one entry per statement is pushed |
| Codegen.GenStatements | src/generator.js:19-21 | the `forEach` pushes at least one entry per statement |
| Codegen.GenStatementsStep | src/generator.js:19-21 | one statement: its own pushes, then its generated value, then the rest |
| Codegen.GenArray | src/generator.js:23-25 | keeps the map discipline |
| Codegen.GenArrayIndexing | src/generator.js:26-28 | keeps the map discipline |
| Codegen.GenVariableDeclaration | src/generator.js:32-34 | keeps the map discipline |
| Codegen.GenAssignment | src/generator.js:38-40 | keeps the map discipline |
| Codegen.GenRange | src/generator.js:41-103 | keeps the map discipline |
| Codegen.GenUnary | src/generator.js:108-111 | keeps the map discipline |
| Codegen.GenBinary | src/generator.js:104-107 | keeps the map discipline |
| Codegen.GenIf | src/generator.js:112-123 | keeps the map discipline |
| Codegen.GenElseIfs | src/generator.js:116-118 | keeps the map discipline |
| Codegen.GenOtherwise | src/generator.js:119-121 | keeps the map discipline |
| Codegen.GenElseIf | src/generator.js:124-129 | keeps the map discipline |
| Codegen.GenElse | src/generator.js:130-135 | keeps the map discipline |
| Codegen.GenWhile | src/generator.js:137-142 | keeps the map discipline |
| Codegen.GenFor | src/generator.js:143-160 | keeps the map discipline |
| Codegen.GenForHeader | src/generator.js:144-156 | keeps the map discipline |
| Codegen.GenForRangeHeader | src/generator.js:145-152 | keeps the map discipline |
| Codegen.ForBody | src/generator.js:157-159 | keeps the map discipline |
| Codegen.GenFunctionDeclaration | src/generator.js:164-169 | keeps the map discipline |
| Codegen.GenFunctionParts | src/generator.js:165-168 | keeps the map discipline; as written, no separator follows a body statement (`BodyRunsTogetherAsWritten`) |
| Codegen.GenParameter | src/generator.js:173-178 | keeps the map discipline; as written, the key is `x.name`, undefined for a Parameter (`ParametersCollideAsWritten`) |
| Codegen.GenReturn | src/generator.js:179-182 | keeps the map discipline |
| Codegen.GenFunctionCall | src/generator.js:183-191 | keeps the map discipline |
| Codegen.GenMethodCall | src/generator.js:229-234 | keeps the map discipline; as written, the key is `x.name`, undefined for a MethodCall (`MethodCallRenders`) |
| Codegen.Generate | src/generator.js:237-238 | `generate`: run `gen` from the empty state, then join what was pushed with newlines; its laws are `GenerateProgram` and `GenerateJoinsStatements` |
| Generation.Generator.constructor | src/generator.js:2-13 | a run starts with empty `output`, no classes and an empty map |
| Generation.Generator.TargetName | src/generator.js:6-13 | returns the name `targetName` gives and updates the map to match; pushes nothing |
| Generation.Generator.Push | src/generator.js:20 | appends one value to `output` and leaves the map and classes alone |
| Generation.Generator.Gen | src/generator.js:15 | returns what `GenSpec` gives, leaves its state and pushes exactly its values |
| Generation.Generator.GenPair | src/generator.js:27 | two `gen` calls in order, as `Pair` gives |
| Generation.Generator.GenAll | src/generator.js:24 | the `map(gen)` loop, as `GenItems` gives |
| Generation.Generator.GenLines | src/generator.js:114 | the `code +=` loop, as `GenItems` gives, with every element wrapped |
| Generation.Generator.GenKind | src/generator.js:15 | the dispatch on `kind`, as `GenCode` gives |
| Generation.Generator.GenStatement | src/generator.js:32-182 | as `GenStatementCode` gives |
| Generation.Generator.GenExpression | src/generator.js:23-234 | as `GenExpressionCode` gives |
| Generation.Generator.GenProgram | src/generator.js:18-22 | as `Codegen.GenProgram` gives |
| Generation.Generator.PushAll | src/generator.js:19-21 | the `forEach` loop pushing each statement, as `GenStatements` gives |
| Generation.Generator.GenArray | src/generator.js:23-25 | as `Codegen.GenArray` gives |
| Generation.Generator.GenArrayIndexing | src/generator.js:26-28 | as `Codegen.GenArrayIndexing` gives |
| Generation.Generator.GenVariableDeclaration | src/generator.js:32-34 | as `Codegen.GenVariableDeclaration` gives |
| Generation.Generator.GenAssignment | src/generator.js:38-40 | as `Codegen.GenAssignment` gives |
| Generation.Generator.GenRange | src/generator.js:41-103 | generates the four fields, then runs the `switch`, as `Codegen.GenRange` gives |
| Generation.Generator.GenUnary | src/generator.js:108-111 | as `Codegen.GenUnary` gives |
| Generation.Generator.GenBinary | src/generator.js:104-107 | as `Codegen.GenBinary` gives |
| Generation.Generator.GenBlock | src/generator.js:113-115 | the `code +=` block of If, ElseIF and While, as `Block` gives |
| Generation.Generator.GenIf | src/generator.js:112-123 | as `Codegen.GenIf` gives |
| Generation.Generator.GenElseIfs | src/generator.js:116-118 | as `Codegen.GenElseIfs` gives |
| Generation.Generator.GenOtherwise | src/generator.js:119-121 | as `Codegen.GenOtherwise` gives |
| Generation.Generator.GenElse | src/generator.js:130-135 | as `Codegen.GenElse` gives |
| Generation.Generator.GenFor | src/generator.js:143-160 | as `Codegen.GenFor` gives |
| Generation.Generator.GenForHeader | src/generator.js:144-156 | as `Codegen.GenForHeader` gives |
| Generation.Generator.GenForRangeHeader | src/generator.js:145-152 | as `Codegen.GenForRangeHeader` gives |
| Generation.Generator.GenForBody | src/generator.js:157-159 | as `Codegen.ForBody` gives |
| Generation.Generator.GenFunctionDeclaration | src/generator.js:164-169 | as `Codegen.GenFunctionDeclaration` gives |
| Generation.Generator.GenFunctionParts | src/generator.js:165-168 | as `Codegen.GenFunctionParts` gives |
| Generation.Generator.GenParameter | src/generator.js:173-178 | as `Codegen.GenParameter` gives |
| Generation.Generator.GenReturn | src/generator.js:179-182 | as `Codegen.GenReturn` gives |
| Generation.Generator.GenFunctionCall | src/generator.js:183-191 | as `Codegen.GenFunctionCall` gives |
| Generation.Generator.GenMethodCall | src/generator.js:229-234 | as `Codegen.GenMethodCall` gives |
| Generation.Generate | src/generator.js:237-238 | `generate(program)` returns what `Codegen.Generate` gives |
| CodegenLaws.StatementsPushTheirCode | src/generator.js:18-22 | without a nested Program, the `forEach` pushes exactly `statements.map(gen)`, and fails at the same statement with the same error |
| CodegenLaws.ProgramPushesStatements | src/generator.js:18-22 | a Program whose statements are not an array throws; otherwise it pushes one generated entry per statement, in order |
| CodegenLaws.ProgramRecord | src/generator.js:15-22 | `gen` of a Program returns the Program record itself, with the pushes of its generator |
| CodegenLaws.GenerateProgram | src/generator.js:237-238 | `generate` on a Program joins what it pushed with newlines, or throws its error |
| CodegenLaws.GenerateJoinsStatements | src/generator.js:237-238 | `generate(program)` succeeds exactly when every statement generates, and is then the generated statements joined by newlines |
| CodegenLaws.NamedRecord | src/generator.js:35-37 | `gen` of a Variable or Function record is `targetName(x.name)` and pushes nothing |
| CodegenLaws.NameStable | src/generator.js:6-13 | a variable or function is rendered the same way at every later point of the run |
| CodegenLaws.NamedDistinctLater | src/generator.js:6-13 | a name numbered earlier and a different name numbered then or later render differently |
| CodegenLaws.TargetNamesDistinct | src/generator.js:6-13 | two different names never get the same target text within a run |
| CodegenLaws.NoGeneratorYieldsNode | src/generator.js:15 | a plain value, or a record whose kind has no generator, is its own result, and the state is unchanged |
| CodegenLaws.StrictComparisons | src/generator.js:105 | the operator table never emits `=` or `!=`; it yields `===` exactly for `=` and `===`, and `!==` exactly for `!=` and `!==`; `==` and every other operator pass through unchanged |
| CodegenLaws.LiteralsGenerateThemselves | src/generator.js:15 | `map(gen)` over literals returns them unchanged, pushes nothing and numbers nothing |
| CodegenLaws.BinaryRenders | src/generator.js:104-107 | a binary expression over literals renders as `(l op r)`, with `=` and `!=` made strict |
| CodegenLaws.UnaryRenders | src/generator.js:108-111 | a unary expression over a value with no generator renders as `op(v)`, pushing nothing and numbering no name |
| CodegenLaws.ArrayIndexingRenders | src/generator.js:26-28 | an indexing over values with no generator renders as `a[i]`, pushing nothing |
| CodegenLaws.VariableThenValue | src/generator.js:35-37 | a Variable record and then a plain value generate as the variable's target name and the value, in that order |
| CodegenLaws.AssignmentRenders | src/generator.js:38-40 | an assignment to a variable renders as `x_k = v;`; only the variable's numbering changes the state |
| CodegenLaws.VariableDeclarationRenders | src/generator.js:32-34 | a declaration renders as `let x_k = v;`, mutable or not; only the variable's numbering changes the state |
| CodegenLaws.ReturnRenders | src/generator.js:179-182 | `return;` exactly for undefined, `return v;` for any other plain value |
| CodegenLaws.WhileRenders | src/generator.js:137-142 | `while t {\n`, then `"  " + s + "\n"` per literal body statement, then `\n}`, pushing nothing |
| CodegenLaws.PrintCallsConsoleLog | src/generator.js:184-186 | a call of a function named "print" is `console.log(args);`, and the callee is not renamed |
| CodegenLaws.CallRendersCallee | src/generator.js:187-190 | any other call is `f_k(args)`, with `new ` in front exactly when the callee's name is one of the run's classes |
| CodegenLaws.ForRangeHeaderRenders | src/generator.js:145-152 | a `for` over a Range is `for (let i = s; i T e; i op= v) {`, where T is `>=` exactly for `-`, `%` and `/`; only the loop variable is named |
| CodegenLaws.CountedHeaderRenders | src/generator.js:153-156 | a `for` over a literal collection counts `i` from 1 up to it with `i++` |
| CodegenLaws.ParameterRendersAsWritten | src/generator.js:173-178 | as written, a parameter without a default renders as the target name of undefined, and pushes nothing |
| CodegenLaws.ParametersCollideAsWritten | src/generator.js:173-178 | as written, any two parameters without defaults get the same name `undefined_k` |
| CodegenLaws.UndefinedNamedTwice | src/generator.js:8-11 | `targetName(undefined)` twice gives `undefined_k` both times and leaves the map as the first call left it |
| CodegenLaws.TwoParametersShareANameAsWritten | src/generator.js:173-178 | as written, both parameters of `f(x, y)` become `undefined_2` |
| CodegenLaws.GenParameterById | src/generator.js:173-178 | corrected, keyed by `id`: keeps the map discipline |
| CodegenLaws.ParameterNamesDistinct | src/generator.js:173-178 | corrected, two parameters with different ids and no defaults get different names |
| CodegenLaws.MethodCallRenders | src/generator.js:229-234 | as written, a call on a literal receiver with literal arguments is `obj.undefined_k(args)`, whatever the method |
| CodegenLaws.MethodsCollideAsWritten | src/generator.js:232 | as written, every method call uses the key undefined, so any two of them call the same renamed method |
| CodegenLaws.GenMethodCallByName | src/generator.js:229-234 | corrected, keyed by `methodName`: keeps the map discipline |
| CodegenLaws.MethodNamesDistinct | src/generator.js:232 | corrected, calls of different methods get different names |
| CodegenLaws.FunctionTextRunsTogether | src/generator.js:164-169 | as written, the function text for a body of `a;` and `b;` is `function f_1() {\na;b;\n}\n` |
| CodegenLaws.BodyRunsTogetherAsWritten | src/generator.js:165-168 | as written, a function with the body statements `a;` and `b;` is generated with both on one line |
| CodegenLaws.IntendedFunctionText | src/generator.js:164-169 | corrected: the function text with a newline after every body statement |
| CodegenLaws.BodyStatementsOnOwnLines | src/generator.js:166 | corrected, a non-empty body is its statements joined by newlines, with a final newline |
| CodegenLaws.BodyOnSeparateLines | src/generator.js:166 | corrected, the same body keeps one statement per line |

## Left out

- The Ohm semantic actions of `src/analyzer.js` (lines 283-945): they walk the parse tree. The
  model takes their analysed operands as inputs. Only the typing rules of the operator actions
  are modelled, and failure messages carry no source-location prefix.
- The debug `console.log` calls of the analyzer, and `mustBeIterable`, whose body is empty.
- The parser, the command-line driver, the interpreter and `src/translator.js`: file I/O,
  process exit, grammar loading and floating-point evaluation.
- Class lowering (ClassDeclaration and ConstructorCall, `src/generator.js:192-228`). It is
  string surgery with a first-match `replace`. Generating either kind fails with
  `NotModelled`, so the run's `classes` list stays empty. `CodegenLaws.CallRendersCallee` still
  states the `new ` prefix for a given class list.
- Ranges.RangeElements: covers BigInt bounds and steps only. It reports `NotModelled` instead of:
  - float ranges;
  - the `value <= 1` branches of `*`, `**` and `/` when their loop would run (these never end
    for a step of 1);
  - `+` or `-` with a step of 0 or less;
  - `*` from a start of 0 or less;
  - `**` from a start below 2;
  - `/` towards an end of 0 or less.
- Optimizer.Idempotent: proved only for heaps in which no Program statement is an array.
  `Optimizer.NestedArrayNotIdempotent` and `Optimizer.SplicedUndefinedFailsSecondRun` show that
  the property fails otherwise.
- The constant folding, algebraic simplification and dead-code removal that the optimizer tests
  describe. `src/optimizer.js` does none of them.
- Operator names that JavaScript would find on `Object.prototype`, when looked up in the
  BinaryExpression operator table. No PANIC operator is such a name.
- A struct type used directly as a callee in `mustBeCallable`: a `Value` here is never a type.
- Cyclic struct types, such as a struct with a field of its own type: a `Type` is an inductive
  value, so a cycle cannot be written. `includesAsField` recurses without bound on some cyclic
  graphs (in JavaScript that ends in a stack-overflow RangeError), for example a struct holding a
  field of type t where t has a field of type t. The model does not capture that unbounded
  recursion. Its only caller, `mustNotBeSelfContaining` (src/analyzer.js:155-158), is itself
  called only from commented-out code (src/analyzer.js:702).
- The corrected Parameter, MethodCall and function-body renderings (`GenParameterById`,
  `GenMethodCallByName`, `IntendedFunctionText`) are stated per record. No corrected version of
  `generate` runs them over a whole program.
- Checks.MustBeAssignable: only its semantic failure message is stated; a failure to read or
  describe a type is stated only as not passing.

## Findings

| source | as written | input that shows it | evidently intended | confidence | as-written member | corrected member |
|---|---|---|---|---|---|---|
| src/generator.js:173-178 | Parameter renames `targetName(x.name)`. A parameter record keeps its name in `id` (src/core.js:99-101), so the key is always undefined. | two Parameter records `x` and `y` without defaults, generated after a function named `f_1`: both are rendered `undefined_2`. (PANIC source text cannot reach this line today: the analyzer calls `core.functionType`, which src/core.js does not define, and a typed parameter stores its type text as its default, so it would be rendered `undefined_2 = int`.) | rename by `x.id`, so that different parameters get different names | not executed | CodegenLaws.ParametersCollideAsWritten | CodegenLaws.ParameterNamesDistinct |
| src/generator.js:232 | MethodCall renames `targetName(x.name)`. A method-call record keeps the name in `methodName` (src/core.js:119-121), so the key is always undefined. | two MethodCall records for `push` and `pop` on the same receiver, given straight to the generator (the analyzer never builds a MethodCall record): both call the same renamed method `undefined_k` | rename by `x.methodName` | not executed | CodegenLaws.MethodsCollideAsWritten | CodegenLaws.MethodNamesDistinct |
| src/generator.js:166 | The body callback is `(code += gen(x)) + "\n"`, so the newline goes onto the callback's return value and not onto `code`. | a body of `a;` and `b;` becomes `function f_1() {\na;b;\n}\n` | every body statement ends its own line | not executed | CodegenLaws.BodyRunsTogetherAsWritten | CodegenLaws.BodyStatementsOnOwnLines |
| src/analyzer.js:136 | The basic-type pattern `/int\|float\|string\|bool\|void\|any/` is not anchored, so any string containing one of the words passes. | `mustBeAType("print")` passes, because "print" contains "int" | only the six primitive type names pass | not executed | Checks.MustBeATypeAcceptsPrint | Checks.MustBeATypeExactRefines |
