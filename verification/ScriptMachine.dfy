/** Environments of a running script and the operations that bind names in one of them. */
module ScriptMachine {
  import opened Outcomes
  import opened HeapRecords
  import opened ScriptSyntax

  type Bindings = map<string, Binding>

  /** Failures that accepted code is never to reach. */
  datatype Fault =
    | InvalidEnvironment
    | VariableConflict
    | LexicalConflict
    | AlreadyDeclared
    | NotInstantiated
    | InitializedTwice
    | MissingVariable
    | NotVariableScoped
    | LoopBindingTwice
    | LoopBindingLost
    | LoopBindingUninitialized
    | NamelessFunction
    | CatchBodyNotBlock
    | LoopControlEscaped
    | ReturnEscaped

  // ---- one binding -----------------------------------------------------------------------

  function InitializeBinding(b: Bindings, name: string, value: RawValue): Result<Bindings, Fault> {
    if name !in b then Err(NotInstantiated)
    else if b[name].state.Initialized? then Err(InitializedTwice)
    else Ok(b[name := b[name].(state := Initialized(value))])
  }

  function SetVariableBinding(b: Bindings, name: string, value: RawValue): Result<Bindings, Fault> {
    if name !in b then Err(MissingVariable)
    else if !b[name].kind.VariableKind? then Err(NotVariableScoped)
    else Ok(b[name := b[name].(state := Initialized(value))])
  }

  function CreateInitialized(b: Bindings, name: string, kind: BindingKind, mutable: bool,
                             value: RawValue): Result<Bindings, Fault> {
    if name in b then Err(AlreadyDeclared) else Ok(b[name := Binding(kind, mutable, Initialized(value))])
  }

  /** Parameters in turn, each given its argument or undefined. */
  function BindParameters(b: Bindings, parameters: seq<string>, arguments: seq<RawValue>): Result<Bindings, Fault>
    decreases |parameters|
  {
    if parameters == [] then Ok(b)
    else
      var first := if arguments == [] then Undefined else arguments[0];
      var next :- CreateInitialized(b, parameters[0], VariableKind, true, first);
      BindParameters(next, parameters[1..], if arguments == [] then [] else arguments[1..])
  }

  // ---- hoisting ------------------------------------------------------------------------------

  /** The `var` declarations that execution of a statement hoists, in order. */
  function Hoisted(s: Statement): seq<string>
    decreases s
  {
    match s
    case VariableDeclaration(bindings) => Names(bindings)
    case Block(statements) => HoistedAll(statements)
    case If(consequent, alternate) => Hoisted(consequent) + if alternate.Some? then Hoisted(alternate.value) else []
    case While(body) => Hoisted(body)
    case DoWhile(body) => Hoisted(body)
    case For(initializer, _, _, body) =>
      (if initializer.VariableInitializer? then Names(initializer.variables) else []) + Hoisted(body)
    case Try(body, handler, finalizer) =>
      Hoisted(body) + (if handler.Some? then Hoisted(handler.value.body) else [])
      + if finalizer.Some? then Hoisted(finalizer.value) else []
    case _ => []
  }

  function HoistedAll(list: seq<Statement>): seq<string>
    decreases list
  {
    if list == [] then [] else Hoisted(list[0]) + HoistedAll(list[1..])
  }

  datatype Declaration = Declaration(name: string, mutable: bool)

  function DeclarationsOf(s: Statement): seq<Declaration> {
    if s.LexicalDeclaration? then seq(|s.bindings|,
        i requires 0 <= i < |s.bindings| => Declaration(s.bindings[i].name, s.mutable)) else []
  }

  function LexicalPlan(list: seq<Statement>): seq<Declaration> {
    if list == [] then [] else DeclarationsOf(list[0]) + LexicalPlan(list[1..])
  }

  function BlockPlan(list: seq<Statement>): seq<Declaration> {
    if list == [] then []
    else DeclarationsOf(list[0]) + (if FunctionNames(list[0]) == [] then []
        else [Declaration(FunctionNames(list[0])[0], true)]) + BlockPlan(list[1..])
  }

  function DeclareVariables(b: Bindings, names: seq<string>): Bindings
    decreases |names|
  {
    if names == [] then b
    else DeclareVariables(if names[0] in b then b
        else b[names[0] := Binding(VariableKind, true, Initialized(Undefined))], names[1..])
  }

  function DeclareLexicals(b: Bindings, plan: seq<Declaration>): Bindings
    decreases |plan|
  {
    if plan == [] then b
    else DeclareLexicals(b[plan[0].name := Binding(LexicalKind, plan[0].mutable, Uninitialized)], plan[1..])
  }

  /** The values of hoisted functions, by name. */
  type Closures = string -> RawValue

  function SetFunctions(b: Bindings, names: seq<string>, closures: Closures): Result<Bindings, Fault>
    decreases |names|
  {
    if names == [] then Ok(b)
    else if names[0] !in b then Err(NotInstantiated)
    else SetFunctions(b[names[0] := b[names[0]].(state := Initialized(closures(names[0])))], names[1..], closures)
  }

  function InitializeFunctions(b: Bindings, names: seq<string>, closures: Closures): Result<Bindings, Fault>
    decreases |names|
  {
    if names == [] then Ok(b)
    else
      var next :- InitializeBinding(b, names[0], closures(names[0]));
      InitializeFunctions(next, names[1..], closures)
  }

  predicate OtherKind(b: Bindings, name: string) {
    name in b && !b[name].kind.VariableKind?
  }

  /** The environment with the variables, the functions and the uninitialized lexical names of a body. */
  function InstallBody(b: Bindings, list: seq<Statement>, closures: Closures): Result<Bindings, Fault> {
    var filled :- SetFunctions(DeclareVariables(b, HoistedAll(list) + ListFunctionNames(list)),
        ListFunctionNames(list), closures);
    Ok(DeclareLexicals(filled, LexicalPlan(list)))
  }

  /** A function body or script is checked against what its environment holds before anything is installed. */
  function InstantiateBody(b: Bindings, list: seq<Statement>, closures: Closures): Result<Bindings, Fault> {
    var variables := HoistedAll(list) + ListFunctionNames(list);
    var plan := LexicalPlan(list);
    if !AllNamed(list) then Err(NamelessFunction)
    else if exists n :: n in variables && OtherKind(b, n) then Err(VariableConflict)
    else if exists d :: d in plan && d.name in b then Err(LexicalConflict)
    else InstallBody(b, list, closures)
  }

  /** A block gets its lexical names and functions in its own environment. */
  function InstantiateBlock(b: Bindings, list: seq<Statement>, closures: Closures): Result<Bindings, Fault> {
    var plan := BlockPlan(list);
    if !AllNamed(list) then Err(NamelessFunction)
    else if exists d :: d in plan && d.name in b then Err(LexicalConflict)
    else InitializeFunctions(DeclareLexicals(b, plan), ListFunctionNames(list), closures)
  }

  // ---- loop heads ------------------------------------------------------------------------------

  function InstantiateLoop(b: Bindings, mutable: bool, names: seq<string>): Result<Bindings, Fault>
    decreases |names|
  {
    if names == [] then Ok(b)
    else if names[0] in b then Err(LoopBindingTwice)
    else InstantiateLoop(b[names[0] := Binding(LexicalKind, mutable, Uninitialized)], mutable, names[1..])
  }

  /** Copies of a loop's bindings for the next iteration. */
  function Freshened(b: Bindings, names: seq<string>): Result<Bindings, Fault>
    decreases |names|
  {
    if names == [] then Ok(map[])
    else if names[0] !in b then Err(LoopBindingLost)
    else if b[names[0]].state.Uninitialized? then Err(LoopBindingUninitialized)
    else
      var rest :- Freshened(b, names[1..]);
      Ok(map[names[0] := b[names[0]]] + rest)
  }

  // ---- what instantiation leaves ---------------------------------------------------------------

  predicate VarsBound(b: Bindings, names: set<string>) {
    forall n :: n in names ==> n in b && b[n].kind.VariableKind?
  }

  predicate Pending(b: Bindings, names: seq<string>) {
    forall n :: n in names ==> n in b && b[n].state.Uninitialized? && b[n].kind.LexicalKind?
  }

  /** The names the parser collects for `var` are exactly those that execution hoists. */
  lemma {:induction false} HoistedIsVarNames(s: Statement)
    ensures SetOf(Hoisted(s)) == VarNames(s)
    decreases s
  {
    match s {
      case Block(statements) => HoistedAllIsVarNames(statements);
      case If(consequent, alternate) =>
        HoistedIsVarNames(consequent);
        if alternate.Some? { HoistedIsVarNames(alternate.value); }
      case While(body) => HoistedIsVarNames(body);
      case DoWhile(body) => HoistedIsVarNames(body);
      case For(_, _, _, body) => HoistedIsVarNames(body);
      case Try(body, handler, finalizer) =>
        HoistedIsVarNames(body);
        if handler.Some? { HoistedIsVarNames(handler.value.body); }
        if finalizer.Some? { HoistedIsVarNames(finalizer.value); }
      case _ =>
    }
  }

  lemma {:induction false} HoistedAllIsVarNames(list: seq<Statement>)
    ensures SetOf(HoistedAll(list)) == ListVarNames(list)
    decreases list
  {
    if list != [] {
      HoistedIsVarNames(list[0]);
      HoistedAllIsVarNames(list[1..]);
    }
  }

  function PlanNames(plan: seq<Declaration>): seq<string> {
    seq(|plan|, i requires 0 <= i < |plan| => plan[i].name)
  }

  lemma PlanNamesAppend(a: seq<Declaration>, b: seq<Declaration>)
    ensures PlanNames(a + b) == PlanNames(a) + PlanNames(b)
  {
  }

  lemma OwnPlanNames(s: Statement)
    ensures PlanNames(DeclarationsOf(s)) == LexicalNames(s)
    ensures FunctionNames(s) != [] ==> FunctionNames(s) == PlanNames([Declaration(FunctionNames(s)[0], true)])
  {
  }

  lemma {:induction false} PlansAreNames(list: seq<Statement>)
    ensures PlanNames(LexicalPlan(list)) == ListLexicalNames(list)
    ensures PlanNames(BlockPlan(list)) == ListNames(list)
  {
    if list != [] {
      PlansAreNames(list[1..]);
      OwnPlanNames(list[0]);
      var own := if FunctionNames(list[0]) == [] then [] else [Declaration(FunctionNames(list[0])[0], true)];
      PlanNamesAppend(DeclarationsOf(list[0]), LexicalPlan(list[1..]));
      PlanNamesAppend(DeclarationsOf(list[0]), own);
      PlanNamesAppend(DeclarationsOf(list[0]) + own, BlockPlan(list[1..]));
    }
  }

  lemma {:induction false} VariablesDeclared(b: Bindings, names: seq<string>)
    ensures var r := DeclareVariables(b, names);
            && r.Keys == b.Keys + SetOf(names)
            && (forall n :: n in b ==> r[n] == b[n])
            && (forall n :: n in r && n !in b ==> r[n].kind.VariableKind?)
    decreases |names|
  {
    if names != [] {
      VariablesDeclared(if names[0] in b then b
          else b[names[0] := Binding(VariableKind, true, Initialized(Undefined))], names[1..]);
    }
  }

  lemma {:induction false} LexicalsDeclared(b: Bindings, plan: seq<Declaration>)
    ensures var r := DeclareLexicals(b, plan);
            && r.Keys == b.Keys + SetOf(PlanNames(plan))
            && (forall n :: n in b && n !in PlanNames(plan) ==> r[n] == b[n])
            && Pending(r, PlanNames(plan))
    decreases |plan|
  {
    if plan != [] {
      LexicalsDeclared(b[plan[0].name := Binding(LexicalKind, plan[0].mutable, Uninitialized)], plan[1..]);
      assert PlanNames(plan) == [plan[0].name] + PlanNames(plan[1..]);
    }
  }

  lemma {:induction false} FunctionsSet(b: Bindings, names: seq<string>, closures: Closures)
    requires SetOf(names) <= b.Keys
    ensures var r := SetFunctions(b, names, closures);
            && r.Ok? && r.value.Keys == b.Keys
            && (forall n :: n in b ==> r.value[n].kind == b[n].kind && r.value[n].mutable == b[n].mutable)
            && (forall n :: n in b && n !in names ==> r.value[n] == b[n])
    decreases |names|
  {
    if names != [] {
      assert names[0] in SetOf(names);
      FunctionsSet(b[names[0] := b[names[0]].(state := Initialized(closures(names[0])))], names[1..], closures);
    }
  }

  lemma {:induction false} FunctionsInitialized(b: Bindings, names: seq<string>, closures: Closures)
    requires Distinct(names) && Pending(b, names)
    ensures var r := InitializeFunctions(b, names, closures);
            && r.Ok? && r.value.Keys == b.Keys
            && (forall n :: n in b && n !in names ==> r.value[n] == b[n])
    decreases |names|
  {
    if names != [] {
      var next := b[names[0] := b[names[0]].(state := Initialized(closures(names[0])))];
      assert names == [names[0]] + names[1..];
      assert Pending(next, names[1..]);
      FunctionsInitialized(next, names[1..], closures);
    }
  }

  lemma PlanMembers(plan: seq<Declaration>)
    ensures forall d :: d in plan ==> d.name in SetOf(PlanNames(plan))
    ensures forall n :: n in SetOf(PlanNames(plan)) ==> exists d :: d in plan && d.name == n
  {
    forall d | d in plan
      ensures d.name in SetOf(PlanNames(plan))
    {
      var i :| 0 <= i < |plan| && plan[i] == d;
      assert PlanNames(plan)[i] == d.name;
    }
    forall n | n in SetOf(PlanNames(plan))
      ensures exists d :: d in plan && d.name == n
    {
      var i :| 0 <= i < |plan| && PlanNames(plan)[i] == n;
      assert plan[i] in plan;
    }
  }

  /** Whether something that the environment holds already is in the way of a body's declarations. */
  ghost predicate InTheWay(b: Bindings, list: seq<Statement>) {
    || (exists n :: n in ListVarNames(list) + SetOf(ListFunctionNames(list)) && OtherKind(b, n))
    || !(SetOf(ListLexicalNames(list)) !! b.Keys)
  }

  lemma PreflightFinds(b: Bindings, list: seq<Statement>)
    ensures (exists n :: n in HoistedAll(list) + ListFunctionNames(list) && OtherKind(b, n)) <==>
            (exists n :: n in ListVarNames(list) + SetOf(ListFunctionNames(list)) && OtherKind(b, n))
    ensures (exists d :: d in LexicalPlan(list) && d.name in b) <==> !(SetOf(ListLexicalNames(list)) !! b.Keys)
  {
    HoistedAllIsVarNames(list);
    var variables := HoistedAll(list) + ListFunctionNames(list);
    assert forall n :: n in variables <==> n in ListVarNames(list) + SetOf(ListFunctionNames(list)) by {
      assert SetOf(variables) == ListVarNames(list) + SetOf(ListFunctionNames(list));
      assert forall n :: n in variables <==> n in SetOf(variables);
    }
    PlansAreNames(list);
    PlanMembers(LexicalPlan(list));
    hide SetOf;
    hide HoistedAll;
    hide ListVarNames;
    hide ListLexicalNames;
    hide LexicalPlan;
    if !(SetOf(ListLexicalNames(list)) !! b.Keys) {
      var n :| n in SetOf(ListLexicalNames(list)) && n in b;
    }
  }

  lemma BodyInstalls(b: Bindings, list: seq<Statement>, closures: Closures)
    requires BodyScoped(list, {}) && !InTheWay(b, list)
    ensures var r := InstallBody(b, list, closures);
            r.Ok? && VarsBound(r.value, ListVarNames(list)) && Pending(r.value, ListLexicalNames(list))
  {
    var functions, plan := ListFunctionNames(list), LexicalPlan(list);
    var variables := HoistedAll(list) + functions;
    HoistedAllIsVarNames(list);
    PlansAreNames(list);
    assert SetOf(variables) == ListVarNames(list) + SetOf(functions);
    VariablesDeclared(b, variables);
    var declared := DeclareVariables(b, variables);
    FunctionsSet(declared, functions, closures);
    var filled := SetFunctions(declared, functions, closures).value;
    LexicalsDeclared(filled, plan);
    var r := DeclareLexicals(filled, plan);
    assert InstallBody(b, list, closures) == Ok(r);
    assert Pending(r, ListLexicalNames(list));
    forall n | n in ListVarNames(list)
      ensures n in r && r[n].kind.VariableKind?
    {
      assert n in ListVarNames(list) + SetOf(functions) && !OtherKind(b, n);
      assert n !in SetOf(ListLexicalNames(list));
      assert n in declared && declared[n].kind.VariableKind?;
      assert r[n] == filled[n];
    }
  }

  /** A body without clashes of its own fails to instantiate exactly when an existing binding is in the way. */
  lemma BodyInstantiates(b: Bindings, list: seq<Statement>, closures: Closures)
    requires BodyScoped(list, {})
    ensures var r := InstantiateBody(b, list, closures);
            && (r.Err? <==> InTheWay(b, list))
            && (r.Err? ==> r.error == VariableConflict || r.error == LexicalConflict)
            && (r.Ok? ==> VarsBound(r.value, ListVarNames(list)) && Pending(r.value, ListLexicalNames(list)))
  {
    PreflightFinds(b, list);
    if !InTheWay(b, list) {
      BodyInstalls(b, list, closures);
    }
  }

  /** What a block declares is new to its environment. */
  lemma BlockIsClear(b: Bindings, list: seq<Statement>)
    requires BlockScoped(list, b.Keys)
    ensures !(exists d :: d in BlockPlan(list) && d.name in b)
  {
    PlansAreNames(list);
    PlanMembers(BlockPlan(list));
    hide BlockPlan;
    hide ListNames;
    assert SetOf(PlanNames(BlockPlan(list))) !! b.Keys;
  }

  lemma BlockInstalls(b: Bindings, list: seq<Statement>, closures: Closures)
    requires Distinct(ListNames(list))
    ensures var r := InitializeFunctions(DeclareLexicals(b, BlockPlan(list)), ListFunctionNames(list), closures);
            r.Ok? && Pending(r.value, ListLexicalNames(list))
  {
    var names, functions, lexicals := ListNames(list), ListFunctionNames(list), ListLexicalNames(list);
    var declared := DeclareLexicals(b, BlockPlan(list));
    PlansAreNames(list);
    LexicalsDeclared(b, BlockPlan(list));
    NamesSplit(list);
    hide BlockPlan;
    hide DeclareLexicals;
    hide InitializeFunctions;
    hide ListNames;
    hide ListLexicalNames;
    hide ListFunctionNames;
    assert Pending(declared, names);
    forall n | n in functions || n in lexicals
      ensures n in names
    {
      assert n in SetOf(functions) + SetOf(lexicals);
    }
    FunctionsInitialized(declared, functions, closures);
    forall n | n in lexicals
      ensures n !in functions
    {
      assert n in SetOf(lexicals);
    }
    assert Pending(InitializeFunctions(declared, functions, closures).value, lexicals);
  }

  /** A block without clashes of its own or with its environment instantiates. */
  lemma BlockInstantiates(b: Bindings, list: seq<Statement>, closures: Closures)
    requires BlockScoped(list, b.Keys)
    ensures InstantiateBlock(b, list, closures).Ok?
    ensures Pending(InstantiateBlock(b, list, closures).value, ListLexicalNames(list))
  {
    BlockIsClear(b, list);
    BlockInstalls(b, list, closures);
  }

  /** Lexical and function names of a block without clashes are apart, and the latter distinct. */
  lemma {:induction false} NamesSplit(list: seq<Statement>)
    requires Distinct(ListNames(list))
    ensures Distinct(ListFunctionNames(list)) && Distinct(ListLexicalNames(list))
    ensures SetOf(ListFunctionNames(list)) !! SetOf(ListLexicalNames(list))
    ensures SetOf(ListNames(list)) == SetOf(ListFunctionNames(list)) + SetOf(ListLexicalNames(list))
  {
    if list != [] {
      var head, rest := LexicalNames(list[0]) + FunctionNames(list[0]), ListNames(list[1..]);
      assert ListNames(list) == head + rest;
      DistinctParts(head, rest);
      NamesSplit(list[1..]);
      DistinctParts(LexicalNames(list[0]), FunctionNames(list[0]));
      DistinctJoin(FunctionNames(list[0]), ListFunctionNames(list[1..]));
      DistinctJoin(LexicalNames(list[0]), ListLexicalNames(list[1..]));
    }
  }

  lemma DistinctParts(a: seq<string>, b: seq<string>)
    requires Distinct(a + b)
    ensures Distinct(a) && Distinct(b) && SetOf(a) !! SetOf(b) && SetOf(a + b) == SetOf(a) + SetOf(b)
  {
    var all := a + b;
    assert forall i :: 0 <= i < |a| ==> all[i] == a[i];
    forall i, j | 0 <= i < j < |b|
      ensures b[i] != b[j]
    {
      assert all[|a| + i] == b[i] && all[|a| + j] == b[j];
    }
    forall i, j | 0 <= i < |a| && 0 <= j < |b|
      ensures a[i] != b[j]
    {
      assert all[i] != all[|a| + j];
    }
  }

  lemma DistinctJoin(a: seq<string>, b: seq<string>)
    requires Distinct(a) && Distinct(b) && SetOf(a) !! SetOf(b)
    ensures Distinct(a + b) && SetOf(a + b) == SetOf(a) + SetOf(b)
  {
    forall i, j | 0 <= i < j < |a + b|
      ensures (a + b)[i] != (a + b)[j]
    {
      if i < |a| <= j {
        assert a[i] in SetOf(a) && b[j - |a|] in SetOf(b);
      }
    }
  }
}
