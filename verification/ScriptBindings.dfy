/** What every environment holds once it has been instantiated, name by name. */
module ScriptBindings {
  import opened Outcomes
  import opened HeapRecords
  import opened ScriptSyntax
  import opened ScriptMachine
  import opened Interpreter

  // ---- parameters and loop heads ---------------------------------------------------------------------------

  function ArgumentAt(arguments: seq<RawValue>, i: nat): RawValue {
    if i < |arguments| then arguments[i] else Undefined
  }

  lemma {:induction false} BoundWhenDistinct(b: Bindings, parameters: seq<string>, arguments: seq<RawValue>)
    ensures var r := BindParameters(b, parameters, arguments);
            && (r.Ok? <==> Distinct(parameters) && SetOf(parameters) !! b.Keys)
            && (r.Err? ==> r.error == AlreadyDeclared)
            && (r.Ok? ==> r.value.Keys == b.Keys + SetOf(parameters))
    decreases |parameters|
  {
    if parameters != [] {
      var name, rest := parameters[0], parameters[1..];
      assert parameters == [name] + rest;
      DistinctFront(name, rest);
      if name !in b {
        var next := b[name := Binding(VariableKind, true, Initialized(ArgumentAt(arguments, 0)))];
        BoundWhenDistinct(next, rest, if arguments == [] then [] else arguments[1..]);
      }
    }
  }

  lemma {:induction false} BoundAfter(b: Bindings, parameters: seq<string>, arguments: seq<RawValue>)
    ensures var r := BindParameters(b, parameters, arguments);
            && (r.Ok? ==> SetOf(parameters) <= r.value.Keys)
            && (r.Ok? ==> forall n :: n in b ==> n in r.value && r.value[n] == b[n])
            && (r.Ok? ==> forall i :: 0 <= i < |parameters| ==>
                 r.value[parameters[i]] == Binding(VariableKind, true, Initialized(ArgumentAt(arguments, i))))
    decreases |parameters|
  {
    if parameters != [] {
      var name, rest := parameters[0], parameters[1..];
      assert parameters == [name] + rest;
      if name !in b {
        var next := b[name := Binding(VariableKind, true, Initialized(ArgumentAt(arguments, 0)))];
        var others := if arguments == [] then [] else arguments[1..];
        BoundAfter(next, rest, others);
        assert forall i :: 0 <= i < |rest| ==> ArgumentAt(others, i) == ArgumentAt(arguments, i + 1);
        assert forall i :: 0 < i < |parameters| ==> parameters[i] == rest[i - 1];
      }
    }
  }

  lemma DistinctFront(name: string, rest: seq<string>)
    ensures Distinct([name] + rest) <==> name !in rest && Distinct(rest)
    ensures SetOf([name] + rest) == {name} + SetOf(rest)
  {
    if Distinct([name] + rest) {
      DistinctParts([name], rest);
      assert name in SetOf([name]);
    }
    if name !in rest && Distinct(rest) {
      DistinctJoin([name], rest);
    }
  }

  /** A call binds each parameter to its argument, or to undefined; two of one name are the only failure. */
  lemma ParametersAreBound(parameters: seq<string>, arguments: seq<RawValue>)
    ensures var r := BindParameters(map[], parameters, arguments);
            && (r.Ok? <==> Distinct(parameters)) && (r.Err? ==> r.error == AlreadyDeclared)
            && (r.Ok? ==> r.value.Keys == SetOf(parameters))
            && (r.Ok? ==> forall i :: 0 <= i < |parameters| ==>
                 r.value[parameters[i]] == Binding(VariableKind, true, Initialized(ArgumentAt(arguments, i))))
  {
    BoundWhenDistinct(map[], parameters, arguments);
    BoundAfter(map[], parameters, arguments);
  }

  lemma {:induction false} HeadAfter(b: Bindings, mutable: bool, names: seq<string>)
    ensures var r := InstantiateLoop(b, mutable, names);
            && (r.Ok? <==> Distinct(names) && SetOf(names) !! b.Keys)
            && (r.Ok? ==> r.value.Keys == b.Keys + SetOf(names))
            && (r.Ok? ==> forall n :: n in b ==> r.value[n] == b[n])
            && (r.Ok? ==> forall n :: n in names ==> r.value[n] == Binding(LexicalKind, mutable, Uninitialized))
    decreases |names|
  {
    if names != [] {
      assert names == [names[0]] + names[1..];
      DistinctFront(names[0], names[1..]);
      if names[0] !in b {
        HeadAfter(b[names[0] := Binding(LexicalKind, mutable, Uninitialized)], mutable, names[1..]);
      }
    }
  }

  /** A loop head starts with its names and no values. */
  lemma LoopHeadIsBound(mutable: bool, names: seq<string>)
    ensures var r := InstantiateLoop(map[], mutable, names);
            && (r.Ok? <==> Distinct(names))
            && (r.Ok? ==> r.value.Keys == SetOf(names))
            && (r.Ok? ==> forall n :: n in names ==> r.value[n] == Binding(LexicalKind, mutable, Uninitialized))
  {
    HeadAfter(map[], mutable, names);
  }

  predicate Copyable(b: Bindings, name: string) {
    name in b && b[name].state.Initialized?
  }

  lemma {:induction false} CopiesOf(b: Bindings, names: seq<string>)
    ensures var r := Freshened(b, names);
            && (r.Ok? <==> forall n :: n in names ==> Copyable(b, n))
            && (r.Ok? ==> r.value.Keys == SetOf(names) && forall n :: n in names ==> r.value[n] == b[n])
    decreases |names|
  {
    if names != [] {
      assert names == [names[0]] + names[1..];
      CopiesOf(b, names[1..]);
      assert names[0] in names;
    }
  }

  /**
   The next turn of a loop runs in one new environment that holds copies of the turn's own bindings; every
   environment there was stays as it is, so a closure of an earlier turn keeps its own.
   */
  lemma TurnsAreFresh(m: Machine, scope: Scope, names: seq<string>)
    ensures var r := Freshen(m, scope, names);
            && (r.Ok? <==> scope.lexical < |m.envs| && forall n :: n in names ==> Copyable(m.envs[scope.lexical], n))
            && (r.Ok? ==>
                  var (next, turn) := r.value;
                  && |next.envs| == |m.envs| + 1 && next.envs[..|m.envs|] == m.envs
                  && next.asked == m.asked && next.budget == m.budget
                  && turn == Scope(|m.envs|, scope.variable)
                  && next.envs[|m.envs|].Keys == SetOf(names)
                  && forall n :: n in names ==> next.envs[|m.envs|][n] == m.envs[scope.lexical][n])
  {
    if scope.lexical < |m.envs| {
      CopiesOf(m.envs[scope.lexical], names);
    }
  }

  // ---- declarations of a list --------------------------------------------------------------------------------

  /** A `let` (mutable) or `const` of the list declares the name. */
  predicate DeclaredAt(list: seq<Statement>, i: nat, name: string, mutable: bool)
    requires i < |list|
  {
    list[i].LexicalDeclaration? && list[i].mutable == mutable && name in Names(list[i].bindings)
  }

  ghost predicate Declares(list: seq<Statement>, name: string, mutable: bool) {
    exists i :: 0 <= i < |list| && DeclaredAt(list, i, name, mutable)
  }

  lemma OwnDeclarations(s: Statement, name: string, mutable: bool)
    requires s.LexicalDeclaration? && s.mutable == mutable && name in Names(s.bindings)
    ensures Declaration(name, mutable) in DeclarationsOf(s)
  {
    var i :| 0 <= i < |s.bindings| && Names(s.bindings)[i] == name;
    assert DeclarationsOf(s)[i] == Declaration(name, mutable);
  }

  lemma {:induction false} DeclaredIsPlanned(list: seq<Statement>, i: nat, name: string, mutable: bool)
    requires i < |list| && DeclaredAt(list, i, name, mutable)
    ensures Declaration(name, mutable) in LexicalPlan(list)
    ensures Declaration(name, mutable) in BlockPlan(list)
    ensures name in ListLexicalNames(list)
  {
    if i == 0 {
      OwnDeclarations(list[0], name, mutable);
    } else {
      DeclaredIsPlanned(list[1..], i - 1, name, mutable);
    }
  }

  lemma {:induction false} LexicalNameIsDeclared(list: seq<Statement>, name: string)
    requires name in ListLexicalNames(list)
    ensures Declares(list, name, true) || Declares(list, name, false)
  {
    if name in LexicalNames(list[0]) {
      assert DeclaredAt(list, 0, name, list[0].mutable);
    } else {
      LexicalNameIsDeclared(list[1..], name);
      var mutable := Declares(list[1..], name, true);
      var i :| 0 <= i < |list[1..]| && DeclaredAt(list[1..], i, name, mutable);
      assert DeclaredAt(list, i + 1, name, mutable);
    }
  }

  lemma DeclaredNames(list: seq<Statement>)
    ensures forall n :: n in ListLexicalNames(list) <==> Declares(list, n, true) || Declares(list, n, false)
  {
    forall n, mutable | Declares(list, n, mutable)
      ensures n in ListLexicalNames(list)
    {
      var i :| 0 <= i < |list| && DeclaredAt(list, i, n, mutable);
      DeclaredIsPlanned(list, i, n, mutable);
    }
    forall n | n in ListLexicalNames(list)
      ensures Declares(list, n, true) || Declares(list, n, false)
    {
      LexicalNameIsDeclared(list, n);
    }
  }

  /** Distinct planned names are left uninitialized, each as mutable as it was declared. */
  lemma {:induction false} PlanIsDeclared(b: Bindings, plan: seq<Declaration>, d: Declaration)
    requires d in plan && Distinct(PlanNames(plan))
    ensures d.name in DeclareLexicals(b, plan)
    ensures DeclareLexicals(b, plan)[d.name] == Binding(LexicalKind, d.mutable, Uninitialized)
    decreases |plan|
  {
    var next := b[plan[0].name := Binding(LexicalKind, plan[0].mutable, Uninitialized)];
    assert PlanNames(plan) == [plan[0].name] + PlanNames(plan[1..]);
    DistinctFront(plan[0].name, PlanNames(plan[1..]));
    if d in plan[1..] {
      PlanIsDeclared(next, plan[1..], d);
    } else {
      LexicalsDeclared(next, plan[1..]);
    }
  }

  lemma DeclaredAreLeft(b: Bindings, list: seq<Statement>)
    requires Distinct(ListLexicalNames(list))
    ensures forall n, mutable :: Declares(list, n, mutable) ==>
              n in DeclareLexicals(b, LexicalPlan(list))
              && DeclareLexicals(b, LexicalPlan(list))[n] == Binding(LexicalKind, mutable, Uninitialized)
  {
    PlansAreNames(list);
    forall n, mutable | Declares(list, n, mutable)
      ensures n in DeclareLexicals(b, LexicalPlan(list))
      ensures DeclareLexicals(b, LexicalPlan(list))[n] == Binding(LexicalKind, mutable, Uninitialized)
    {
      var i :| 0 <= i < |list| && DeclaredAt(list, i, n, mutable);
      DeclaredIsPlanned(list, i, n, mutable);
      PlanIsDeclared(b, LexicalPlan(list), Declaration(n, mutable));
    }
  }

  lemma {:induction false} VariablesGiven(b: Bindings, names: seq<string>)
    ensures forall n :: n in names && n !in b ==>
              n in DeclareVariables(b, names)
              && DeclareVariables(b, names)[n] == Binding(VariableKind, true, Initialized(Undefined))
    decreases |names|
  {
    if names != [] {
      var next := if names[0] in b then b else b[names[0] := Binding(VariableKind, true, Initialized(Undefined))];
      VariablesGiven(next, names[1..]);
      VariablesDeclared(next, names[1..]);
      assert names == [names[0]] + names[1..];
    }
  }

  lemma {:induction false} FunctionsGiven(b: Bindings, names: seq<string>, closures: Closures)
    requires SetOf(names) <= b.Keys
    ensures var r := SetFunctions(b, names, closures);
            r.Ok? && r.value.Keys == b.Keys
            && forall n :: n in names ==> r.value[n] == b[n].(state := Initialized(closures(n)))
    decreases |names|
  {
    FunctionsSet(b, names, closures);
    if names != [] {
      assert names[0] in SetOf(names);
      var next := b[names[0] := b[names[0]].(state := Initialized(closures(names[0])))];
      FunctionsSet(next, names[1..], closures);
      FunctionsGiven(next, names[1..], closures);
      assert names == [names[0]] + names[1..];
    }
  }

  lemma {:induction false} BlockFunctionsGiven(b: Bindings, names: seq<string>, closures: Closures)
    requires Distinct(names) && Pending(b, names)
    ensures var r := InitializeFunctions(b, names, closures);
            r.Ok? && r.value.Keys == b.Keys
            && forall n :: n in names ==> r.value[n] == b[n].(state := Initialized(closures(n)))
    decreases |names|
  {
    FunctionsInitialized(b, names, closures);
    if names != [] {
      var next := b[names[0] := b[names[0]].(state := Initialized(closures(names[0])))];
      assert names == [names[0]] + names[1..];
      DistinctFront(names[0], names[1..]);
      assert Pending(next, names[1..]);
      FunctionsInitialized(next, names[1..], closures);
      BlockFunctionsGiven(next, names[1..], closures);
    }
  }

  // ---- bodies and blocks ------------------------------------------------------------------------------------

  /** Variables and functions as a body finds them, beside what the environment held already. */
  predicate Filled(b: Bindings, variables: set<string>, functions: set<string>, closures: Closures, r: Bindings) {
    && b.Keys + variables + functions <= r.Keys
    && (forall n :: n in functions ==>
          r[n] == Binding(VariableKind, if n in b then b[n].mutable else true, Initialized(closures(n))))
    && (forall n :: n in variables - functions ==>
          r[n] == if n in b then b[n] else Binding(VariableKind, true, Initialized(Undefined)))
    && (forall n :: n in b.Keys - functions ==> r[n] == b[n])
  }

  /** The lexical names that a list declares, without values. */
  ghost predicate WithoutValues(list: seq<Statement>, r: Bindings) {
    && (forall n :: n in ListLexicalNames(list) <==> Declares(list, n, true) || Declares(list, n, false))
    && (forall n, mutable :: Declares(list, n, mutable) ==>
          n in r && r[n] == Binding(LexicalKind, mutable, Uninitialized))
  }

  lemma VariablesAreFilled(b: Bindings, variables: seq<string>, functions: seq<string>, closures: Closures)
    requires forall n :: n in functions ==> n in variables
    requires forall n :: n in variables ==> !OtherKind(b, n)
    ensures var r := SetFunctions(DeclareVariables(b, variables), functions, closures);
            r.Ok? && r.value.Keys == b.Keys + SetOf(variables)
            && Filled(b, SetOf(variables), SetOf(functions), closures, r.value)
  {
    var declared := DeclareVariables(b, variables);
    VariablesDeclared(b, variables);
    VariablesGiven(b, variables);
    FunctionsSet(declared, functions, closures);
    FunctionsGiven(declared, functions, closures);
  }

  lemma VariablesAreClear(b: Bindings, list: seq<Statement>)
    requires !InTheWay(b, list)
    ensures forall n :: n in HoistedAll(list) + ListFunctionNames(list) ==> !OtherKind(b, n)
  {
    PreflightFinds(b, list);
    hide HoistedAll;
    hide ListFunctionNames;
  }

  lemma FilledDespite(b: Bindings, variables: set<string>, functions: set<string>, closures: Closures,
                      filled: Bindings, r: Bindings, lexicals: set<string>)
    requires Filled(b, variables + functions, functions, closures, filled)
    requires filled.Keys == b.Keys + variables + functions && r.Keys == filled.Keys + lexicals
    requires forall n :: n in filled.Keys - lexicals ==> r[n] == filled[n]
    requires lexicals !! b.Keys && lexicals !! variables + functions
    ensures Filled(b, variables, functions, closures, r)
  {
  }

  /** What a function body or script makes of an environment. */
  ghost predicate BodyLeaves(b: Bindings, list: seq<Statement>, closures: Closures, r: Bindings) {
    var functions := SetOf(ListFunctionNames(list));
    && r.Keys == b.Keys + ListVarNames(list) + functions + SetOf(ListLexicalNames(list))
    && Filled(b, ListVarNames(list), functions, closures, r)
    && WithoutValues(list, r)
  }

  lemma BodyIsInstalled(b: Bindings, list: seq<Statement>, closures: Closures)
    requires BodyScoped(list, {}) && !InTheWay(b, list)
    ensures InstallBody(b, list, closures).Ok?
    ensures BodyLeaves(b, list, closures, InstallBody(b, list, closures).value)
  {
    var functions, variables := ListFunctionNames(list), HoistedAll(list) + ListFunctionNames(list);
    VariablesAreClear(b, list);
    VariablesAreFilled(b, variables, functions, closures);
    HoistedAllIsVarNames(list);
    assert SetOf(variables) == ListVarNames(list) + SetOf(functions);
    var filled := SetFunctions(DeclareVariables(b, variables), functions, closures).value;
    var plan := LexicalPlan(list);
    PlansAreNames(list);
    LexicalsDeclared(filled, plan);
    DeclaredNames(list);
    DeclaredAreLeft(filled, list);
    assert InstallBody(b, list, closures) == Ok(DeclareLexicals(filled, plan));
    FilledDespite(b, ListVarNames(list), SetOf(functions), closures, filled, DeclareLexicals(filled, plan),
                  SetOf(ListLexicalNames(list)));
  }

  /**
   A body finds its `var`s at undefined or at what they were, its functions at their closures and its `let`s and
   `const`s without a value; nothing else in the environment changes.
   */
  lemma BodyBindings(b: Bindings, list: seq<Statement>, closures: Closures)
    requires BodyScoped(list, {}) && !InTheWay(b, list)
    ensures InstantiateBody(b, list, closures).Ok?
    ensures BodyLeaves(b, list, closures, InstantiateBody(b, list, closures).value)
  {
    BodyInstantiates(b, list, closures);
    BodyIsInstalled(b, list, closures);
  }

  /** What a block makes of its own environment, which may hold a catch parameter already. */
  ghost predicate BlockLeaves(b: Bindings, list: seq<Statement>, closures: Closures, r: Bindings) {
    var functions := SetOf(ListFunctionNames(list));
    && r.Keys == b.Keys + functions + SetOf(ListLexicalNames(list))
    && (forall n :: n in functions ==> r[n] == Binding(LexicalKind, true, Initialized(closures(n))))
    && (forall n :: n in b ==> r[n] == b[n])
    && WithoutValues(list, r)
  }

  lemma BlockBindings(b: Bindings, list: seq<Statement>, closures: Closures)
    requires BlockScoped(list, b.Keys)
    ensures InstantiateBlock(b, list, closures).Ok?
    ensures BlockLeaves(b, list, closures, InstantiateBlock(b, list, closures).value)
  {
    BlockIsClear(b, list);
    NamesSplit(list);
    var functions, plan := ListFunctionNames(list), BlockPlan(list);
    var declared := DeclareLexicals(b, plan);
    PlansAreNames(list);
    LexicalsDeclared(b, plan);
    assert Pending(declared, functions) by {
      assert forall n :: n in functions ==> n in SetOf(ListNames(list));
    }
    FunctionsInitialized(declared, functions, closures);
    BlockFunctionsGiven(declared, functions, closures);
    var r := InitializeFunctions(declared, functions, closures).value;
    assert InstantiateBlock(b, list, closures) == Ok(r);
    forall n, mutable | Declares(list, n, mutable)
      ensures n in ListLexicalNames(list) && r[n] == Binding(LexicalKind, mutable, Uninitialized)
    {
      var i :| 0 <= i < |list| && DeclaredAt(list, i, n, mutable);
      DeclaredIsPlanned(list, i, n, mutable);
      PlanIsDeclared(b, plan, Declaration(n, mutable));
      assert n in SetOf(ListLexicalNames(list));
    }
    forall n | n in functions
      ensures r[n] == Binding(LexicalKind, true, Initialized(closures(n)))
    {
      FunctionIsPlanned(list, n);
      PlanIsDeclared(b, plan, Declaration(n, true));
    }
    DeclaredNames(list);
    assert BlockLeaves(b, list, closures, r);
  }

  lemma {:induction false} FunctionIsPlanned(list: seq<Statement>, name: string)
    requires name in ListFunctionNames(list)
    ensures Declaration(name, true) in BlockPlan(list)
  {
    if name !in FunctionNames(list[0]) {
      FunctionIsPlanned(list[1..], name);
    }
  }
}
