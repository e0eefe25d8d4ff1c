/**
 The parser's checks as statements about every place in a script: each holds of a statement exactly when something
 local holds wherever a path leads from it. Paths do not enter the bodies of functions.
 */
module ScriptPaths {
  import opened Outcomes
  import opened ScriptSyntax
  import opened ScriptMachine

  // ---- places -----------------------------------------------------------------------------------------------

  /** One statement stands directly in another. */
  predicate Inside(part: Statement, whole: Statement) {
    match whole
    case Block(statements) => part in statements
    case If(consequent, alternate) => part == consequent || alternate == Some(part)
    case While(body) => part == body
    case DoWhile(body) => part == body
    case For(_, _, _, body) => part == body
    case Try(body, handler, finalizer) =>
      part == body || (handler.Some? && part == handler.value.body) || finalizer == Some(part)
    case _ => false
  }

  predicate IsLoop(s: Statement) {
    s.While? || s.DoWhile? || s.For?
  }

  /** A step of a path; some paths stay outside loops. */
  predicate Step(part: Statement, whole: Statement, intoLoops: bool) {
    Inside(part, whole) && (intoLoops || !IsLoop(whole))
  }

  predicate Path(path: seq<Statement>, intoLoops: bool) {
    path != [] && (|path| > 1 ==> Step(path[1], path[0], intoLoops) && Path(path[1..], intoLoops))
  }

  predicate Leads(path: seq<Statement>, from: Statement, to: Statement, intoLoops: bool) {
    Path(path, intoLoops) && path[0] == from && path[|path| - 1] == to
  }

  /** Some path leads from the statement to a place inside it, or to itself. */
  ghost predicate Holds(s: Statement, place: Statement, intoLoops: bool) {
    exists path :: Leads(path, s, place, intoLoops)
  }

  lemma HoldsItself(s: Statement, intoLoops: bool)
    ensures Holds(s, s, intoLoops)
  {
    assert Leads([s], s, s, intoLoops);
  }

  lemma HoldsMore(s: Statement, part: Statement, place: Statement, intoLoops: bool)
    requires Step(part, s, intoLoops) && Holds(part, place, intoLoops)
    ensures Holds(s, place, intoLoops)
  {
    var path :| Leads(path, part, place, intoLoops);
    assert ([s] + path)[1..] == path;
    assert Leads([s] + path, s, place, intoLoops);
  }

  // ---- what holds everywhere ----------------------------------------------------------------------------------

  /** A property that a statement has when something local holds of it and its parts have the property. */
  ghost predicate Spreads(good: Statement -> bool, here: Statement -> bool, intoLoops: bool) {
    forall s :: good(s) <==> here(s) && forall part :: Step(part, s, intoLoops) ==> good(part)
  }

  lemma {:induction false} GoodAlong(path: seq<Statement>, good: Statement -> bool, here: Statement -> bool,
                                     intoLoops: bool)
    requires Spreads(good, here, intoLoops) && Path(path, intoLoops) && good(path[0])
    ensures here(path[|path| - 1])
    decreases |path|
  {
    if |path| > 1 {
      assert good(path[1]);
      GoodAlong(path[1..], good, here, intoLoops);
    }
  }

  lemma {:induction false} GoodEverywhere(s: Statement, good: Statement -> bool, here: Statement -> bool,
                                          intoLoops: bool)
    requires Spreads(good, here, intoLoops)
    requires forall place :: Holds(s, place, intoLoops) ==> here(place)
    ensures good(s)
    decreases s
  {
    HoldsItself(s, intoLoops);
    forall part | Step(part, s, intoLoops)
      ensures good(part)
    {
      forall place | Holds(part, place, intoLoops)
        ensures here(place)
      {
        HoldsMore(s, part, place, intoLoops);
      }
      GoodEverywhere(part, good, here, intoLoops);
    }
  }

  lemma Everywhere(s: Statement, good: Statement -> bool, here: Statement -> bool, intoLoops: bool)
    requires Spreads(good, here, intoLoops)
    ensures good(s) <==> forall place :: Holds(s, place, intoLoops) ==> here(place)
  {
    if good(s) {
      forall place | Holds(s, place, intoLoops)
        ensures here(place)
      {
        var path :| Leads(path, s, place, intoLoops);
        GoodAlong(path, good, here, intoLoops);
      }
    }
    if forall place :: Holds(s, place, intoLoops) ==> here(place) {
      GoodEverywhere(s, good, here, intoLoops);
    }
  }

  // ---- variables ------------------------------------------------------------------------------------------------

  /** A `var` statement or the head of a `for` declares the name. */
  predicate DeclaresVariable(s: Statement, name: string) {
    match s
    case VariableDeclaration(bindings) => name in Names(bindings)
    case For(VariableInitializer(variables), _, _, _) => name in Names(variables)
    case _ => false
  }

  lemma {:induction false} VariablesOfList(list: seq<Statement>, name: string)
    ensures name !in ListVarNames(list) <==> forall s :: s in list ==> name !in VarNames(s)
  {
    if list != [] {
      VariablesOfList(list[1..], name);
      assert list == [list[0]] + list[1..] && list[0] in list;
    }
  }

  lemma VariablesSpread(s: Statement, name: string)
    ensures name !in VarNames(s) <==>
            !DeclaresVariable(s, name) && forall part :: Step(part, s, true) ==> name !in VarNames(part)
  {
    match s {
      case Block(statements) =>
        VariablesOfList(statements, name);
        assert forall part :: part in statements ==> Step(part, s, true);
      case If(consequent, alternate) => PartsOfIf(s);
      case Try(body, handler, finalizer) => PartsOfTry(s);
      case While(body) => assert Step(body, s, true);
      case DoWhile(body) => assert Step(body, s, true);
      case For(_, _, _, body) => assert Step(body, s, true);
      case _ =>
    }
  }

  lemma PartsOfIf(s: Statement)
    requires s.If?
    ensures Step(s.consequent, s, true) && (s.alternate.Some? ==> Step(s.alternate.value, s, true))
  {
  }

  lemma PartsOfTry(s: Statement)
    requires s.Try?
    ensures Step(s.body, s, true) && (s.handler.Some? ==> Step(s.handler.value.body, s, true))
    ensures s.finalizer.Some? ==> Step(s.finalizer.value, s, true)
  {
  }

  /** The parser collects a name exactly if a `var` anywhere inside declares it. */
  lemma VariablesAreDeclared(s: Statement, name: string)
    ensures name in VarNames(s) <==> exists place :: Holds(s, place, true) && DeclaresVariable(place, name)
  {
    var good, here := (t: Statement) => name !in VarNames(t), (t: Statement) => !DeclaresVariable(t, name);
    forall t
      ensures good(t) <==> here(t) && forall part :: Step(part, t, true) ==> good(part)
    {
      VariablesSpread(t, name);
    }
    Everywhere(s, good, here, true);
  }

  // ---- scopes -------------------------------------------------------------------------------------------------

  /** The names that a statement declares in the list it stands in, if that is a block's. */
  function OwnNames(s: Statement): seq<string> {
    LexicalNames(s) + FunctionNames(s)
  }

  /** Nothing in the list declares a name twice or hides a `var` inside, and none takes a reserved name. */
  predicate ListIsClear(list: seq<Statement>, reserved: set<string>) {
    Unclashed(ListNames(list), reserved) && ListVarNames(list) !! SetOf(ListNames(list)) + reserved && AllNamed(list)
  }

  /** What a statement that opens a scope asks of that scope. */
  predicate ClearHere(s: Statement) {
    match s
    case Block(statements) => ListIsClear(statements, {})
    case For(LexicalInitializer(_, lexicals), _, _, body) =>
      Distinct(Names(lexicals)) && VarNames(body) !! SetOf(Names(lexicals))
    case Try(_, Some(CatchClause(parameter, body)), _) =>
      body.Block? && ListIsClear(body.statements, if parameter.Some? then {parameter.value} else {})
    case _ => true
  }

  lemma {:induction false} AllAreScoped(list: seq<Statement>)
    ensures AllScoped(list) <==> forall s :: s in list ==> Scoped(s)
  {
    if list != [] {
      AllAreScoped(list[1..]);
      assert list == [list[0]] + list[1..] && list[0] in list;
    }
  }

  lemma ScopedSpreads(s: Statement)
    ensures Scoped(s) <==> ClearHere(s) && forall part :: Step(part, s, true) ==> Scoped(part)
  {
    match s {
      case Block(statements) =>
        AllAreScoped(statements);
        assert forall part :: part in statements ==> Step(part, s, true);
      case If(consequent, alternate) => PartsOfIf(s);
      case Try(body, handler, finalizer) =>
        PartsOfTry(s);
        if handler.Some? && handler.value.body.Block? {
          assert Scoped(handler.value.body) <==> BlockScoped(handler.value.body.statements, {});
        }
      case While(body) => assert Step(body, s, true);
      case DoWhile(body) => assert Step(body, s, true);
      case For(_, _, _, body) => assert Step(body, s, true);
      case _ =>
    }
  }

  /** The scope check passes exactly if every scope inside is free of clashes. */
  lemma ScopesAreClear(s: Statement)
    ensures Scoped(s) <==> forall place :: Holds(s, place, true) ==> ClearHere(place)
  {
    var good, here := (t: Statement) => Scoped(t), (t: Statement) => ClearHere(t);
    forall t
      ensures good(t) <==> here(t) && forall part :: Step(part, t, true) ==> good(part)
    {
      ScopedSpreads(t);
    }
    Everywhere(s, good, here, true);
  }

  lemma {:induction false} NamesOfList(list: seq<Statement>, name: string)
    ensures name in ListNames(list) <==> exists i :: 0 <= i < |list| && name in OwnNames(list[i])
  {
    if list != [] {
      NamesOfList(list[1..], name);
      assert name in ListNames(list) <==> name in OwnNames(list[0]) || name in ListNames(list[1..]);
      if i :| 0 <= i < |list[1..]| && name in OwnNames(list[1..][i]) {
        assert name in OwnNames(list[i + 1]);
      }
      assert forall i :: 1 <= i < |list| ==> list[i] == list[1..][i - 1];
    }
  }

  /** Statement by statement, no name twice and none shared. */
  predicate Apart(list: seq<Statement>) {
    && (forall i :: 0 <= i < |list| ==> Distinct(OwnNames(list[i])))
    && (forall i, j :: 0 <= i < j < |list| ==> SetOf(OwnNames(list[i])) !! SetOf(OwnNames(list[j])))
  }

  lemma ApartFromRest(list: seq<Statement>)
    requires list != []
    ensures Apart(list) <==> Distinct(OwnNames(list[0])) && Apart(list[1..])
                             && SetOf(OwnNames(list[0])) !! SetOf(ListNames(list[1..]))
  {
    var own, rest := OwnNames(list[0]), list[1..];
    assert forall i :: 1 <= i < |list| ==> list[i] == rest[i - 1];
    assert forall i :: 0 <= i < |rest| ==> rest[i] == list[i + 1];
    forall n
      ensures n in ListNames(rest) <==> exists i :: 0 <= i < |rest| && n in OwnNames(rest[i])
    {
      NamesOfList(rest, n);
    }
    hide ListNames;
    hide OwnNames;
    if Apart(list) {
      assert Apart(rest);
      assert SetOf(own) !! SetOf(ListNames(rest));
    }
    if Distinct(own) && Apart(rest) && SetOf(own) !! SetOf(ListNames(rest)) {
      forall i, j | 0 <= i < j < |list|
        ensures SetOf(OwnNames(list[i])) !! SetOf(OwnNames(list[j]))
      {
        assert forall n :: n in OwnNames(list[j]) ==> n in OwnNames(rest[j - 1]) && n in ListNames(rest);
      }
    }
  }

  /** No name is declared twice in a list exactly if no statement repeats one and no two statements share one. */
  lemma {:induction false} NamesAreApart(list: seq<Statement>)
    ensures Distinct(ListNames(list)) <==> Apart(list)
  {
    if list != [] {
      NamesAreApart(list[1..]);
      ApartFromRest(list);
      var own, rest := OwnNames(list[0]), ListNames(list[1..]);
      assert ListNames(list) == own + rest;
      if Distinct(own + rest) {
        DistinctParts(own, rest);
      } else if Distinct(own) && Distinct(rest) && SetOf(own) !! SetOf(rest) {
        DistinctJoin(own, rest);
      }
    }
  }

  // ---- shape and placement -------------------------------------------------------------------------------------

  /** What the grammar asks of a statement and the statements directly in it. */
  predicate ShapedHere(s: Statement) {
    match s
    case FunctionDeclaration(definition) => definition.name.Some?
    case If(consequent, alternate) => Plain(consequent) && (alternate.Some? ==> Plain(alternate.value))
    case While(body) => Plain(body)
    case DoWhile(body) => Plain(body)
    case For(_, _, _, body) => Plain(body)
    case Try(body, handler, finalizer) =>
      && body.Block? && (handler.Some? ==> handler.value.body.Block?)
      && (finalizer.Some? ==> finalizer.value.Block?)
    case _ => true
  }

  lemma {:induction false} AllAreShaped(list: seq<Statement>)
    ensures AllShaped(list) <==> forall s :: s in list ==> Shaped(s)
  {
    if list != [] {
      AllAreShaped(list[1..]);
      assert list == [list[0]] + list[1..] && list[0] in list;
    }
  }

  lemma ShapedSpreads(s: Statement)
    ensures Shaped(s) <==> ShapedHere(s) && forall part :: Step(part, s, true) ==> Shaped(part)
  {
    match s {
      case Block(statements) =>
        AllAreShaped(statements);
        assert forall part :: part in statements ==> Step(part, s, true);
      case If(consequent, alternate) => PartsOfIf(s);
      case Try(body, handler, finalizer) => PartsOfTry(s);
      case While(body) => assert Step(body, s, true);
      case DoWhile(body) => assert Step(body, s, true);
      case For(_, _, _, body) => assert Step(body, s, true);
      case _ =>
    }
  }

  lemma ShapesAreLocal(s: Statement)
    ensures Shaped(s) <==> forall place :: Holds(s, place, true) ==> ShapedHere(place)
  {
    var good, here := (t: Statement) => Shaped(t), (t: Statement) => ShapedHere(t);
    forall t
      ensures good(t) <==> here(t) && forall part :: Step(part, t, true) ==> good(part)
    {
      ShapedSpreads(t);
    }
    Everywhere(s, good, here, true);
  }

  lemma {:induction false} AllArePlaced(list: seq<Statement>, loopDepth: nat, functionDepth: nat)
    ensures AllPlaced(list, loopDepth, functionDepth) <==>
            forall s :: s in list ==> Placed(s, loopDepth, functionDepth)
  {
    if list != [] {
      AllArePlaced(list[1..], loopDepth, functionDepth);
      assert list == [list[0]] + list[1..] && list[0] in list;
    }
  }

  function DepthIn(s: Statement, loopDepth: nat): nat {
    if IsLoop(s) then loopDepth + 1 else loopDepth
  }

  predicate PlacedHere(s: Statement, loopDepth: nat, functionDepth: nat) {
    ((s.Break? || s.Continue?) ==> loopDepth > 0) && (s.Return? ==> functionDepth > 0)
  }

  lemma PlacedSpreads(s: Statement, loopDepth: nat, functionDepth: nat)
    ensures Placed(s, loopDepth, functionDepth) <==>
            && PlacedHere(s, loopDepth, functionDepth)
            && forall part :: Inside(part, s) ==> Placed(part, DepthIn(s, loopDepth), functionDepth)
  {
    match s {
      case Block(statements) =>
        AllArePlaced(statements, loopDepth, functionDepth);
        assert forall part :: part in statements ==> Inside(part, s);
      case If(consequent, alternate) => PartsOfIf(s);
      case Try(body, handler, finalizer) => PartsOfTry(s);
      case While(body) => assert Inside(body, s);
      case DoWhile(body) => assert Inside(body, s);
      case For(_, _, _, body) => assert Inside(body, s);
      case _ =>
    }
  }

  /** Only whether there is a loop counts, and loop control and `return` are checked apart. */
  lemma {:induction false} DepthsAreApart(s: Statement, loopDepth: nat, functionDepth: nat)
    ensures Placed(s, loopDepth, functionDepth) <==>
            Placed(s, 1, functionDepth) && (loopDepth == 0 ==> Placed(s, 0, 1))
    ensures Placed(s, loopDepth + 1, 1)
    decreases s
  {
    PlacedSpreads(s, loopDepth, functionDepth);
    PlacedSpreads(s, 1, functionDepth);
    PlacedSpreads(s, 0, 1);
    PlacedSpreads(s, loopDepth + 1, 1);
    forall part | Inside(part, s)
      ensures Placed(part, DepthIn(s, loopDepth), functionDepth) <==>
              Placed(part, 1, functionDepth) && (DepthIn(s, loopDepth) == 0 ==> Placed(part, 0, 1))
      ensures Placed(part, DepthIn(s, 1), functionDepth) <==> Placed(part, 1, functionDepth)
      ensures Placed(part, DepthIn(s, loopDepth + 1), 1)
      ensures Placed(part, 1, 1)
    {
      DepthsAreApart(part, DepthIn(s, loopDepth), functionDepth);
      DepthsAreApart(part, DepthIn(s, 1), functionDepth);
      DepthsAreApart(part, 0, 1);
      DepthsAreApart(part, DepthIn(s, loopDepth + 1) - 1, 1);
    }
  }

  lemma ReturnsSpread(s: Statement, functionDepth: nat)
    ensures Placed(s, 1, functionDepth) <==>
            && (s.Return? ==> functionDepth > 0)
            && forall part :: Step(part, s, true) ==> Placed(part, 1, functionDepth)
  {
    PlacedSpreads(s, 1, functionDepth);
    forall part
      ensures Step(part, s, true) <==> Inside(part, s)
      ensures Placed(part, DepthIn(s, 1), functionDepth) <==> Placed(part, 1, functionDepth)
    {
      DepthsAreApart(part, DepthIn(s, 1), functionDepth);
    }
  }

  lemma ReturnsArePlaced(s: Statement, functionDepth: nat)
    ensures Placed(s, 1, functionDepth) <==>
            forall place :: Holds(s, place, true) && place.Return? ==> functionDepth > 0
  {
    var good := (t: Statement) => Placed(t, 1, functionDepth);
    var here := (t: Statement) => t.Return? ==> functionDepth > 0;
    forall t
      ensures good(t) <==> here(t) && forall part :: Step(part, t, true) ==> good(part)
    {
      ReturnsSpread(t, functionDepth);
    }
    Everywhere(s, good, here, true);
  }

  lemma LoopControlSpreads(s: Statement)
    ensures Placed(s, 0, 1) <==>
            !s.Break? && !s.Continue? && forall part :: Step(part, s, false) ==> Placed(part, 0, 1)
  {
    PlacedSpreads(s, 0, 1);
    forall part
      ensures Step(part, s, false) <==> Inside(part, s) && !IsLoop(s)
      ensures Placed(part, 1, 1)
    {
      DepthsAreApart(part, 0, 1);
    }
  }

  lemma LoopControlIsPlaced(s: Statement)
    ensures Placed(s, 0, 1) <==> forall place :: Holds(s, place, false) ==> !place.Break? && !place.Continue?
  {
    var good := (t: Statement) => Placed(t, 0, 1);
    var here := (t: Statement) => !t.Break? && !t.Continue?;
    forall t
      ensures good(t) <==> here(t) && forall part :: Step(part, t, false) ==> good(part)
    {
      LoopControlSpreads(t);
    }
    Everywhere(s, good, here, false);
  }

  /** Loop control only where every path from the outside enters a loop, and `return` only in a function. */
  lemma StatementsArePlaced(s: Statement, loopDepth: nat, functionDepth: nat)
    ensures Placed(s, loopDepth, functionDepth) <==>
            && (forall place :: Holds(s, place, true) && place.Return? ==> functionDepth > 0)
            && (forall place :: Holds(s, place, false) && (place.Break? || place.Continue?) ==> loopDepth > 0)
  {
    DepthsAreApart(s, loopDepth, functionDepth);
    ReturnsArePlaced(s, functionDepth);
    LoopControlIsPlaced(s);
  }

  // ---- functions ------------------------------------------------------------------------------------------------

  /** Every place in a list. */
  ghost predicate InList(list: seq<Statement>, place: Statement, intoLoops: bool) {
    exists s :: s in list && Holds(s, place, intoLoops)
  }

  /** What the parser lets through as a function, place by place. */
  lemma FunctionsAreAccepted(f: Function)
    ensures Accepted(f) <==>
            && Distinct(f.parameters)
            && Unclashed(ListLexicalNames(f.body), SetOf(f.parameters)) && AllNamed(f.body)
            && ListVarNames(f.body) + SetOf(ListFunctionNames(f.body)) !! SetOf(ListLexicalNames(f.body))
            && (forall place :: InList(f.body, place, true) ==> ShapedHere(place) && ClearHere(place))
            && (forall place :: InList(f.body, place, false) ==> !place.Break? && !place.Continue?)
  {
    AllAreShaped(f.body);
    AllArePlaced(f.body, 0, 1);
    AllAreScoped(f.body);
    forall s
      ensures Shaped(s) <==> forall place :: Holds(s, place, true) ==> ShapedHere(place)
      ensures Scoped(s) <==> forall place :: Holds(s, place, true) ==> ClearHere(place)
      ensures Placed(s, 0, 1) <==> forall place :: Holds(s, place, false) ==> !place.Break? && !place.Continue?
    {
      ShapesAreLocal(s);
      ScopesAreClear(s);
      LoopControlIsPlaced(s);
    }
    hide Holds;
  }
}
