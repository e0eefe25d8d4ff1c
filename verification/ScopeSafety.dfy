/** What the parser accepts, the interpreter runs without a binding fault and without stray completions. */
module ScopeSafety {
  import opened Outcomes
  import opened HeapRecords
  import opened ScriptSyntax
  import opened ScriptMachine
  import opened Interpreter

  // ---- environments only grow ----------------------------------------------------------------

  /**
   The same names of the same kind; none becomes uninitialized, and of the lexical ones only `names` may become
   initialized.
   */
  ghost predicate ShapeKept(a: Bindings, b: Bindings, names: set<string>) {
    && a.Keys == b.Keys
    && forall n :: n in a ==>
         && b[n].kind == a[n].kind && b[n].mutable == a[n].mutable
         && (a[n].state.Initialized? ==> b[n].state.Initialized?)
         && (a[n].state.Uninitialized? && a[n].kind.LexicalKind? && n !in names ==> b[n].state.Uninitialized?)
  }

  function Touched(i: nat, env: nat, names: set<string>): set<string> {
    if i == env then names else {}
  }

  /**
   New environments may have come; in the old ones only `names` of `env` may have become initialized where they
   are lexical.
   */
  ghost predicate Grew(before: seq<Bindings>, after: seq<Bindings>, env: nat, names: set<string>) {
    && |before| <= |after|
    && forall i: nat :: i < |before| ==> ShapeKept(before[i], after[i], Touched(i, env, names))
  }

  lemma GrewNot(envs: seq<Bindings>, env: nat)
    ensures Grew(envs, envs, env, {})
  {
  }

  lemma ShapeKeptTwice(a: Bindings, b: Bindings, c: Bindings, first: set<string>, second: set<string>)
    requires ShapeKept(a, b, first) && ShapeKept(b, c, second)
    ensures ShapeKept(a, c, first + second)
  {
  }

  lemma GrewTwice(a: seq<Bindings>, b: seq<Bindings>, c: seq<Bindings>, env: nat, first: set<string>,
                  second: set<string>)
    requires Grew(a, b, env, first) && Grew(b, c, env, second)
    ensures Grew(a, c, env, first + second)
  {
    hide ShapeKept;
    forall i: nat | i < |a|
      ensures ShapeKept(a[i], c[i], Touched(i, env, first + second))
    {
      ShapeKeptTwice(a[i], b[i], c[i], Touched(i, env, first), Touched(i, env, second));
      assert Touched(i, env, first) + Touched(i, env, second) == Touched(i, env, first + second);
    }
  }

  /** Two stretches of a run that initialize nothing old. */
  lemma GrewOn(a: seq<Bindings>, b: seq<Bindings>, c: seq<Bindings>, env: nat, other: nat)
    requires Grew(a, b, env, {}) && Grew(b, c, other, {})
    ensures Grew(a, c, env, {})
  {
    GrewAnywhere(b, c, other, env);
    GrewTwice(a, b, c, env, {}, {});
  }

  lemma GrewAnywhere(a: seq<Bindings>, b: seq<Bindings>, env: nat, other: nat)
    requires Grew(a, b, env, {})
    ensures Grew(a, b, other, {})
  {
    assert forall i: nat :: Touched(i, env, {}) == Touched(i, other, {});
  }

  /** What happens in an environment made later leaves the earlier ones alone. */
  lemma GrewInside(a: seq<Bindings>, b: Bindings, c: seq<Bindings>, names: set<string>, env: nat)
    requires Grew(a + [b], c, |a|, names)
    ensures Grew(a, c, env, {})
  {
    hide ShapeKept;
    forall i: nat | i < |a|
      ensures ShapeKept(a[i], c[i], Touched(i, env, {}))
    {
      assert (a + [b])[i] == a[i];
      assert Touched(i, |a|, names) == Touched(i, env, {});
    }
  }

  lemma VarsStayBound(a: seq<Bindings>, b: seq<Bindings>, env: nat, names: set<string>, at: nat, vars: set<string>)
    requires Grew(a, b, env, names) && at < |a| && VarsBound(a[at], vars)
    ensures VarsBound(b[at], vars)
  {
    assert ShapeKept(a[at], b[at], Touched(at, env, names));
  }

  lemma PendingStays(a: seq<Bindings>, b: seq<Bindings>, env: nat, names: set<string>, at: nat, pending: seq<string>)
    requires Grew(a, b, env, names) && at < |a| && Pending(a[at], pending) && SetOf(pending) !! names
    ensures Pending(b[at], pending)
  {
    assert ShapeKept(a[at], b[at], Touched(at, env, names));
    forall n | n in pending
      ensures n in b[at] && b[at][n].state.Uninitialized? && b[at][n].kind.LexicalKind?
    {
      assert n in SetOf(pending);
    }
  }

  // ---- what a run must satisfy ------------------------------------------------------------------

  /** Every function that an expression calls came through the parser. */
  ghost predicate Accepting(o: Oracle) {
    forall n: nat :: o.action(n).CallFunction? ==> Accepted(o.action(n).callee)
  }

  predicate InScope(scope: Scope, m: Machine) {
    scope.lexical < |m.envs| && scope.variable < |m.envs|
  }

  /** Loop control only out of a statement in a loop, return only out of one in a function. */
  predicate Fits(c: Completion, loopDepth: nat, functionDepth: nat) {
    && (c.Broke? || c.Continued? ==> loopDepth > 0)
    && (c.Returned? ==> functionDepth > 0)
  }

  ghost predicate SafeValue<T>(r: Ran<T>, m: Machine) {
    !r.outcome.Fails? && Grew(m.envs, r.machine.envs, 0, {})
  }

  ghost predicate Safe(r: Executed, m: Machine, env: nat, names: set<string>, loopDepth: nat, functionDepth: nat) {
    && !r.outcome.Fails?
    && Grew(m.envs, r.machine.envs, env, names)
    && (r.outcome.Gives? ==> Fits(r.outcome.value, loopDepth, functionDepth))
  }

  /** Safe without initializing any lexical name of an environment that was there. */
  ghost predicate Quiet(r: Executed, m: Machine, loopDepth: nat, functionDepth: nat) {
    Safe(r, m, 0, {}, loopDepth, functionDepth)
  }

  lemma QuietIsSafe(r: Executed, m: Machine, env: nat, names: set<string>, loopDepth: nat, functionDepth: nat)
    requires Quiet(r, m, loopDepth, functionDepth)
    ensures Safe(r, m, env, names, loopDepth, functionDepth)
  {
    GrewAnywhere(m.envs, r.machine.envs, 0, env);
    GrewMore(m.envs, r.machine.envs, env, {}, names);
  }

  /** A statement ready to run: accepted, its variables bound, its own lexical names waiting. */
  ghost predicate Ready(s: Statement, scope: Scope, m: Machine, loopDepth: nat, functionDepth: nat) {
    && InScope(scope, m)
    && Shaped(s) && Scoped(s) && Placed(s, loopDepth, functionDepth)
    && VarsBound(m.envs[scope.variable], VarNames(s))
    && Distinct(LexicalNames(s)) && Pending(m.envs[scope.lexical], LexicalNames(s))
  }

  ghost predicate ListReady(list: seq<Statement>, scope: Scope, m: Machine, loopDepth: nat, functionDepth: nat) {
    && InScope(scope, m)
    && AllShaped(list) && AllScoped(list) && AllPlaced(list, loopDepth, functionDepth)
    && VarsBound(m.envs[scope.variable], ListVarNames(list))
    && Distinct(ListLexicalNames(list)) && Pending(m.envs[scope.lexical], ListLexicalNames(list))
  }

  /** A plain statement stays ready as environments grow. */
  lemma StaysReady(s: Statement, scope: Scope, m: Machine, later: Machine, env: nat, names: set<string>,
                   loopDepth: nat, functionDepth: nat)
    requires Ready(s, scope, m, loopDepth, functionDepth) && Grew(m.envs, later.envs, env, names) && Plain(s)
    ensures Ready(s, scope, later, loopDepth, functionDepth)
  {
    VarsStayBound(m.envs, later.envs, env, names, scope.variable, VarNames(s));
  }

  // ---- expressions and calls -----------------------------------------------------------------------

  lemma AssignmentKeepsShape(m: Machine, env: nat, name: string, value: RawValue)
    requires Assignable(m, env, name)
    ensures Grew(m.envs, Assigned(m, env, name, value).envs, 0, {})
  {
  }

  lemma {:induction false} EvaluateSafe(o: Oracle, m: Machine)
    requires Accepting(o)
    ensures SafeValue(Evaluate(o, m), m)
    decreases m.budget, 0, 0
  {
    hide Grew;
    GrewNot(m.envs, 0);
    if m.budget > 0 {
      var t := m.(budget := m.budget - 1, asked := m.asked + 1);
      match o.action(m.asked) {
        case AssignBinding(env, name, value) =>
          if Assignable(t, env, name) {
            AssignmentKeepsShape(t, env, name, value);
            var next := Assigned(t, env, name, value);
            EvaluateSafe(o, next);
            GrewOn(m.envs, next.envs, Evaluate(o, next).machine.envs, 0, 0);
          }
        case NameFunction(name, closure) =>
          var b := CreateInitialized(map[], name, LexicalKind, false, closure).value;
          var next := WithNewEnv(t, b);
          NewEnvGrows(t, b);
          EvaluateSafe(o, next);
          GrewOn(m.envs, next.envs, Evaluate(o, next).machine.envs, 0, 0);
        case CallFunction(f, arguments) =>
          CallSafe(o, f, arguments, t);
          var r := Call(o, f, arguments, t);
          if r.outcome.Gives? {
            EvaluateSafe(o, r.machine);
            GrewOn(m.envs, r.machine.envs, Evaluate(o, r.machine).machine.envs, 0, 0);
          }
        case _ =>
      }
    }
  }

  lemma {:induction false} ParametersBind(b: Bindings, parameters: seq<string>, arguments: seq<RawValue>)
    requires Unclashed(parameters, b.Keys) && forall n :: n in b ==> b[n].kind.VariableKind?
    ensures var r := BindParameters(b, parameters, arguments);
            && r.Ok? && r.value.Keys == b.Keys + SetOf(parameters)
            && forall n :: n in r.value ==> r.value[n].kind.VariableKind?
    decreases |parameters|
  {
    if parameters != [] {
      assert parameters[0] in SetOf(parameters);
      var first := if arguments == [] then Undefined else arguments[0];
      var next := CreateInitialized(b, parameters[0], VariableKind, true, first);
      assert parameters == [parameters[0]] + parameters[1..];
      ParametersBind(next.value, parameters[1..], if arguments == [] then [] else arguments[1..]);
    }
  }

  /** Nothing in a new call environment is in the way of an accepted body. */
  lemma CallNotInTheWay(b: Bindings, f: Function)
    requires Accepted(f) && b.Keys == SetOf(f.parameters) && forall n :: n in b ==> b[n].kind.VariableKind?
    ensures !InTheWay(b, f.body) && BodyScoped(f.body, {})
  {
  }

  lemma {:induction false} CallSafe(o: Oracle, f: Function, arguments: seq<RawValue>, m: Machine)
    requires Accepting(o) && Accepted(f)
    ensures SafeValue(Call(o, f, arguments, m), m)
    decreases m.budget, 5, 0
  {
    GrewNot(m.envs, 0);
    if m.budget > 0 {
      var t := m.(budget := m.budget - 1);
      ParametersBind(map[], f.parameters, arguments);
      var b := BindParameters(map[], f.parameters, arguments).value;
      CallNotInTheWay(b, f);
      hide Grew;
      hide Accepting;
      hide InTheWay;
      hide BodyScoped;
      var inner := WithNewEnv(t, b);
      BodySafe(o, f.body, |t.envs|, inner, 1);
      var filled := InstantiateBody(b, f.body, o.closures).value;
      assert inner.envs[|t.envs|] == b && inner.envs[|t.envs| := filled] == t.envs + [filled];
      var r := RunBody(o, f.body, |t.envs|, inner);
      hide RunBody;
      hide InstantiateBody;
      GrewInside(t.envs, filled, r.machine.envs, SetOf(ListLexicalNames(f.body)), 0);
    }
  }

  /** A body runs safely in an environment where nothing is in its way. */
  lemma {:induction false} BodySafe(o: Oracle, list: seq<Statement>, env: nat, m: Machine, functionDepth: nat)
    requires Accepting(o) && env < |m.envs|
    requires AllShaped(list) && AllPlaced(list, 0, functionDepth)
    requires BodyScoped(list, {}) && !InTheWay(m.envs[env], list)
    ensures var filled := InstantiateBody(m.envs[env], list, o.closures);
            && filled.Ok?
            && Safe(RunBody(o, list, env, m), WithEnv(m, env, filled.value), env, SetOf(ListLexicalNames(list)), 0,
                    functionDepth)
    decreases m.budget, 4, 0
  {
    BodyInstantiates(m.envs[env], list, o.closures);
    var filled := InstantiateBody(m.envs[env], list, o.closures).value;
    hide InstantiateBody;
    hide InTheWay;
    hide Accepting;
    ListSafe(o, list, Scope(env, env), WithEnv(m, env, filled), None, 0, functionDepth);
  }

  // ---- statements -------------------------------------------------------------------------------------

  lemma {:induction false} ListSafe(o: Oracle, list: seq<Statement>, scope: Scope, m: Machine,
                                    value: Option<RawValue>, loopDepth: nat, functionDepth: nat)
    requires Accepting(o) && ListReady(list, scope, m, loopDepth, functionDepth)
    ensures Safe(ExecList(o, list, scope, m, value), m, scope.lexical, SetOf(ListLexicalNames(list)), loopDepth,
                 functionDepth)
    decreases m.budget, 3, |list|
  {
    if list == [] {
      GrewNot(m.envs, scope.lexical);
    } else {
      hide Accepting;
      HeadReady(list, scope, m, loopDepth, functionDepth);
      ExecSafe(o, list[0], scope, m, loopDepth, functionDepth);
      var r := Exec(o, list[0], scope, m);
      var head, rest := LexicalNames(list[0]), ListLexicalNames(list[1..]);
      assert SetOf(ListLexicalNames(list)) == SetOf(head) + SetOf(rest);
      if r.outcome.Gives? && r.outcome.value.Normal? {
        TailReady(list, scope, m, r.machine, loopDepth, functionDepth);
        hide ListReady;
        hide Grew;
        hide Exec;
        ListSafe(o, list[1..], scope, r.machine, Or(r.outcome.value.value, value), loopDepth, functionDepth);
        var last := ExecList(o, list[1..], scope, r.machine, Or(r.outcome.value.value, value));
        GrewTwice(m.envs, r.machine.envs, last.machine.envs, scope.lexical, SetOf(head), SetOf(rest));
      } else {
        GrewMore(m.envs, r.machine.envs, scope.lexical, SetOf(head), SetOf(ListLexicalNames(list)));
      }
    }
  }

  lemma GrewMore(a: seq<Bindings>, b: seq<Bindings>, env: nat, names: set<string>, more: set<string>)
    requires Grew(a, b, env, names) && names <= more
    ensures Grew(a, b, env, more)
  {
  }

  lemma HeadReady(list: seq<Statement>, scope: Scope, m: Machine, loopDepth: nat, functionDepth: nat)
    requires list != [] && ListReady(list, scope, m, loopDepth, functionDepth)
    ensures Ready(list[0], scope, m, loopDepth, functionDepth)
  {
    DistinctParts(LexicalNames(list[0]), ListLexicalNames(list[1..]));
    assert forall n :: n in VarNames(list[0]) ==> n in ListVarNames(list);
    assert forall n :: n in LexicalNames(list[0]) ==> n in ListLexicalNames(list);
  }

  lemma TailReady(list: seq<Statement>, scope: Scope, m: Machine, later: Machine, loopDepth: nat, functionDepth: nat)
    requires list != [] && ListReady(list, scope, m, loopDepth, functionDepth)
    requires Grew(m.envs, later.envs, scope.lexical, SetOf(LexicalNames(list[0])))
    ensures ListReady(list[1..], scope, later, loopDepth, functionDepth)
  {
    var head, rest := LexicalNames(list[0]), ListLexicalNames(list[1..]);
    DistinctParts(head, rest);
    assert forall n :: n in ListVarNames(list[1..]) ==> n in ListVarNames(list);
    assert forall n :: n in rest ==> n in ListLexicalNames(list);
    VarsStayBound(m.envs, later.envs, scope.lexical, SetOf(head), scope.variable, ListVarNames(list[1..]));
    PendingStays(m.envs, later.envs, scope.lexical, SetOf(head), scope.lexical, rest);
  }

  /** A block whose environment starts with `b` runs safely and leaves the environments around it alone. */
  lemma {:induction false} BlockSafe(o: Oracle, list: seq<Statement>, b: Bindings, scope: Scope, m: Machine,
                                     loopDepth: nat, functionDepth: nat)
    requires Accepting(o) && InScope(scope, m)
    requires AllShaped(list) && AllPlaced(list, loopDepth, functionDepth) && BlockScoped(list, b.Keys)
    requires VarsBound(m.envs[scope.variable], ListVarNames(list))
    ensures Quiet(RunBlock(o, list, b, scope, m), m, loopDepth, functionDepth)
    decreases m.budget, 4, 0
  {
    BlockInstantiates(b, list, o.closures);
    NamesSplit(list);
    var filled := InstantiateBlock(b, list, o.closures).value;
    var inner, at := WithNewEnv(m, filled), Scope(|m.envs|, scope.variable);
    assert inner.envs[scope.variable] == m.envs[scope.variable];
    hide InstantiateBlock;
    hide Accepting;
    ListSafe(o, list, at, inner, None, loopDepth, functionDepth);
    hide Grew;
    GrewInside(m.envs, filled, ExecList(o, list, at, inner, None).machine.envs, SetOf(ListLexicalNames(list)), 0);
  }

  lemma {:induction false} ExecSafe(o: Oracle, s: Statement, scope: Scope, m: Machine, loopDepth: nat,
                                    functionDepth: nat)
    requires Accepting(o) && Ready(s, scope, m, loopDepth, functionDepth)
    ensures Safe(Exec(o, s, scope, m), m, scope.lexical, SetOf(LexicalNames(s)), loopDepth, functionDepth)
    decreases m.budget, 2, 0
  {
    if m.budget > 0 && s.LexicalDeclaration? {
      InitializeSafe(o, s.bindings, scope.lexical, m.(budget := m.budget - 1));
      hide Grew;
    } else {
      PlainSafe(o, s, scope, m, loopDepth, functionDepth);
      QuietIsSafe(Exec(o, s, scope, m), m, scope.lexical, SetOf(LexicalNames(s)), loopDepth, functionDepth);
    }
  }

  /** Any statement but a lexical declaration. */
  lemma {:induction false} PlainSafe(o: Oracle, s: Statement, scope: Scope, m: Machine, loopDepth: nat,
                                     functionDepth: nat)
    requires Accepting(o) && Ready(s, scope, m, loopDepth, functionDepth) && (m.budget > 0 ==> !s.LexicalDeclaration?)
    ensures Quiet(Exec(o, s, scope, m), m, loopDepth, functionDepth)
    decreases m.budget, 1, 9
  {
    hide Accepting;
    hide Grew;
    if m.budget == 0 {
      GrewNot(m.envs, 0);
    } else if Compound(s) {
      var t := m.(budget := m.budget - 1);
      CompoundSafe(o, s, scope, t, loopDepth, functionDepth);
      hide Ready;
      hide ExecCompound;
    } else if s.VariableDeclaration? {
      SetSafe(o, s.bindings, scope.variable, m.(budget := m.budget - 1));
      hide SetAll;
    } else {
      SimpleSafe(o, s, scope, m, loopDepth, functionDepth);
    }
  }

  /** A statement that evaluates at most one expression. */
  lemma SimpleSafe(o: Oracle, s: Statement, scope: Scope, m: Machine, loopDepth: nat, functionDepth: nat)
    requires Accepting(o) && m.budget > 0 && Placed(s, loopDepth, functionDepth)
    requires !Compound(s) && !s.VariableDeclaration? && !s.LexicalDeclaration?
    ensures Quiet(Exec(o, s, scope, m), m, loopDepth, functionDepth)
    decreases m.budget, 1, 8
  {
    var t := m.(budget := m.budget - 1);
    GrewNot(m.envs, 0);
    EvaluateSafe(o, t);
  }

  lemma LoopBodyReady(s: Statement, scope: Scope, m: Machine, loopDepth: nat, functionDepth: nat)
    requires (s.While? || s.DoWhile?) && Ready(s, scope, m, loopDepth, functionDepth)
    ensures LoopReady(s.body, None, scope, m, loopDepth, functionDepth)
  {
  }

  /** A statement with statements inside, after its own step is counted. */
  lemma {:induction false} CompoundSafe(o: Oracle, s: Statement, scope: Scope, m: Machine, loopDepth: nat,
                                        functionDepth: nat)
    requires Accepting(o) && Ready(s, scope, m, loopDepth, functionDepth) && Compound(s)
    ensures Quiet(ExecCompound(o, s, scope, m), m, loopDepth, functionDepth)
    decreases m.budget, 8, 0
  {
    hide Accepting;
    hide Grew;
    if s.Block? {
      var none: Bindings := map[];
      assert none.Keys == {};
      BlockSafe(o, s.statements, none, scope, m, loopDepth, functionDepth);
    } else {
      if s.While? || s.DoWhile? {
        LoopBodyReady(s, scope, m, loopDepth, functionDepth);
      }
      hide Ready;
      match s {
        case If(_, _) =>
          IfSafe(o, s, scope, m, loopDepth, functionDepth);
        case While(body) =>
          ForLoopSafe(o, true, false, body, None, scope, m, Some(Undefined), loopDepth, functionDepth);
        case DoWhile(body) =>
          DoLoopSafe(o, body, scope, m, Some(Undefined), loopDepth, functionDepth);
        case For(_, _, _, _) =>
          ForSafe(o, s, scope, m, loopDepth, functionDepth);
        case Try(_, _, _) =>
          TrySafe(o, s, scope, m, loopDepth, functionDepth);
      }
    }
  }

  lemma {:induction false} IfSafe(o: Oracle, s: Statement, scope: Scope, m: Machine, loopDepth: nat, functionDepth: nat)
    requires Accepting(o) && Ready(s, scope, m, loopDepth, functionDepth) && s.If?
    ensures Quiet(ExecIf(o, s, scope, m), m, loopDepth, functionDepth)
    decreases m.budget, 3, 0
  {
    EvaluateSafe(o, m);
    var e := Evaluate(o, m);
    hide Accepting;
    if e.outcome.Gives? {
      var branch := if o.truthy(e.outcome.value) then Some(s.consequent) else s.alternate;
      if branch.Some? {
        assert Ready(branch.value, scope, m, loopDepth, functionDepth);
        StaysReady(branch.value, scope, m, e.machine, 0, {}, loopDepth, functionDepth);
        PlainSafe(o, branch.value, scope, e.machine, loopDepth, functionDepth);
        GrewOn(m.envs, e.machine.envs, Exec(o, branch.value, scope, e.machine).machine.envs, 0, 0);
      }
    }
  }

  // ---- declarations -----------------------------------------------------------------------------------

  predicate AllInitialized(b: Bindings, names: seq<string>) {
    forall n :: n in names ==> n in b && b[n].state.Initialized?
  }

  lemma InitializedStays(a: seq<Bindings>, b: seq<Bindings>, env: nat, names: set<string>, at: nat, done: seq<string>)
    requires Grew(a, b, env, names) && at < |a| && AllInitialized(a[at], done)
    ensures AllInitialized(b[at], done)
  {
    assert ShapeKept(a[at], b[at], Touched(at, env, names));
  }

  lemma InitialValueSafe(o: Oracle, d: Declarator, m: Machine)
    requires Accepting(o)
    ensures SafeValue(InitialValue(o, d, m), m)
    decreases m.budget, 0, 1
  {
    EvaluateSafe(o, m);
    GrewNot(m.envs, 0);
  }

  lemma BindingKeepsShape(m: Machine, env: nat, name: string, value: RawValue)
    requires env < |m.envs| && name in m.envs[env]
    ensures var b := m.envs[env][name := m.envs[env][name].(state := Initialized(value))];
            && Grew(m.envs, WithEnv(m, env, b).envs, env, {name})
            && (m.envs[env][name].kind.VariableKind? ==> Grew(m.envs, WithEnv(m, env, b).envs, 0, {}))
  {
  }

  /** One declarator: its value is found and its binding, still waiting, is initialized. */
  lemma InitializeOne(o: Oracle, d: Declarator, rest: seq<string>, env: nat, m: Machine)
    requires Accepting(o) && env < |m.envs| && Distinct([d.name] + rest) && Pending(m.envs[env], [d.name] + rest)
    ensures var e := InitialValue(o, d, m);
            && !e.outcome.Fails?
            && Grew(m.envs, e.machine.envs, env, {})
            && (e.outcome.Gives? ==>
                  var b := InitializeBinding(e.machine.envs[env], d.name, e.outcome.value);
                  && b.Ok?
                  && var next := WithEnv(e.machine, env, b.value);
                  Grew(m.envs, next.envs, env, {d.name}) && Pending(next.envs[env], rest)
                      && AllInitialized(next.envs[env], [d.name]))
    decreases m.budget, 0, 2
  {
    var names := [d.name] + rest;
    DistinctParts([d.name], rest);
    InitialValueSafe(o, d, m);
    var e := InitialValue(o, d, m);
    hide InitialValue;
    hide Accepting;
    GrewAnywhere(m.envs, e.machine.envs, 0, env);
    PendingStays(m.envs, e.machine.envs, env, {}, env, names);
    if e.outcome.Gives? {
      assert d.name in names && forall n :: n in rest ==> n in names;
      BindingKeepsShape(e.machine, env, d.name, e.outcome.value);
      var next := WithEnv(e.machine, env, InitializeBinding(e.machine.envs[env], d.name, e.outcome.value).value);
      PendingStays(e.machine.envs, next.envs, env, {d.name}, env, rest);
      GrewTwice(m.envs, e.machine.envs, next.envs, env, {}, {d.name});
      assert {} + {d.name} == {d.name};
    }
  }

  lemma {:induction false} InitializeSafe(o: Oracle, bindings: seq<Declarator>, env: nat, m: Machine)
    requires Accepting(o) && env < |m.envs| && Distinct(Names(bindings)) && Pending(m.envs[env], Names(bindings))
    ensures var r := InitializeAll(o, bindings, env, m);
            && Safe(r, m, env, SetOf(Names(bindings)), 0, 0)
            && (r.outcome.Gives? ==> env < |r.machine.envs| && AllInitialized(r.machine.envs[env], Names(bindings)))
    decreases m.budget, 1, |bindings|
  {
    hide Accepting;
    var names := Names(bindings);
    if bindings == [] {
      GrewNot(m.envs, env);
    } else {
      var name, rest := bindings[0].name, Names(bindings[1..]);
      assert names == [name] + rest;
      DistinctParts([name], rest);
      assert SetOf(names) == {name} + SetOf(rest);
      InitializeOne(o, bindings[0], rest, env, m);
      var e := InitialValue(o, bindings[0], m);
      hide InitialValue;
      if e.outcome.Gives? {
        var next := WithEnv(e.machine, env, InitializeBinding(e.machine.envs[env], name, e.outcome.value).value);
        InitializeSafe(o, bindings[1..], env, next);
        var last := InitializeAll(o, bindings[1..], env, next);
        InitializedStays(next.envs, last.machine.envs, env, SetOf(rest), env, [name]);
        GrewTwice(m.envs, next.envs, last.machine.envs, env, {name}, SetOf(rest));
      } else {
        GrewMore(m.envs, e.machine.envs, env, {}, SetOf(names));
      }
    }
  }

  lemma {:induction false} SetSafe(o: Oracle, bindings: seq<Declarator>, env: nat, m: Machine)
    requires Accepting(o) && env < |m.envs| && VarsBound(m.envs[env], SetOf(Names(bindings)))
    ensures Quiet(SetAll(o, bindings, env, m), m, 0, 0)
    decreases m.budget, 1, |bindings|
  {
    if bindings == [] {
      GrewNot(m.envs, 0);
    } else {
      var name, rest := bindings[0].name, Names(bindings[1..]);
      assert Names(bindings) == [name] + rest;
      assert VarsBound(m.envs[env], SetOf(rest));
      assert name in SetOf(Names(bindings));
      if !bindings[0].hasInitializer {
        SetSafe(o, bindings[1..], env, m);
      } else {
        EvaluateSafe(o, m);
        var e := Evaluate(o, m);
        if e.outcome.Gives? {
          VarsStayBound(m.envs, e.machine.envs, 0, {}, env, SetOf(rest) + {name});
          BindingKeepsShape(e.machine, env, name, e.outcome.value);
          var next := WithEnv(e.machine, env, SetVariableBinding(e.machine.envs[env], name, e.outcome.value).value);
          VarsStayBound(e.machine.envs, next.envs, 0, {}, env, SetOf(rest));
          SetSafe(o, bindings[1..], env, next);
          GrewOn(m.envs, e.machine.envs, next.envs, 0, 0);
          GrewOn(m.envs, next.envs, SetAll(o, bindings[1..], env, next).machine.envs, 0, 0);
        }
      }
    }
  }

  // ---- loops ---------------------------------------------------------------------------------------------

  lemma {:induction false} DoLoopSafe(o: Oracle, body: Statement, scope: Scope, m: Machine, value: Option<RawValue>,
                                      loopDepth: nat, functionDepth: nat)
    requires Accepting(o) && Plain(body) && Ready(body, scope, m, loopDepth + 1, functionDepth)
    ensures Quiet(LoopDo(o, body, scope, m, value), m, loopDepth, functionDepth)
    decreases m.budget, 3, 0
  {
    PlainSafe(o, body, scope, m, loopDepth + 1, functionDepth);
    var r := Exec(o, body, scope, m);
    var turn := AfterBody(r.outcome, value);
    if turn.Again? {
      EvaluateSafe(o, r.machine);
      var e := Evaluate(o, r.machine);
      GrewOn(m.envs, r.machine.envs, e.machine.envs, 0, 0);
      if e.outcome.Gives? && o.truthy(e.outcome.value) {
        StaysReady(body, scope, m, e.machine, 0, {}, loopDepth + 1, functionDepth);
        DoLoopSafe(o, body, scope, e.machine, turn.value, loopDepth, functionDepth);
        GrewOn(m.envs, e.machine.envs, LoopDo(o, body, scope, e.machine, turn.value).machine.envs, 0, 0);
      }
    }
  }

  lemma NewEnvGrows(m: Machine, b: Bindings)
    ensures Grew(m.envs, WithNewEnv(m, b).envs, 0, {})
  {
  }

  lemma {:induction false} CopiesExist(b: Bindings, names: seq<string>)
    requires AllInitialized(b, names)
    ensures Freshened(b, names).Ok? && AllInitialized(Freshened(b, names).value, names)
    ensures forall n :: n in Freshened(b, names).value ==> n in b && Freshened(b, names).value[n] == b[n]
    decreases |names|
  {
    if names != [] {
      assert names == [names[0]] + names[1..];
      CopiesExist(b, names[1..]);
    }
  }

  /** The next turn of a loop finds its bindings copied and its body ready. */
  lemma TurnReady(body: Statement, scope: Scope, m: Machine, names: seq<string>, loopDepth: nat, functionDepth: nat)
    requires Plain(body) && Ready(body, scope, m, loopDepth, functionDepth)
    requires AllInitialized(m.envs[scope.lexical], names)
    ensures var f := Freshen(m, scope, names);
            && f.Ok?
            && Grew(m.envs, f.value.0.envs, 0, {})
            && Ready(body, f.value.1, f.value.0, loopDepth, functionDepth)
            && AllInitialized(f.value.0.envs[f.value.1.lexical], names)
  {
    CopiesExist(m.envs[scope.lexical], names);
    var b := Freshened(m.envs[scope.lexical], names).value;
    NewEnvGrows(m, b);
    var inner := WithNewEnv(m, b);
    assert inner.envs[|m.envs|] == b;
    assert inner.envs[scope.variable] == m.envs[scope.variable];
  }

  lemma LoopTestSafe(o: Oracle, hasTest: bool, m: Machine)
    requires Accepting(o)
    ensures SafeValue(LoopTest(o, hasTest, m), m)
    decreases m.budget, 0, 1
  {
    EvaluateSafe(o, m);
    GrewNot(m.envs, 0);
  }

  ghost predicate LoopReady(body: Statement, names: Option<seq<string>>, scope: Scope, m: Machine, loopDepth: nat,
                            functionDepth: nat) {
    && Plain(body) && Ready(body, scope, m, loopDepth + 1, functionDepth)
    && (names.Some? ==> AllInitialized(m.envs[scope.lexical], names.value))
  }

  lemma LoopStaysReady(body: Statement, names: Option<seq<string>>, scope: Scope, m: Machine, later: Machine,
                       loopDepth: nat, functionDepth: nat)
    requires LoopReady(body, names, scope, m, loopDepth, functionDepth) && Grew(m.envs, later.envs, 0, {})
    ensures LoopReady(body, names, scope, later, loopDepth, functionDepth)
  {
    StaysReady(body, scope, m, later, 0, {}, loopDepth + 1, functionDepth);
    if names.Some? {
      InitializedStays(m.envs, later.envs, 0, {}, scope.lexical, names.value);
    }
  }

  lemma {:induction false} ForLoopSafe(o: Oracle, hasTest: bool, hasUpdate: bool, body: Statement,
                                       names: Option<seq<string>>, scope: Scope, m: Machine, value: Option<RawValue>,
                                       loopDepth: nat, functionDepth: nat)
    requires Accepting(o) && LoopReady(body, names, scope, m, loopDepth, functionDepth)
    ensures Quiet(LoopFor(o, hasTest, hasUpdate, body, names, scope, m, value), m, loopDepth, functionDepth)
    decreases m.budget, 4, 0
  {
    hide Accepting;
    hide LoopReady;
    hide Grew;
    LoopTestSafe(o, hasTest, m);
    var test := LoopTest(o, hasTest, m);
    hide LoopTest;
    if test.outcome.Gives? && !(hasTest && !o.truthy(test.outcome.value)) {
      LoopStaysReady(body, names, scope, m, test.machine, loopDepth, functionDepth);
      LoopTurnSafe(o, hasTest, hasUpdate, body, names, scope, test.machine, value, loopDepth, functionDepth);
      var r := LoopTurn(o, hasTest, hasUpdate, body, names, scope, test.machine, value);
      hide LoopTurn;
      GrewOn(m.envs, test.machine.envs, r.machine.envs, 0, 0);
    }
  }

  lemma {:induction false} LoopTurnSafe(o: Oracle, hasTest: bool, hasUpdate: bool, body: Statement,
                                        names: Option<seq<string>>, scope: Scope, m: Machine, value: Option<RawValue>,
                                        loopDepth: nat, functionDepth: nat)
    requires Accepting(o) && LoopReady(body, names, scope, m, loopDepth, functionDepth)
    ensures Quiet(LoopTurn(o, hasTest, hasUpdate, body, names, scope, m, value), m, loopDepth, functionDepth)
    decreases m.budget, 3, 0
  {
    hide Accepting;
    hide Ready;
    hide Grew;
    PlainSafe(o, body, scope, m, loopDepth + 1, functionDepth);
    var r := Exec(o, body, scope, m);
    hide Exec;
    LoopStaysReady(body, names, scope, m, r.machine, loopDepth, functionDepth);
    hide LoopReady;
    var turn := AfterBody(r.outcome, value);
    if turn.Again? {
      NextTurnSafe(o, hasTest, hasUpdate, body, names, scope, r.machine, turn.value, loopDepth, functionDepth);
      var last := NextTurn(o, hasTest, hasUpdate, body, names, scope, r.machine, turn.value);
      hide NextTurn;
      GrewOn(m.envs, r.machine.envs, last.machine.envs, 0, 0);
    }
  }

  lemma PrepareSafe(o: Oracle, hasUpdate: bool, body: Statement, names: Option<seq<string>>, scope: Scope, m: Machine,
                    loopDepth: nat, functionDepth: nat)
    requires Accepting(o) && LoopReady(body, names, scope, m, loopDepth, functionDepth)
    ensures var r := Prepare(o, hasUpdate, names, scope, m);
            && SafeValue(r, m)
            && (r.outcome.Gives? ==> LoopReady(body, names, r.outcome.value, r.machine, loopDepth, functionDepth))
    decreases m.budget, 1, 0
  {
    GrewNot(m.envs, 0);
    if names.Some? {
      TurnReady(body, scope, m, names.value, loopDepth + 1, functionDepth);
    }
    var (machine, turn) := (if names.Some? then Freshen(m, scope, names.value) else Ok((m, scope))).value;
    LoopTestSafe(o, hasUpdate, machine);
    var update := LoopTest(o, hasUpdate, machine);
    GrewOn(m.envs, machine.envs, update.machine.envs, 0, 0);
    LoopStaysReady(body, names, turn, machine, update.machine, loopDepth, functionDepth);
  }

  lemma {:induction false} NextTurnSafe(o: Oracle, hasTest: bool, hasUpdate: bool, body: Statement,
                                        names: Option<seq<string>>, scope: Scope, m: Machine, value: Option<RawValue>,
                                        loopDepth: nat, functionDepth: nat)
    requires Accepting(o) && LoopReady(body, names, scope, m, loopDepth, functionDepth)
    ensures Quiet(NextTurn(o, hasTest, hasUpdate, body, names, scope, m, value), m, loopDepth, functionDepth)
    decreases m.budget, 5, 0
  {
    hide Grew;
    hide LoopReady;
    hide Accepting;
    PrepareSafe(o, hasUpdate, body, names, scope, m, loopDepth, functionDepth);
    var turn := Prepare(o, hasUpdate, names, scope, m);
    hide Prepare;
    if turn.outcome.Gives? {
      ForLoopSafe(o, hasTest, hasUpdate, body, names, turn.outcome.value, turn.machine, value, loopDepth,
                  functionDepth);
      var r := LoopFor(o, hasTest, hasUpdate, body, names, turn.outcome.value, turn.machine, value);
      hide LoopFor;
      GrewOn(m.envs, turn.machine.envs, r.machine.envs, 0, 0);
    }
  }

  /** A loop after its head has run quietly. */
  lemma {:induction false} LoopAfterHead(o: Oracle, s: Statement, names: Option<seq<string>>, scope: Scope,
                                         m: Machine, head: Machine, loopDepth: nat, functionDepth: nat)
    requires Accepting(o) && s.For? && Grew(m.envs, head.envs, 0, {})
        && LoopReady(s.body, names, scope, head, loopDepth, functionDepth)
    ensures Quiet(LoopFor(o, s.hasTest, s.hasUpdate, s.body, names, scope, head, Some(Undefined)), m, loopDepth,
                  functionDepth)
    decreases head.budget, 5, 0
  {
    ForLoopSafe(o, s.hasTest, s.hasUpdate, s.body, names, scope, head, Some(Undefined), loopDepth, functionDepth);
    var r := LoopFor(o, s.hasTest, s.hasUpdate, s.body, names, scope, head, Some(Undefined));
    hide LoopFor;
    hide LoopReady;
    GrewOn(m.envs, head.envs, r.machine.envs, 0, 0);
  }

  lemma ForBodyReady(s: Statement, scope: Scope, m: Machine, loopDepth: nat, functionDepth: nat)
    requires s.For? && Ready(s, scope, m, loopDepth, functionDepth)
    ensures Plain(s.body) && Ready(s.body, scope, m, loopDepth + 1, functionDepth)
    ensures s.initializer.VariableInitializer? ==>
      VarsBound(m.envs[scope.variable], SetOf(Names(s.initializer.variables)))
    ensures s.initializer.LexicalInitializer? ==> Distinct(Names(s.initializer.lexicals))
  {
  }

  lemma {:induction false} ForSafe(o: Oracle, s: Statement, scope: Scope, m: Machine, loopDepth: nat,
                                   functionDepth: nat)
    requires Accepting(o) && Ready(s, scope, m, loopDepth, functionDepth) && s.For?
    ensures Quiet(ExecFor(o, s, scope, m), m, loopDepth, functionDepth)
    decreases m.budget, 7, 0
  {
    ForBodyReady(s, scope, m, loopDepth, functionDepth);
    GrewNot(m.envs, 0);
    hide Ready;
    hide Accepting;
    hide LoopFor;
    match s.initializer {
      case NoInitializer =>
        LoopAfterHead(o, s, None, scope, m, m, loopDepth, functionDepth);
      case ExpressionInitializer =>
        EvaluateSafe(o, m);
        var e := Evaluate(o, m);
        if e.outcome.Gives? {
          LoopStaysReady(s.body, None, scope, m, e.machine, loopDepth, functionDepth);
          LoopAfterHead(o, s, None, scope, m, e.machine, loopDepth, functionDepth);
        }
      case VariableInitializer(variables) =>
        SetSafe(o, variables, scope.variable, m);
        var e := SetAll(o, variables, scope.variable, m);
        hide SetAll;
        if e.outcome.Gives? {
          LoopStaysReady(s.body, None, scope, m, e.machine, loopDepth, functionDepth);
          LoopAfterHead(o, s, None, scope, m, e.machine, loopDepth, functionDepth);
        }
      case LexicalInitializer(mutable, lexicals) =>
        LexicalForSafe(o, s, mutable, lexicals, scope, m, loopDepth, functionDepth);
    }
  }

  lemma {:induction false} LoopInstantiates(b: Bindings, mutable: bool, names: seq<string>)
    requires Unclashed(names, b.Keys)
    ensures var r := InstantiateLoop(b, mutable, names);
            && r.Ok? && Pending(r.value, names) && (forall n :: n in b ==> n in r.value && r.value[n] == b[n])
    decreases |names|
  {
    if names != [] {
      var next := b[names[0] := Binding(LexicalKind, mutable, Uninitialized)];
      assert names == [names[0]] + names[1..];
      assert names[0] in SetOf(names);
      LoopInstantiates(next, mutable, names[1..]);
    }
  }

  lemma {:induction false} LexicalForSafe(o: Oracle, s: Statement, mutable: bool, lexicals: seq<Declarator>,
                                          scope: Scope, m: Machine, loopDepth: nat, functionDepth: nat)
    requires Accepting(o) && s.For? && Plain(s.body) && Ready(s.body, scope, m, loopDepth + 1, functionDepth)
        && Distinct(Names(lexicals))
    ensures Quiet(LexicalFor(o, s, mutable, lexicals, scope, m), m, loopDepth, functionDepth)
    decreases m.budget, 6, 0
  {
    var names := Names(lexicals);
    LoopInstantiates(map[], mutable, names);
    var b := InstantiateLoop(map[], mutable, names).value;
    var inner, outer := Scope(|m.envs|, scope.variable), WithNewEnv(m, b);
    assert outer.envs[inner.lexical] == b && outer.envs[scope.variable] == m.envs[scope.variable];
    InitializeSafe(o, lexicals, inner.lexical, outer);
    var e := InitializeAll(o, lexicals, inner.lexical, outer);
    GrewInside(m.envs, b, e.machine.envs, SetOf(names), 0);
    if e.outcome.Gives? {
      InnerReady(s.body, scope, m, b, e.machine, SetOf(names), loopDepth + 1, functionDepth);
      hide Ready;
      hide InitializeAll;
      if mutable {
        TurnReady(s.body, inner, e.machine, names, loopDepth + 1, functionDepth);
        var (machine, turn) := Freshen(e.machine, inner, names).value;
        GrewOn(m.envs, e.machine.envs, machine.envs, 0, 0);
        LoopAfterHead(o, s, Some(names), turn, m, machine, loopDepth, functionDepth);
      } else {
        LoopAfterHead(o, s, None, inner, m, e.machine, loopDepth, functionDepth);
      }
    }
  }

  /** The body of a loop is ready in the loop's own environment. */
  lemma InnerReady(body: Statement, scope: Scope, m: Machine, b: Bindings, later: Machine, names: set<string>,
                   loopDepth: nat, functionDepth: nat)
    requires Plain(body) && Ready(body, scope, m, loopDepth, functionDepth)
    requires Grew(m.envs + [b], later.envs, |m.envs|, names)
    ensures Ready(body, Scope(|m.envs|, scope.variable), later, loopDepth, functionDepth)
  {
    var outer := WithNewEnv(m, b);
    assert outer.envs[scope.variable] == m.envs[scope.variable];
    VarsStayBound(outer.envs, later.envs, |m.envs|, names, scope.variable, VarNames(body));
  }

  // ---- try ---------------------------------------------------------------------------------------------------

  /** A catch clause that may run in the scope. */
  ghost predicate HandlerReady(handler: CatchClause, scope: Scope, m: Machine, loopDepth: nat, functionDepth: nat) {
    && InScope(scope, m) && handler.body.Block?
    && AllShaped(handler.body.statements) && AllPlaced(handler.body.statements, loopDepth, functionDepth)
    && BlockScoped(handler.body.statements, ParameterNames(handler))
    && VarsBound(m.envs[scope.variable], ListVarNames(handler.body.statements))
  }

  lemma {:induction false} HandleSafe(o: Oracle, handler: CatchClause, thrown: Thrown, scope: Scope, m: Machine,
                                      loopDepth: nat, functionDepth: nat)
    requires Accepting(o) && HandlerReady(handler, scope, m, loopDepth, functionDepth)
    ensures Quiet(Handle(o, handler, thrown, scope, m), m, loopDepth, functionDepth)
    decreases m.budget, 5, 0
  {
    GrewNot(m.envs, 0);
    if handler.parameter.None? {
      var none: Bindings := map[];
      assert none.Keys == {};
      BlockSafe(o, handler.body.statements, none, scope, m, loopDepth, functionDepth);
    } else {
      var value := CatchValue(o, thrown, m);
      if value.Some? {
        var b := CatchBindings(handler.parameter.value, value.value).value;
        assert b.Keys == ParameterNames(handler);
        BlockSafe(o, handler.body.statements, b, scope, m, loopDepth, functionDepth);
      }
    }
  }

  /** The parts of a `try` statement are ready when it is. */
  lemma TryReady(s: Statement, scope: Scope, m: Machine, loopDepth: nat, functionDepth: nat)
    requires s.Try? && Ready(s, scope, m, loopDepth, functionDepth)
    ensures Plain(s.body) && Ready(s.body, scope, m, loopDepth, functionDepth)
    ensures s.handler.Some? ==> HandlerReady(s.handler.value, scope, m, loopDepth, functionDepth)
    ensures s.finalizer.Some? ==>
      Plain(s.finalizer.value) && Ready(s.finalizer.value, scope, m, loopDepth, functionDepth)
  {
    if s.handler.Some? {
      var body := s.handler.value.body;
      assert Shaped(body) && Placed(body, loopDepth, functionDepth);
      assert VarNames(body) == ListVarNames(body.statements) && VarNames(body) <= VarNames(s);
    }
    if s.finalizer.Some? {
      assert VarNames(s.finalizer.value) <= VarNames(s);
      assert Distinct(LexicalNames(s.finalizer.value));
    }
  }

  lemma HandlerStaysReady(handler: CatchClause, scope: Scope, m: Machine, later: Machine, loopDepth: nat,
                          functionDepth: nat)
    requires HandlerReady(handler, scope, m, loopDepth, functionDepth) && Grew(m.envs, later.envs, 0, {})
    ensures HandlerReady(handler, scope, later, loopDepth, functionDepth)
  {
    VarsStayBound(m.envs, later.envs, 0, {}, scope.variable, ListVarNames(handler.body.statements));
  }

  /** The try block and its catch clause. */
  lemma {:induction false} TriedSafe(o: Oracle, s: Statement, scope: Scope, m: Machine, loopDepth: nat,
                                     functionDepth: nat)
    requires Accepting(o) && s.Try? && Ready(s, scope, m, loopDepth, functionDepth)
    ensures Quiet(Tried(o, s, scope, m), m, loopDepth, functionDepth)
    decreases m.budget, 6, 0
  {
    TryReady(s, scope, m, loopDepth, functionDepth);
    PlainSafe(o, s.body, scope, m, loopDepth, functionDepth);
    var tried := Exec(o, s.body, scope, m);
    hide Exec;
    hide Ready;
    if tried.outcome.Throws? && s.handler.Some? {
      HandlerStaysReady(s.handler.value, scope, m, tried.machine, loopDepth, functionDepth);
      HandleSafe(o, s.handler.value, tried.outcome.thrown, scope, tried.machine, loopDepth, functionDepth);
      var r := Handle(o, s.handler.value, tried.outcome.thrown, scope, tried.machine);
      GrewOn(m.envs, tried.machine.envs, r.machine.envs, 0, 0);
    }
  }

  lemma {:induction false} TrySafe(o: Oracle, s: Statement, scope: Scope, m: Machine, loopDepth: nat,
                                   functionDepth: nat)
    requires Accepting(o) && Ready(s, scope, m, loopDepth, functionDepth) && s.Try?
    ensures Quiet(ExecTry(o, s, scope, m), m, loopDepth, functionDepth)
    decreases m.budget, 7, 0
  {
    TryReady(s, scope, m, loopDepth, functionDepth);
    TriedSafe(o, s, scope, m, loopDepth, functionDepth);
    var r := Tried(o, s, scope, m);
    hide Tried;
    if s.finalizer.Some? {
      StaysReady(s.finalizer.value, scope, m, r.machine, 0, {}, loopDepth, functionDepth);
      PlainSafe(o, s.finalizer.value, scope, r.machine, loopDepth, functionDepth);
      GrewOn(m.envs, r.machine.envs, Exec(o, s.finalizer.value, scope, r.machine).machine.envs, 0, 0);
    }
  }

  // ---- the theorems -----------------------------------------------------------------------------------------------

  /** A call of an accepted function never reaches a fault, whatever its expressions do. */
  lemma AcceptedFunctionsRun(o: Oracle, f: Function, arguments: seq<RawValue>, m: Machine)
    requires Accepting(o) && Accepted(f)
    ensures !Call(o, f, arguments, m).outcome.Fails?
    ensures Grew(m.envs, Call(o, f, arguments, m).machine.envs, 0, {})
  {
    CallSafe(o, f, arguments, m);
  }

  /**
   An accepted script in any environment either clashes with what is there before it starts, exactly when something
   is in its way, or runs without a fault and without a stray return, break or continue.
   */
  lemma AcceptedScriptsRun(o: Oracle, list: seq<Statement>, global: nat, m: Machine)
    requires Accepting(o) && global < |m.envs|
    requires AllShaped(list) && AllPlaced(list, 0, 0) && BodyScoped(list, {})
    ensures var r := RunScript(o, list, global, m);
            if InTheWay(m.envs[global], list)
            then r == Ran(m, Fails(VariableConflict)) || r == Ran(m, Fails(LexicalConflict))
            else !r.outcome.Fails?
  {
    BodyInstantiates(m.envs[global], list, o.closures);
    if !InTheWay(m.envs[global], list) {
      BodySafe(o, list, global, m, 0);
    }
  }
}
