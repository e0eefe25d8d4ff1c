/** The interpreter's statement methods, which change environments in place, against their definition. */
module Execution {
  import opened Outcomes
  import opened HeapRecords
  import opened ScriptSyntax
  import opened ScriptMachine
  import opened Interpreter
  import opened ScopeSafety

  /** One turn of evaluation: what is asked next decides how it goes on. */
  lemma EvaluateTurn(o: Oracle, m: Machine)
    ensures m.budget == 0 ==> Evaluate(o, m) == Ran(m, Throws(RuntimeError))
    ensures m.budget > 0 ==>
      var t := m.(budget := m.budget - 1, asked := m.asked + 1);
      match o.action(m.asked)
      case Give(value) => Evaluate(o, m) == Ran(t, Gives(value))
      case Raise(value) => Evaluate(o, m) == Ran(t, Throws(ThrownValue(value)))
      case AssignBinding(env, name, value) =>
        if Assignable(t, env, name) then Evaluate(o, m) == Evaluate(o, Assigned(t, env, name, value))
        else Evaluate(o, m) == Ran(t, Throws(RuntimeError))
      case NameFunction(name, closure) =>
        var b := CreateInitialized(map[], name, LexicalKind, false, closure);
        b.Ok? && Evaluate(o, m) == Evaluate(o, WithNewEnv(t, b.value))
      case CallFunction(f, arguments) =>
        var r := Call(o, f, arguments, t);
        Evaluate(o, m) == if r.outcome.Gives? then Evaluate(o, r.machine) else r
  {
  }

  class ScriptContext {
    const oracle: Oracle
    var envs: seq<Bindings>
    var asked: nat
    var budget: nat

    constructor (oracle: Oracle, envs: seq<Bindings>, budget: nat)
      ensures this.oracle == oracle && State() == Machine(envs, 0, budget)
    {
      this.oracle, this.envs, this.asked, this.budget := oracle, envs, 0, budget;
    }

    function State(): Machine
      reads this
    {
      Machine(envs, asked, budget)
    }

    /** Counts a step; an exhausted budget stays exhausted. */
    method Tick() returns (ok: bool)
      modifies this
      ensures ok == (old(budget) > 0)
      ensures State() == if ok then old(State()).(budget := old(budget) - 1) else old(State())
    {
      ok := budget > 0;
      if ok {
        budget := budget - 1;
      }
    }

    method EvaluateExpression() returns (r: Outcome<RawValue>)
      modifies this
      ensures Ran(State(), r) == Evaluate(oracle, old(State()))
      decreases budget, 0, 0
    {
      hide Evaluate;
      hide Call;
      ghost var goal := Evaluate(oracle, State());
      while budget > 0
        invariant budget <= old(budget)
        invariant goal == Evaluate(oracle, State())
        decreases budget
      {
        EvaluateTurn(oracle, State());
        budget, asked := budget - 1, asked + 1;
        match oracle.action(asked - 1) {
          case Give(value) =>
            return Gives(value);
          case Raise(value) =>
            return Throws(ThrownValue(value));
          case AssignBinding(env, name, value) =>
            if !Assignable(State(), env, name) {
              return Throws(RuntimeError);
            }
            envs := envs[env := envs[env][name := envs[env][name].(state := Initialized(value))]];
          case NameFunction(name, closure) =>
            envs := envs + [CreateInitialized(map[], name, LexicalKind, false, closure).value];
          case CallFunction(f, arguments) =>
            r := CallScript(f, arguments);
            if !r.Gives? {
              return;
            }
        }
      }
      EvaluateTurn(oracle, State());
      r := Throws(RuntimeError);
    }

    method CallScript(f: Function, arguments: seq<RawValue>) returns (r: Outcome<RawValue>)
      modifies this
      ensures Ran(State(), r) == Call(oracle, f, arguments, old(State()))
      decreases budget, 5, 0
    {
      hide RunBody;
      hide BindParameters;
      var ok := Tick();
      if !ok {
        return Throws(RuntimeError);
      }
      var bound := BindParameters(map[], f.parameters, arguments);
      if bound.Err? {
        return Fails(bound.error);
      }
      var env := |envs|;
      envs := envs + [bound.value];
      var done := ExecuteVarScope(f.body, env);
      r := CallResult(Ran(State(), done)).outcome;
    }

    method ExecuteVarScope(list: seq<Statement>, env: nat) returns (r: Outcome<Completion>)
      requires env < |envs|
      modifies this
      ensures Ran(State(), r) == RunBody(oracle, list, env, old(State()))
      decreases budget, 4, 0
    {
      hide InstantiateBody;
      var filled := InstantiateBody(envs[env], list, oracle.closures);
      if filled.Err? {
        return Fails(filled.error);
      }
      envs := envs[env := filled.value];
      r := ExecuteStatementList(list, Scope(env, env));
    }

    method ExecuteStatementList(list: seq<Statement>, scope: Scope) returns (r: Outcome<Completion>)
      modifies this
      ensures Ran(State(), r) == ExecList(oracle, list, scope, old(State()), None)
      decreases budget, 3, |list|
    {
      ghost var goal := ExecList(oracle, list, scope, State(), None);
      var value: Option<RawValue> := None;
      var i := 0;
      while i < |list|
        invariant i <= |list| && budget <= old(budget)
        invariant goal == ExecList(oracle, list[i..], scope, State(), value)
      {
        hide Exec;
        assert list[i..][0] == list[i] && list[i..][1..] == list[i + 1..];
        r := ExecuteStatement(list[i], scope);
        match r {
          case Gives(Normal(next)) =>
            value := Or(next, value);
          case Gives(abrupt) =>
            return Gives(UpdateEmpty(abrupt, value));
          case _ =>
            return;
        }
        i := i + 1;
      }
      r := Gives(Normal(value));
    }

    /** A block in a new environment that starts with the bindings `b`. */
    method ExecuteBlock(list: seq<Statement>, b: Bindings, scope: Scope) returns (r: Outcome<Completion>)
      modifies this
      ensures Ran(State(), r) == RunBlock(oracle, list, b, scope, old(State()))
      decreases budget, 4, 0
    {
      hide InstantiateBlock;
      var filled := InstantiateBlock(b, list, oracle.closures);
      if filled.Err? {
        return Fails(filled.error);
      }
      var env := |envs|;
      envs := envs + [filled.value];
      r := ExecuteStatementList(list, Scope(env, scope.variable));
    }

    method ExecuteStatement(s: Statement, scope: Scope) returns (r: Outcome<Completion>)
      modifies this
      ensures Ran(State(), r) == Exec(oracle, s, scope, old(State()))
      decreases budget, 2, 0
    {
      var ok := Tick();
      if !ok {
        return Throws(RuntimeError);
      }
      hide Evaluate;
      hide ExecCompound;
      hide SetAll;
      hide InitializeAll;
      match s {
        case Empty => r := Gives(Normal(None));
        case FunctionDeclaration(_) => r := Gives(Normal(None));
        case LexicalDeclaration(_, bindings) => r := InitializeBindings(bindings, scope.lexical);
        case VariableDeclaration(bindings) => r := ExecuteVariableDeclaration(bindings, scope.variable);
        case Break => r := Gives(Broke(None));
        case Continue => r := Gives(Continued(None));
        case Return(hasValue) =>
          var e: Outcome<RawValue> := Gives(Undefined);
          if hasValue {
            e := EvaluateExpression();
          }
          r := if e.Gives? then Gives(Returned(e.value)) else Abort(e);
        case ExpressionStatement =>
          var e := EvaluateExpression();
          r := if e.Gives? then Gives(Normal(Some(e.value))) else Abort(e);
        case Throw =>
          var e := EvaluateExpression();
          r := if e.Gives? then Throws(ThrownValue(e.value)) else Abort(e);
        case _ => r := ExecuteCompound(s, scope);
      }
    }

    method ExecuteCompound(s: Statement, scope: Scope) returns (r: Outcome<Completion>)
      requires Compound(s)
      modifies this
      ensures Ran(State(), r) == ExecCompound(oracle, s, scope, old(State()))
      decreases budget, 8, 0
    {
      hide RunBlock;
      hide LoopFor;
      hide LoopDo;
      hide ExecFor;
      hide ExecTry;
      hide Exec;
      hide Evaluate;
      match s {
        case Block(statements) => r := ExecuteBlock(statements, map[], scope);
        case If(consequent, alternate) =>
          var e := EvaluateExpression();
          if !e.Gives? {
            r := Abort(e);
          } else if oracle.truthy(e.value) {
            r := ExecuteStatement(consequent, scope);
          } else if alternate.Some? {
            r := ExecuteStatement(alternate.value, scope);
          } else {
            r := Gives(Normal(None));
          }
        case While(body) => r := ExecuteLoop(true, false, body, None, scope);
        case DoWhile(body) => r := ExecuteDoWhile(body, scope);
        case For(_, _, _, _) => r := ExecuteFor(s, scope);
        case Try(_, _, _) => r := ExecuteTry(s, scope);
      }
    }

    method InitializeBindings(bindings: seq<Declarator>, env: nat) returns (r: Outcome<Completion>)
      modifies this
      ensures Ran(State(), r) == InitializeAll(oracle, bindings, env, old(State()))
      decreases budget, 1, |bindings|
    {
      ghost var goal := InitializeAll(oracle, bindings, env, State());
      var i := 0;
      while i < |bindings|
        invariant i <= |bindings| && budget <= old(budget)
        invariant goal == InitializeAll(oracle, bindings[i..], env, State())
      {
        hide Evaluate;
        assert bindings[i..][0] == bindings[i] && bindings[i..][1..] == bindings[i + 1..];
        var e: Outcome<RawValue> := Gives(Undefined);
        if bindings[i].hasInitializer {
          e := EvaluateExpression();
        }
        if !e.Gives? {
          return Abort(e);
        }
        if env >= |envs| {
          return Fails(InvalidEnvironment);
        }
        var b := InitializeBinding(envs[env], bindings[i].name, e.value);
        if b.Err? {
          return Fails(b.error);
        }
        envs := envs[env := b.value];
        i := i + 1;
      }
      r := Gives(Normal(None));
    }

    method ExecuteVariableDeclaration(bindings: seq<Declarator>, env: nat) returns (r: Outcome<Completion>)
      modifies this
      ensures Ran(State(), r) == SetAll(oracle, bindings, env, old(State()))
      decreases budget, 1, |bindings|
    {
      ghost var goal := SetAll(oracle, bindings, env, State());
      var i := 0;
      while i < |bindings|
        invariant i <= |bindings| && budget <= old(budget)
        invariant goal == SetAll(oracle, bindings[i..], env, State())
      {
        hide Evaluate;
        assert bindings[i..][0] == bindings[i] && bindings[i..][1..] == bindings[i + 1..];
        if bindings[i].hasInitializer {
          var e := EvaluateExpression();
          if !e.Gives? {
            return Abort(e);
          }
          if env >= |envs| {
            return Fails(InvalidEnvironment);
          }
          var b := SetVariableBinding(envs[env], bindings[i].name, e.value);
          if b.Err? {
            return Fails(b.error);
          }
          envs := envs[env := b.value];
        }
        i := i + 1;
      }
      r := Gives(Normal(None));
    }

    method ExecuteDoWhile(body: Statement, scope: Scope) returns (r: Outcome<Completion>)
      modifies this
      ensures Ran(State(), r) == LoopDo(oracle, body, scope, old(State()), Some(Undefined))
      decreases budget, 3, 0
    {
      ghost var goal := LoopDo(oracle, body, scope, State(), Some(Undefined));
      var value := Some(Undefined);
      while true
        invariant budget <= old(budget)
        invariant goal == LoopDo(oracle, body, scope, State(), value)
        decreases budget
      {
        hide Exec;
        hide Evaluate;
        r := ExecuteStatement(body, scope);
        match AfterBody(r, value) {
          case Stop(outcome) => return outcome;
          case Again(next) => value := next;
        }
        var e := EvaluateExpression();
        if !e.Gives? {
          return Abort(e);
        }
        if !oracle.truthy(e.value) {
          return Gives(Normal(value));
        }
      }
    }

    /** The loop of `for` and `while`; `names` are the bindings that each turn gets afresh. */
    method ExecuteLoop(hasTest: bool, hasUpdate: bool, body: Statement, names: Option<seq<string>>,
                       first: Scope) returns (r: Outcome<Completion>)
      modifies this
      ensures Ran(State(), r) == LoopFor(oracle, hasTest, hasUpdate, body, names, first, old(State()), Some(Undefined))
      decreases budget, 4, 0
    {
      ghost var goal := LoopFor(oracle, hasTest, hasUpdate, body, names, first, State(), Some(Undefined));
      var value, scope := Some(Undefined), first;
      hide LoopFor;
      hide LoopTurn;
      hide NextTurn;
      hide Exec;
      hide LoopTest;
      hide Prepare;
      while true
        invariant budget <= old(budget)
        invariant goal == LoopFor(oracle, hasTest, hasUpdate, body, names, scope, State(), value)
        decreases budget
      {
        LoopForIs(hasTest, hasUpdate, body, names, scope, State(), value);
        var test := EvaluateOptional(hasTest);
        if !test.Gives? {
          return Abort(test);
        }
        if hasTest && !oracle.truthy(test.value) {
          return Gives(Normal(value));
        }
        assert goal == LoopTurn(oracle, hasTest, hasUpdate, body, names, scope, State(), value);
        LoopTurnIs(hasTest, hasUpdate, body, names, scope, State(), value);
        r := ExecuteStatement(body, scope);
        match AfterBody(r, value) {
          case Stop(outcome) => return outcome;
          case Again(next) => value := next;
        }
        assert goal == NextTurn(oracle, hasTest, hasUpdate, body, names, scope, State(), value);
        NextTurnIs(hasTest, hasUpdate, body, names, scope, State(), value);
        var turn := PrepareTurn(hasUpdate, names, scope);
        if !turn.Gives? {
          return Abort(turn);
        }
        scope := turn.value;
      }
    }

    lemma LoopForIs(hasTest: bool, hasUpdate: bool, body: Statement, names: Option<seq<string>>, scope: Scope,
                    m: Machine, value: Option<RawValue>)
      ensures var test := LoopTest(oracle, hasTest, m);
              LoopFor(oracle, hasTest, hasUpdate, body, names, scope, m, value) ==
              if !test.outcome.Gives? then Ran(test.machine, Abort(test.outcome))
              else if hasTest && !oracle.truthy(test.outcome.value) then Ran(test.machine, Gives(Normal(value)))
              else LoopTurn(oracle, hasTest, hasUpdate, body, names, scope, test.machine, value)
    {
    }

    lemma LoopTurnIs(hasTest: bool, hasUpdate: bool, body: Statement, names: Option<seq<string>>, scope: Scope,
                     m: Machine, value: Option<RawValue>)
      ensures var r := Exec(oracle, body, scope, m);
              var turn := AfterBody(r.outcome, value);
              LoopTurn(oracle, hasTest, hasUpdate, body, names, scope, m, value) ==
              if turn.Stop? then Ran(r.machine, turn.outcome)
              else NextTurn(oracle, hasTest, hasUpdate, body, names, scope, r.machine, turn.value)
    {
    }

    lemma NextTurnIs(hasTest: bool, hasUpdate: bool, body: Statement, names: Option<seq<string>>, scope: Scope,
                     m: Machine, value: Option<RawValue>)
      ensures var turn := Prepare(oracle, hasUpdate, names, scope, m);
              NextTurn(oracle, hasTest, hasUpdate, body, names, scope, m, value) ==
              if turn.outcome.Gives? then LoopFor(oracle, hasTest, hasUpdate, body, names, turn.outcome.value,
                  turn.machine, value)
              else Ran(turn.machine, Abort(turn.outcome))
    {
    }

    /** A loop's test or update, if it has one. */
    method EvaluateOptional(present: bool) returns (r: Outcome<RawValue>)
      modifies this
      ensures Ran(State(), r) == LoopTest(oracle, present, old(State()))
      decreases budget, 0, 1
    {
      hide Evaluate;
      r := Gives(Boolean(true));
      if present {
        r := EvaluateExpression();
      }
    }

    /** Fresh bindings for the next turn, then the update. */
    method PrepareTurn(hasUpdate: bool, names: Option<seq<string>>, scope: Scope) returns (r: Outcome<Scope>)
      modifies this
      ensures Ran(State(), r) == Prepare(oracle, hasUpdate, names, scope, old(State()))
      decreases budget, 1, 0
    {
      hide LoopTest;
      r := Gives(scope);
      if names.Some? {
        var next := Freshen(State(), scope, names.value);
        if next.Err? {
          return Fails(next.error);
        }
        envs, r := next.value.0.envs, Gives(next.value.1);
      }
      var update := EvaluateOptional(hasUpdate);
      if !update.Gives? {
        return Abort(update);
      }
    }

    method ExecuteFor(s: Statement, scope: Scope) returns (r: Outcome<Completion>)
      requires s.For?
      modifies this
      ensures Ran(State(), r) == ExecFor(oracle, s, scope, old(State()))
      decreases budget, 6, 0
    {
      hide LoopFor;
      hide Evaluate;
      hide SetAll;
      hide InitializeAll;
      match s.initializer {
        case NoInitializer =>
          r := ExecuteLoop(s.hasTest, s.hasUpdate, s.body, None, scope);
        case ExpressionInitializer =>
          var e := EvaluateExpression();
          if !e.Gives? {
            return Abort(e);
          }
          r := ExecuteLoop(s.hasTest, s.hasUpdate, s.body, None, scope);
        case VariableInitializer(variables) =>
          r := ExecuteVariableDeclaration(variables, scope.variable);
          if r.Gives? {
            r := ExecuteLoop(s.hasTest, s.hasUpdate, s.body, None, scope);
          }
        case LexicalInitializer(mutable, lexicals) =>
          var made := InstantiateLoop(map[], mutable, Names(lexicals));
          if made.Err? {
            return Fails(made.error);
          }
          var inner := Scope(|envs|, scope.variable);
          envs := envs + [made.value];
          r := InitializeBindings(lexicals, inner.lexical);
          if !r.Gives? {
            return;
          }
          if mutable {
            var next := Freshen(State(), inner, Names(lexicals));
            if next.Err? {
              return Fails(next.error);
            }
            envs := next.value.0.envs;
            r := ExecuteLoop(s.hasTest, s.hasUpdate, s.body, Some(Names(lexicals)), next.value.1);
          } else {
            r := ExecuteLoop(s.hasTest, s.hasUpdate, s.body, None, inner);
          }
      }
    }

    method RunHandler(handler: CatchClause, thrown: Thrown, scope: Scope) returns (r: Outcome<Completion>)
      modifies this
      ensures Ran(State(), r) == Handle(oracle, handler, thrown, scope, old(State()))
      decreases budget, 5, 0
    {
      hide RunBlock;
      var b: Bindings := map[];
      if handler.parameter.Some? {
        var value := CatchValue(oracle, thrown, State());
        if value.None? {
          return Throws(RuntimeError);
        }
        b := CatchBindings(handler.parameter.value, value.value).value;
      }
      if !handler.body.Block? {
        return Fails(CatchBodyNotBlock);
      }
      r := ExecuteBlock(handler.body.statements, b, scope);
    }

    method ExecuteTry(s: Statement, scope: Scope) returns (r: Outcome<Completion>)
      requires s.Try?
      modifies this
      ensures Ran(State(), r) == ExecTry(oracle, s, scope, old(State()))
      decreases budget, 7, 0
    {
      hide Exec;
      hide Handle;
      r := ExecuteStatement(s.body, scope);
      if r.Throws? && s.handler.Some? {
        r := RunHandler(s.handler.value, r.thrown, scope);
      }
      if s.finalizer.Some? && !r.Fails? {
        var last := ExecuteStatement(s.finalizer.value, scope);
        if !(last.Gives? && last.value.Normal?) {
          r := last;
        }
      }
    }

    /** A call of a function the parser accepted: no fault, and every environment keeps its names and kinds. */
    method CallAccepted(f: Function, arguments: seq<RawValue>) returns (r: Outcome<RawValue>)
      requires Accepting(oracle) && Accepted(f)
      modifies this
      ensures Ran(State(), r) == Call(oracle, f, arguments, old(State()))
      ensures !r.Fails? && Grew(old(envs), envs, 0, {})
    {
      AcceptedFunctionsRun(oracle, f, arguments, State());
      r := CallScript(f, arguments);
    }
  }
}
