/** The interpreter's definition and the inference rules agree: a goal has a derivation of exactly one answer. */
module ScriptDerivations {
  import opened Outcomes
  import opened HeapRecords
  import opened ScriptSyntax
  import opened ScriptMachine
  import opened Interpreter
  import opened ScriptRules

  /** The result of an expression as a completion. */
  function Lift(e: Evaluated): Executed {
    Ran(e.machine, match e.outcome
                   case Gives(value) => Gives(Normal(Some(value)))
                   case Throws(thrown) => Throws(thrown)
                   case Fails(fault) => Fails(fault))
  }

  /** What the interpreter makes of a goal. */
  function Meaning(o: Oracle, g: Goal): Executed {
    match g
    case EvaluateGoal(m) => Lift(Evaluate(o, m))
    case CallGoal(f, arguments, m) => Lift(Call(o, f, arguments, m))
    case BodyGoal(list, env, m) =>
      if env < |m.envs| then RunBody(o, list, env, m) else Ran(m, Fails(InvalidEnvironment))
    case BlockGoal(list, bindings, scope, m) => RunBlock(o, list, bindings, scope, m)
    case ListGoal(list, scope, m, value) => ExecList(o, list, scope, m, value)
    case StatementGoal(s, scope, m) => Exec(o, s, scope, m)
    case InitializeGoal(declarators, env, m) => InitializeAll(o, declarators, env, m)
    case AssignGoal(declarators, env, m) => SetAll(o, declarators, env, m)
    case LoopGoal(hasTest, hasUpdate, body, names, scope, m, value) =>
      LoopFor(o, hasTest, hasUpdate, body, names, scope, m, value)
    case DoGoal(body, scope, m, value) => LoopDo(o, body, scope, m, value)
    case CatchGoal(handler, thrown, scope, m) => Handle(o, handler, thrown, scope, m)
  }

  predicate Means(o: Oracle, ps: seq<Conclusion>) {
    forall i :: 0 <= i < |ps| ==> ps[i].answer == Meaning(o, ps[i].goal)
  }

  lemma FirstMeans(o: Oracle, ps: seq<Conclusion>)
    requires Means(o, ps) && ps != []
    ensures ps[0].answer == Meaning(o, ps[0].goal) && Means(o, ps[1..])
    ensures |ps| > 1 ==> ps[1].answer == Meaning(o, ps[1].goal) && Means(o, ps[2..])
  {
    hide Meaning;
    assert forall i :: 0 <= i < |ps[1..]| ==> ps[1..][i] == ps[i + 1];
    assert |ps| > 1 ==> forall i :: 0 <= i < |ps[2..]| ==> ps[2..][i] == ps[i + 2];
  }

  lemma OnlyMeans(o: Oracle, ps: seq<Conclusion>, g: Goal, r: Executed)
    requires Means(o, ps) && ps == [Conclusion(g, r)]
    ensures r == Meaning(o, g)
  {
    hide Meaning;
    assert ps[0] == Conclusion(g, r);
  }

  lemma LatestIsOr(later: Option<RawValue>, earlier: Option<RawValue>)
    ensures Latest(later, earlier) == Or(later, earlier)
  {
  }

  lemma {:induction false} InitializationIsNormal(o: Oracle, declarators: seq<Declarator>, env: nat, m: Machine)
    ensures var r := InitializeAll(o, declarators, env, m); r.outcome.Gives? ==> r.outcome.value == Normal(None)
    decreases |declarators|
  {
    hide Evaluate;
    hide InitializeBinding;
    if declarators != [] {
      var e := InitialValue(o, declarators[0], m);
      if e.outcome.Gives? && env < |e.machine.envs| {
        match InitializeBinding(e.machine.envs[env], declarators[0].name, e.outcome.value)
        case Err(_) =>
        case Ok(b) => InitializationIsNormal(o, declarators[1..], env, WithEnv(e.machine, env, b));
      }
    }
  }

  lemma {:induction false} AssignmentIsNormal(o: Oracle, declarators: seq<Declarator>, env: nat, m: Machine)
    ensures var r := SetAll(o, declarators, env, m); r.outcome.Gives? ==> r.outcome.value == Normal(None)
    decreases |declarators|
  {
    hide Evaluate;
    hide SetVariableBinding;
    if declarators != [] {
      if !declarators[0].hasInitializer {
        AssignmentIsNormal(o, declarators[1..], env, m);
      } else {
        var e := Evaluate(o, m);
        if e.outcome.Gives? && env < |e.machine.envs| {
          match SetVariableBinding(e.machine.envs[env], declarators[0].name, e.outcome.value)
          case Err(_) =>
          case Ok(b) => AssignmentIsNormal(o, declarators[1..], env, WithEnv(e.machine, env, b));
        }
      }
    }
  }

  // ---- every rule is what the interpreter does -----------------------------------------------------

  lemma EvaluateSound(o: Oracle, m: Machine, r: Executed, ps: seq<Conclusion>)
    requires EvaluateRule(o, m, r, ps) && Means(o, ps)
    ensures r == Meaning(o, EvaluateGoal(m))
  {
    hide Call;
    if ps != [] {
      FirstMeans(o, ps);
      assert |ps| > 1 ==> ps[1..][0] == ps[1];
    }
    hide Means;
  }

  lemma CallSound(o: Oracle, f: Function, arguments: seq<RawValue>, m: Machine, r: Executed, ps: seq<Conclusion>)
    requires CallRule(f, arguments, m, r, ps) && Means(o, ps)
    ensures r == Meaning(o, CallGoal(f, arguments, m))
  {
    hide RunBody;
    if ps != [] {
      FirstMeans(o, ps);
    }
    hide Means;
    hide BindParameters;
  }

  lemma BodySound(o: Oracle, list: seq<Statement>, env: nat, m: Machine, r: Executed, ps: seq<Conclusion>)
    requires BodyRule(o, list, env, m, r, ps) && Means(o, ps)
    ensures r == Meaning(o, BodyGoal(list, env, m))
  {
    hide ExecList;
    if ps != [] {
      FirstMeans(o, ps);
    }
    hide Means;
    hide InstantiateBody;
  }

  lemma BlockSound(o: Oracle, list: seq<Statement>, bindings: Bindings, scope: Scope, m: Machine, r: Executed,
                   ps: seq<Conclusion>)
    requires BlockRule(o, list, bindings, scope, m, r, ps) && Means(o, ps)
    ensures r == Meaning(o, BlockGoal(list, bindings, scope, m))
  {
    hide ExecList;
    if ps != [] {
      FirstMeans(o, ps);
    }
    hide Means;
    hide InstantiateBlock;
  }

  lemma ListSound(o: Oracle, list: seq<Statement>, scope: Scope, m: Machine, value: Option<RawValue>, r: Executed,
                  ps: seq<Conclusion>)
    requires ListRule(list, scope, m, value, r, ps) && Means(o, ps)
    ensures r == Meaning(o, ListGoal(list, scope, m, value))
  {
    hide Exec;
    if ps != [] {
      FirstMeans(o, ps);
      assert |ps| > 1 ==> ps[1..][0] == ps[1];
    }
    hide Means;
  }

  lemma InitializeOneSound(o: Oracle, declarators: seq<Declarator>, env: nat, m: Machine, e: Evaluated, r: Executed,
                           ps: seq<Conclusion>)
    requires declarators != [] && e == InitialValue(o, declarators[0], m) && e.outcome.Gives?
    requires InitializeOneRule(declarators, env, e.machine, e.outcome.value, r, ps) && Means(o, ps)
    ensures r == InitializeAll(o, declarators, env, m)
  {
    hide InitialValue;
    if ps != [] {
      FirstMeans(o, ps);
    }
    hide Means;
  }

  lemma InitializeSound(o: Oracle, declarators: seq<Declarator>, env: nat, m: Machine, r: Executed,
                        ps: seq<Conclusion>)
    requires InitializeRule(declarators, env, m, r, ps) && Means(o, ps)
    ensures r == Meaning(o, InitializeGoal(declarators, env, m))
  {
    if declarators != [] {
      hide Evaluate;
      hide InitializeOneRule;
      var e := InitialValue(o, declarators[0], m);
      if declarators[0].hasInitializer {
        FirstMeans(o, ps);
        if e.outcome.Gives? {
          InitializeOneSound(o, declarators, env, m, e, r, ps[1..]);
        }
      } else {
        InitializeOneSound(o, declarators, env, m, e, r, ps);
      }
      hide Means;
    }
  }

  lemma AssignSound(o: Oracle, declarators: seq<Declarator>, env: nat, m: Machine, r: Executed, ps: seq<Conclusion>)
    requires AssignRule(declarators, env, m, r, ps) && Means(o, ps)
    ensures r == Meaning(o, AssignGoal(declarators, env, m))
  {
    hide Evaluate;
    if ps != [] {
      FirstMeans(o, ps);
      assert |ps| > 1 ==> ps[1..][0] == ps[1];
    }
    hide Means;
  }

  lemma CatchSound(o: Oracle, handler: CatchClause, thrown: Thrown, scope: Scope, m: Machine, r: Executed,
                   ps: seq<Conclusion>)
    requires CatchRule(o, handler, thrown, scope, m, r, ps) && Means(o, ps)
    ensures r == Meaning(o, CatchGoal(handler, thrown, scope, m))
  {
    hide RunBlock;
    if ps != [] {
      FirstMeans(o, ps);
    }
    hide Means;
  }

  lemma DoSound(o: Oracle, body: Statement, scope: Scope, m: Machine, value: Option<RawValue>, r: Executed,
                ps: seq<Conclusion>)
    requires DoRule(o, body, scope, m, value, r, ps) && Means(o, ps)
    ensures r == Meaning(o, DoGoal(body, scope, m, value))
  {
    hide Exec;
    hide Evaluate;
    FirstMeans(o, ps);
    var a := Exec(o, body, scope, m);
    assert a == ps[0].answer;
    if a.outcome.Gives? && !a.outcome.value.Returned? {
      LatestIsOr(a.outcome.value.value, value);
    }
    if |ps| > 1 {
      FirstMeans(o, ps[1..]);
      assert ps[1..][0] == ps[1];
      assert |ps| > 2 ==> ps[1..][1..][0] == ps[2];
    }
    hide Means;
    hide Latest;
    hide Or;
    assert r == LoopDo(o, body, scope, m, value);
  }

  lemma NextSound(o: Oracle, g: Goal, m: Machine, value: Option<RawValue>, r: Executed, ps: seq<Conclusion>)
    requires g.LoopGoal? && NextRule(g, m, value, r, ps) && Means(o, ps)
    ensures r == NextTurn(o, g.hasTest, g.hasUpdate, g.body, g.names, g.scope, m, value)
  {
    hide LoopFor;
    hide Freshen;
    hide Evaluate;
    if ps != [] {
      FirstMeans(o, ps);
      assert |ps| > 1 ==> ps[1..][0] == ps[1];
    }
    hide Means;
    var start := if g.names.Some? then Freshen(m, g.scope, g.names.value) else Ok((m, g.scope));
    var turn := Prepare(o, g.hasUpdate, g.names, g.scope, m);
    match start
    case Err(fault) =>
      assert turn == Ran(m, Fails(fault));
    case Ok(pair) =>
      var update := LoopTest(o, g.hasUpdate, pair.0);
      if update.outcome.Gives? {
        assert turn == Ran(update.machine, Gives(pair.1));
        if g.hasUpdate {
          assert HasValue(ps[0].answer) && ps[0].answer.machine == update.machine;
          OnlyMeans(o, ps[1..], AgainGoal(g, pair.1, update.machine, value), r);
        } else {
          OnlyMeans(o, ps, AgainGoal(g, pair.1, update.machine, value), r);
        }
      } else {
        assert g.hasUpdate && ps[0].answer == Lift(update);
      }
  }

  lemma TurnSound(o: Oracle, g: Goal, m: Machine, r: Executed, ps: seq<Conclusion>)
    requires g.LoopGoal? && TurnRule(g, m, r, ps) && Means(o, ps)
    ensures r == LoopTurn(o, g.hasTest, g.hasUpdate, g.body, g.names, g.scope, m, g.value)
  {
    hide Exec;
    hide NextRule;
    hide NextTurn;
    FirstMeans(o, ps);
    var a := Exec(o, g.body, g.scope, m);
    assert a == ps[0].answer;
    if a.outcome.Gives? && !a.outcome.value.Returned? {
      LatestIsOr(a.outcome.value.value, g.value);
      if !a.outcome.value.Broke? {
        NextSound(o, g, a.machine, Latest(a.outcome.value.value, g.value), r, ps[1..]);
      }
    }
    hide Means;
    hide Latest;
    hide Or;
    assert r == LoopTurn(o, g.hasTest, g.hasUpdate, g.body, g.names, g.scope, m, g.value);
  }

  lemma LoopSound(o: Oracle, g: Goal, r: Executed, ps: seq<Conclusion>)
    requires g.LoopGoal? && LoopRule(o, g, r, ps) && Means(o, ps)
    ensures r == Meaning(o, g)
  {
    hide Evaluate;
    hide LoopTurn;
    hide TurnRule;
    var test := LoopTest(o, g.hasTest, g.m);
    if g.hasTest {
      FirstMeans(o, ps);
      if test.outcome.Gives? && o.truthy(test.outcome.value) {
        TurnSound(o, g, test.machine, r, ps[1..]);
      }
    } else {
      TurnSound(o, g, g.m, r, ps);
    }
    hide Means;
    assert r == LoopFor(o, g.hasTest, g.hasUpdate, g.body, g.names, g.scope, g.m, g.value);
  }

  lemma LexicalForSound(o: Oracle, s: Statement, mutable: bool, lexicals: seq<Declarator>, scope: Scope, m: Machine,
                        r: Executed, ps: seq<Conclusion>)
    requires s.For? && LexicalForRule(s, mutable, lexicals, scope, m, r, ps) && Means(o, ps)
    ensures r == LexicalFor(o, s, mutable, lexicals, scope, m)
  {
    hide LoopFor;
    hide InitializeAll;
    hide Freshen;
    hide InstantiateLoop;
    if ps != [] {
      FirstMeans(o, ps);
      InitializationIsNormal(o, lexicals, |m.envs|, ps[0].goal.m);
      assert |ps| > 1 ==> ps[1..][0] == ps[1];
    }
    hide Means;
  }

  lemma ForSound(o: Oracle, s: Statement, scope: Scope, m: Machine, r: Executed, ps: seq<Conclusion>)
    requires s.For? && ForRule(s, scope, m, r, ps) && Means(o, ps)
    ensures r == ExecFor(o, s, scope, m)
  {
    hide LoopFor;
    hide SetAll;
    hide Evaluate;
    hide LexicalFor;
    hide LexicalForRule;
    match s.initializer
    case LexicalInitializer(mutable, lexicals) => LexicalForSound(o, s, mutable, lexicals, scope, m, r, ps);
    case VariableInitializer(variables) =>
      FirstMeans(o, ps);
      AssignmentIsNormal(o, variables, scope.variable, m);
      assert |ps| > 1 ==> ps[1..][0] == ps[1];
    case ExpressionInitializer =>
      FirstMeans(o, ps);
      assert |ps| > 1 ==> ps[1..][0] == ps[1];
    case NoInitializer => FirstMeans(o, ps);
  }

  lemma IfSound(o: Oracle, s: Statement, scope: Scope, m: Machine, r: Executed, ps: seq<Conclusion>)
    requires s.If? && IfRule(o, s.consequent, s.alternate, scope, m, r, ps) && Means(o, ps)
    ensures r == ExecIf(o, s, scope, m)
  {
    hide Exec;
    hide Evaluate;
    FirstMeans(o, ps);
    assert |ps| > 1 ==> ps[1..][0] == ps[1];
    hide Means;
  }

  lemma FinallySound(o: Oracle, s: Statement, scope: Scope, m: Machine, sofar: Executed, r: Executed,
                     ps: seq<Conclusion>)
    requires s.Try? && sofar == Tried(o, s, scope, m) && FinallyRule(s, scope, sofar, r, ps) && Means(o, ps)
    ensures r == ExecTry(o, s, scope, m)
  {
    hide Exec;
    hide Tried;
    if ps != [] {
      FirstMeans(o, ps);
    }
    hide Means;
  }

  lemma TrySound(o: Oracle, s: Statement, scope: Scope, m: Machine, r: Executed, ps: seq<Conclusion>)
    requires s.Try? && TryRule(s, scope, m, r, ps) && Means(o, ps)
    ensures r == ExecTry(o, s, scope, m)
  {
    hide Exec;
    hide Handle;
    hide ExecTry;
    hide FinallyRule;
    FirstMeans(o, ps);
    var tried := Exec(o, s.body, scope, m);
    assert tried == ps[0].answer;
    if tried.outcome.Throws? && s.handler.Some? {
      assert ps[1].answer == Handle(o, s.handler.value, tried.outcome.thrown, scope, tried.machine);
      FinallySound(o, s, scope, m, ps[1].answer, r, ps[2..]);
    } else {
      FinallySound(o, s, scope, m, tried, r, ps[1..]);
    }
  }

  lemma CompoundSound(o: Oracle, s: Statement, scope: Scope, m: Machine, r: Executed, ps: seq<Conclusion>)
    requires Compound(s) && m.budget > 0 && StatementRule(o, s, scope, m, r, ps) && Means(o, ps)
    ensures r == ExecCompound(o, s, scope, Ticked(m))
  {
    hide RunBlock;
    hide LoopFor;
    hide LoopDo;
    hide ExecIf;
    hide ExecFor;
    hide ExecTry;
    hide IfRule;
    hide ForRule;
    hide TryRule;
    var t := Ticked(m);
    match s
    case If(_, _) => IfSound(o, s, scope, t, r, ps);
    case For(_, _, _, _) => ForSound(o, s, scope, t, r, ps);
    case Try(_, _, _) => TrySound(o, s, scope, t, r, ps);
    case Block(_) => FirstMeans(o, ps);
    case While(_) => FirstMeans(o, ps);
    case DoWhile(_) => FirstMeans(o, ps);
  }

  lemma StatementSound(o: Oracle, s: Statement, scope: Scope, m: Machine, r: Executed, ps: seq<Conclusion>)
    requires StatementRule(o, s, scope, m, r, ps) && Means(o, ps)
    ensures r == Meaning(o, StatementGoal(s, scope, m))
  {
    hide Evaluate;
    hide InitializeAll;
    hide SetAll;
    hide ExecCompound;
    if m.budget > 0 && Compound(s) {
      CompoundSound(o, s, scope, m, r, ps);
    } else if ps != [] {
      FirstMeans(o, ps);
    }
    hide Means;
    assert r == Exec(o, s, scope, m);
  }

  lemma RuleSound(o: Oracle, g: Goal, r: Executed, ps: seq<Conclusion>)
    requires Rule(o, g, r, ps) && Means(o, ps)
    ensures r == Meaning(o, g)
  {
    hide Meaning;
    hide Means;
    match g
    case EvaluateGoal(m) => EvaluateSound(o, m, r, ps);
    case CallGoal(f, arguments, m) => CallSound(o, f, arguments, m, r, ps);
    case BodyGoal(list, env, m) => BodySound(o, list, env, m, r, ps);
    case BlockGoal(list, bindings, scope, m) => BlockSound(o, list, bindings, scope, m, r, ps);
    case ListGoal(list, scope, m, value) => ListSound(o, list, scope, m, value, r, ps);
    case StatementGoal(s, scope, m) => StatementSound(o, s, scope, m, r, ps);
    case InitializeGoal(declarators, env, m) => InitializeSound(o, declarators, env, m, r, ps);
    case AssignGoal(declarators, env, m) => AssignSound(o, declarators, env, m, r, ps);
    case LoopGoal(_, _, _, _, _, _, _) => LoopSound(o, g, r, ps);
    case DoGoal(body, scope, m, value) => DoSound(o, body, scope, m, value, r, ps);
    case CatchGoal(handler, thrown, scope, m) => CatchSound(o, handler, thrown, scope, m, r, ps);
  }

  /** Whatever is derived is what the interpreter does. */
  lemma {:induction false} DerivationsAreSound(o: Oracle, d: Derivation)
    requires Valid(o, d)
    ensures d.conclusion.answer == Meaning(o, d.conclusion.goal)
    decreases d
  {
    hide Meaning;
    hide Rule;
    var ps := Conclusions(d.premises);
    forall i | 0 <= i < |ps|
      ensures ps[i].answer == Meaning(o, ps[i].goal)
    {
      DerivationsAreSound(o, d.premises[i]);
    }
    RuleSound(o, d.conclusion.goal, d.conclusion.answer, ps);
  }

  // ---- whatever the interpreter does can be derived ------------------------------------------------

  predicate AllValid(o: Oracle, ds: seq<Derivation>) {
    forall i :: 0 <= i < |ds| ==> Valid(o, ds[i])
  }

  /** A derivation of what the interpreter makes of the goal. */
  predicate Shows(o: Oracle, d: Derivation, g: Goal) {
    Valid(o, d) && d.conclusion == Conclusion(g, Meaning(o, g))
  }

  lemma Conclude(o: Oracle, g: Goal, ds: seq<Derivation>) returns (d: Derivation)
    requires AllValid(o, ds) && Rule(o, g, Meaning(o, g), Conclusions(ds))
    ensures Shows(o, d, g)
  {
    hide Rule;
    hide Meaning;
    d := Derivation(Conclusion(g, Meaning(o, g)), ds);
  }

  lemma NoPremises(o: Oracle)
    ensures AllValid(o, []) && Conclusions([]) == []
  {
  }

  /** One premise in front of others. */
  lemma FirstPremise(o: Oracle, d: Derivation, ds: seq<Derivation>)
    requires Valid(o, d) && AllValid(o, ds)
    ensures AllValid(o, [d] + ds) && Conclusions([d] + ds) == [d.conclusion] + Conclusions(ds)
    ensures Conclusions([d] + ds)[0] == d.conclusion && Conclusions([d] + ds)[1..] == Conclusions(ds)
    ensures AllValid(o, [d]) && Conclusions([d]) == [d.conclusion]
  {
    hide Valid;
  }

  lemma {:induction false} DeriveEvaluate(o: Oracle, m: Machine) returns (d: Derivation)
    ensures Shows(o, d, EvaluateGoal(m))
    decreases m.budget, 0, 0
  {
    hide Shows;
    hide Valid;
    var ds: seq<Derivation> := [];
    NoPremises(o);
    if m.budget > 0 {
      var t := m.(budget := m.budget - 1, asked := m.asked + 1);
      match o.action(m.asked) {
        case AssignBinding(env, name, value) =>
          if Assignable(t, env, name) {
            var next := DeriveEvaluate(o, Assigned(t, env, name, value));
            ds := OnePremise(o, next, EvaluateGoal(Assigned(t, env, name, value)));
          }
        case NameFunction(name, closure) =>
          var b := CreateInitialized(map[], name, LexicalKind, false, closure).value;
          var next := DeriveEvaluate(o, WithNewEnv(t, b));
          ds := OnePremise(o, next, EvaluateGoal(WithNewEnv(t, b)));
        case CallFunction(f, arguments) =>
          var call := DeriveCall(o, f, arguments, t);
          ds := OnePremise(o, call, CallGoal(f, arguments, t));
          var r := Call(o, f, arguments, t);
          if r.outcome.Gives? {
            var next := DeriveEvaluate(o, r.machine);
            ds := TwoPremises(o, call, CallGoal(f, arguments, t), next, EvaluateGoal(r.machine));
          }
        case _ =>
      }
    }
    hide Call;
    assert EvaluateRule(o, m, Lift(Evaluate(o, m)), Conclusions(ds));
    d := Conclude(o, EvaluateGoal(m), ds);
  }

  lemma OnePremise(o: Oracle, d: Derivation, g: Goal) returns (ds: seq<Derivation>)
    requires Shows(o, d, g)
    ensures ds == [d] && AllValid(o, ds) && Conclusions(ds) == [Conclusion(g, Meaning(o, g))]
  {
    hide Meaning;
    hide Valid;
    ds := [d];
  }

  lemma TwoPremises(o: Oracle, d: Derivation, g: Goal, e: Derivation, h: Goal) returns (ds: seq<Derivation>)
    requires Shows(o, d, g) && Shows(o, e, h)
    ensures ds == [d, e] && AllValid(o, ds)
    ensures Conclusions(ds) == [Conclusion(g, Meaning(o, g)), Conclusion(h, Meaning(o, h))]
    ensures Conclusions(ds)[1..] == [Conclusion(h, Meaning(o, h))]
  {
    hide Meaning;
    hide Valid;
    ds := [d, e];
  }

  lemma {:induction false} DeriveCall(o: Oracle, f: Function, arguments: seq<RawValue>, m: Machine)
    returns (d: Derivation)
    ensures Shows(o, d, CallGoal(f, arguments, m))
    decreases m.budget, 5, 0
  {
    hide Shows;
    hide Valid;
    hide BindParameters;
    var ds: seq<Derivation> := [];
    NoPremises(o);
    if m.budget > 0 {
      var t := m.(budget := m.budget - 1);
      match BindParameters(map[], f.parameters, arguments) {
        case Err(_) =>
        case Ok(b) =>
          var body := DeriveBody(o, f.body, |t.envs|, WithNewEnv(t, b));
          ds := OnePremise(o, body, BodyGoal(f.body, |t.envs|, WithNewEnv(t, b)));
      }
    }
    hide RunBody;
    assert CallRule(f, arguments, m, Lift(Call(o, f, arguments, m)), Conclusions(ds));
    d := Conclude(o, CallGoal(f, arguments, m), ds);
  }

  lemma {:induction false} DeriveBody(o: Oracle, list: seq<Statement>, env: nat, m: Machine) returns (d: Derivation)
    requires env < |m.envs|
    ensures Shows(o, d, BodyGoal(list, env, m))
    decreases m.budget, 4, 0
  {
    hide Shows;
    hide Valid;
    hide InstantiateBody;
    var ds: seq<Derivation> := [];
    NoPremises(o);
    match InstantiateBody(m.envs[env], list, o.closures) {
      case Err(_) =>
      case Ok(b) =>
        var next := DeriveList(o, list, Scope(env, env), WithEnv(m, env, b), None);
        ds := OnePremise(o, next, ListGoal(list, Scope(env, env), WithEnv(m, env, b), None));
    }
    hide ExecList;
    assert BodyRule(o, list, env, m, RunBody(o, list, env, m), Conclusions(ds));
    d := Conclude(o, BodyGoal(list, env, m), ds);
  }

  lemma {:induction false} DeriveBlock(o: Oracle, list: seq<Statement>, bindings: Bindings, scope: Scope, m: Machine)
    returns (d: Derivation)
    ensures Shows(o, d, BlockGoal(list, bindings, scope, m))
    decreases m.budget, 4, 0
  {
    hide Shows;
    hide Valid;
    hide InstantiateBlock;
    var ds: seq<Derivation> := [];
    NoPremises(o);
    match InstantiateBlock(bindings, list, o.closures) {
      case Err(_) =>
      case Ok(b) =>
        var inner := Scope(|m.envs|, scope.variable);
        var next := DeriveList(o, list, inner, WithNewEnv(m, b), None);
        ds := OnePremise(o, next, ListGoal(list, inner, WithNewEnv(m, b), None));
    }
    hide ExecList;
    assert BlockRule(o, list, bindings, scope, m, RunBlock(o, list, bindings, scope, m), Conclusions(ds));
    d := Conclude(o, BlockGoal(list, bindings, scope, m), ds);
  }

  lemma {:induction false} DeriveList(o: Oracle, list: seq<Statement>, scope: Scope, m: Machine,
                                      value: Option<RawValue>)
    returns (d: Derivation)
    ensures Shows(o, d, ListGoal(list, scope, m, value))
    decreases m.budget, 3, |list|
  {
    hide Shows;
    hide Valid;
    var ds: seq<Derivation> := [];
    NoPremises(o);
    if list != [] {
      var first := DeriveStatement(o, list[0], scope, m);
      ds := OnePremise(o, first, StatementGoal(list[0], scope, m));
      var r := Exec(o, list[0], scope, m);
      if r.outcome.Gives? && r.outcome.value.Normal? {
        LatestIsOr(r.outcome.value.value, value);
        var more := Latest(r.outcome.value.value, value);
        var next := DeriveList(o, list[1..], scope, r.machine, more);
        ds := TwoPremises(o, first, StatementGoal(list[0], scope, m), next,
                          ListGoal(list[1..], scope, r.machine, more));
      }
    }
    hide Exec;
    assert ListRule(list, scope, m, value, ExecList(o, list, scope, m, value), Conclusions(ds));
    d := Conclude(o, ListGoal(list, scope, m, value), ds);
  }

  lemma {:induction false} DeriveCatch(o: Oracle, handler: CatchClause, thrown: Thrown, scope: Scope, m: Machine)
    returns (d: Derivation)
    ensures Shows(o, d, CatchGoal(handler, thrown, scope, m))
    decreases m.budget, 5, 0
  {
    hide RunBlock;
    hide Shows;
    hide Valid;
    var ds: seq<Derivation> := [];
    NoPremises(o);
    var value := CatchValue(o, thrown, m);
    if handler.body.Block? && (handler.parameter.None? || value.Some?) {
      var b: Bindings := if handler.parameter.None? then map[]
                         else CatchBindings(handler.parameter.value, value.value).value;
      var next := DeriveBlock(o, handler.body.statements, b, scope, m);
      ds := OnePremise(o, next, BlockGoal(handler.body.statements, b, scope, m));
    }
    assert CatchRule(o, handler, thrown, scope, m, Handle(o, handler, thrown, scope, m), Conclusions(ds));
    d := Conclude(o, CatchGoal(handler, thrown, scope, m), ds);
  }

  lemma {:induction false} DeriveInitialize(o: Oracle, declarators: seq<Declarator>, env: nat, m: Machine)
    returns (d: Derivation)
    ensures Shows(o, d, InitializeGoal(declarators, env, m))
    decreases m.budget, 1, |declarators|
  {
    hide Shows;
    hide Valid;
    var ds: seq<Derivation> := [];
    NoPremises(o);
    if declarators != [] {
      var e := InitialValue(o, declarators[0], m);
      if e.outcome.Gives? {
        ds := InitializePremises(o, declarators, env, m, e);
      }
      if declarators[0].hasInitializer {
        var first := DeriveEvaluate(o, m);
        FirstPremiseShows(o, first, EvaluateGoal(m), ds);
        ds := [first] + ds;
      }
    }
    hide Evaluate;
    hide InitializeOneRule;
    assert InitializeRule(declarators, env, m, InitializeAll(o, declarators, env, m), Conclusions(ds));
    d := Conclude(o, InitializeGoal(declarators, env, m), ds);
  }

  lemma FirstPremiseShows(o: Oracle, d: Derivation, g: Goal, ds: seq<Derivation>)
    requires Shows(o, d, g) && AllValid(o, ds)
    ensures AllValid(o, [d] + ds) && Conclusions([d] + ds) == [Conclusion(g, Meaning(o, g))] + Conclusions(ds)
    ensures Conclusions([d] + ds)[1..] == Conclusions(ds)
  {
    hide Meaning;
    FirstPremise(o, d, ds);
  }

  lemma {:induction false} InitializePremises(o: Oracle, declarators: seq<Declarator>, env: nat, m: Machine,
                                              e: Evaluated)
    returns (ds: seq<Derivation>)
    requires declarators != [] && e == InitialValue(o, declarators[0], m) && e.outcome.Gives?
    ensures AllValid(o, ds)
    ensures InitializeOneRule(declarators, env, e.machine, e.outcome.value, InitializeAll(o, declarators, env, m),
                              Conclusions(ds))
    decreases m.budget, 1, |declarators|, 0
  {
    hide Shows;
    hide Valid;
    hide InitialValue;
    ds := [];
    NoPremises(o);
    var name := declarators[0].name;
    if env < |e.machine.envs| && name in e.machine.envs[env] && e.machine.envs[env][name].state.Uninitialized? {
      var b := InitializeBinding(e.machine.envs[env], name, e.outcome.value).value;
      var next := DeriveInitialize(o, declarators[1..], env, WithEnv(e.machine, env, b));
      ds := OnePremise(o, next, InitializeGoal(declarators[1..], env, WithEnv(e.machine, env, b)));
      assert WithEnv(e.machine, env, b) == Bind(e.machine, env, name, e.outcome.value);
    }
  }

  lemma {:induction false} DeriveAssign(o: Oracle, declarators: seq<Declarator>, env: nat, m: Machine)
    returns (d: Derivation)
    ensures Shows(o, d, AssignGoal(declarators, env, m))
    decreases m.budget, 1, |declarators|
  {
    hide Shows;
    hide Valid;
    var ds: seq<Derivation> := [];
    NoPremises(o);
    if declarators != [] {
      if !declarators[0].hasInitializer {
        var next := DeriveAssign(o, declarators[1..], env, m);
        ds := OnePremise(o, next, AssignGoal(declarators[1..], env, m));
      } else {
        var e, name := Evaluate(o, m), declarators[0].name;
        var first := DeriveEvaluate(o, m);
        if e.outcome.Gives? && env < |e.machine.envs| && name in e.machine.envs[env]
           && e.machine.envs[env][name].kind.VariableKind?
        {
          var b := SetVariableBinding(e.machine.envs[env], name, e.outcome.value).value;
          var next := DeriveAssign(o, declarators[1..], env, WithEnv(e.machine, env, b));
          ds := OnePremise(o, next, AssignGoal(declarators[1..], env, WithEnv(e.machine, env, b)));
          assert WithEnv(e.machine, env, b) == Bind(e.machine, env, name, e.outcome.value);
        }
        FirstPremiseShows(o, first, EvaluateGoal(m), ds);
        ds := [first] + ds;
      }
    }
    hide Evaluate;
    assert AssignRule(declarators, env, m, SetAll(o, declarators, env, m), Conclusions(ds));
    d := Conclude(o, AssignGoal(declarators, env, m), ds);
  }

  lemma {:induction false} DeriveDo(o: Oracle, body: Statement, scope: Scope, m: Machine, value: Option<RawValue>)
    returns (d: Derivation)
    ensures Shows(o, d, DoGoal(body, scope, m, value))
    decreases m.budget, 3, 0
  {
    hide Evaluate;
    hide DoTestRule;
    hide Exec;
    hide Shows;
    hide Valid;
    var ds: seq<Derivation> := [];
    NoPremises(o);
    var first := DeriveStatement(o, body, scope, m);
    var a := Exec(o, body, scope, m);
    if a.outcome.Gives? && (a.outcome.value.Normal? || a.outcome.value.Continued?) {
      LatestIsOr(a.outcome.value.value, value);
      ds := DoTestPremises(o, body, scope, a.machine, Latest(a.outcome.value.value, value));
    } else if a.outcome.Gives? && a.outcome.value.Broke? {
      LatestIsOr(a.outcome.value.value, value);
    }
    FirstPremiseShows(o, first, StatementGoal(body, scope, m), ds);
    ds := [first] + ds;
    assert DoRule(o, body, scope, m, value, LoopDo(o, body, scope, m, value), Conclusions(ds));
    d := Conclude(o, DoGoal(body, scope, m, value), ds);
  }

  /** What a do-while loop makes of its test. */
  function AfterTest(o: Oracle, body: Statement, scope: Scope, m: Machine, value: Option<RawValue>): Executed {
    var e := Evaluate(o, m);
    if !e.outcome.Gives? then Ran(e.machine, Abort(e.outcome))
    else if !o.truthy(e.outcome.value) then Ran(e.machine, Gives(Normal(value)))
    else LoopDo(o, body, scope, e.machine, value)
  }

  lemma AfterTestFollows(o: Oracle, body: Statement, scope: Scope, m: Machine, value: Option<RawValue>,
                         ps: seq<Conclusion>)
    requires |ps| > 0 && ps[0] == Conclusion(EvaluateGoal(m), Lift(Evaluate(o, m)))
    requires var e := Evaluate(o, m);
             ps[1..] == if !e.outcome.Gives? || !o.truthy(e.outcome.value) then []
                        else [Conclusion(DoGoal(body, scope, e.machine, value),
                                         LoopDo(o, body, scope, e.machine, value))]
    ensures DoTestRule(o, body, scope, m, value, AfterTest(o, body, scope, m, value), ps)
  {
    hide Evaluate;
    hide LoopDo;
    assert DoTestRule(o, body, scope, m, value, AfterTest(o, body, scope, m, value), ps);
  }

  lemma {:induction false} DoTestPremises(o: Oracle, body: Statement, scope: Scope, m: Machine,
                                          value: Option<RawValue>)
    returns (ds: seq<Derivation>)
    ensures AllValid(o, ds)
    ensures DoTestRule(o, body, scope, m, value, AfterTest(o, body, scope, m, value), Conclusions(ds))
    decreases m.budget, 4, 0
  {
    hide Shows;
    hide Valid;
    hide Evaluate;
    hide LoopDo;
    hide DoTestRule;
    hide AfterTest;
    var test := DeriveEvaluate(o, m);
    var e := Evaluate(o, m);
    assert Meaning(o, EvaluateGoal(m)) == Lift(e);
    assert Meaning(o, DoGoal(body, scope, e.machine, value)) == LoopDo(o, body, scope, e.machine, value);
    hide Meaning;
    hide Lift;
    if e.outcome.Gives? && o.truthy(e.outcome.value) {
      var next := DeriveDo(o, body, scope, e.machine, value);
      ds := TwoPremises(o, test, EvaluateGoal(m), next, DoGoal(body, scope, e.machine, value));
    } else {
      ds := OnePremise(o, test, EvaluateGoal(m));
      assert Conclusions(ds)[1..] == [];
    }
    AfterTestFollows(o, body, scope, m, value, Conclusions(ds));
  }

  lemma {:induction false} DeriveLoop(o: Oracle, g: Goal) returns (d: Derivation)
    requires g.LoopGoal?
    ensures Shows(o, d, g)
    decreases g.m.budget, 4, 0
  {
    hide Shows;
    hide Valid;
    var ds: seq<Derivation> := [];
    NoPremises(o);
    var test := LoopTest(o, g.hasTest, g.m);
    if test.outcome.Gives? && !(g.hasTest && !o.truthy(test.outcome.value)) {
      ds := TurnPremises(o, g, test.machine);
    }
    if g.hasTest {
      var first := DeriveEvaluate(o, g.m);
      FirstPremiseShows(o, first, EvaluateGoal(g.m), ds);
      ds := [first] + ds;
    }
    hide Evaluate;
    hide LoopTurn;
    hide TurnRule;
    var r := LoopFor(o, g.hasTest, g.hasUpdate, g.body, g.names, g.scope, g.m, g.value);
    assert LoopRule(o, g, r, Conclusions(ds));
    d := Conclude(o, g, ds);
  }

  lemma {:induction false} TurnPremises(o: Oracle, g: Goal, m: Machine) returns (ds: seq<Derivation>)
    requires g.LoopGoal?
    ensures AllValid(o, ds)
    ensures TurnRule(g, m, LoopTurn(o, g.hasTest, g.hasUpdate, g.body, g.names, g.scope, m, g.value), Conclusions(ds))
    decreases m.budget, 3, 0
  {
    hide Shows;
    hide Valid;
    ds := [];
    NoPremises(o);
    var first := DeriveStatement(o, g.body, g.scope, m);
    var a := Exec(o, g.body, g.scope, m);
    if a.outcome.Gives? && !a.outcome.value.Returned? {
      LatestIsOr(a.outcome.value.value, g.value);
      if !a.outcome.value.Broke? {
        ds := NextPremises(o, g, a.machine, Latest(a.outcome.value.value, g.value));
      }
    }
    FirstPremiseShows(o, first, StatementGoal(g.body, g.scope, m), ds);
    ds := [first] + ds;
    hide Exec;
    hide NextTurn;
    hide NextRule;
    assert TurnRule(g, m, LoopTurn(o, g.hasTest, g.hasUpdate, g.body, g.names, g.scope, m, g.value), Conclusions(ds));
  }

  lemma {:induction false} NextPremises(o: Oracle, g: Goal, m: Machine, value: Option<RawValue>)
    returns (ds: seq<Derivation>)
    requires g.LoopGoal?
    ensures AllValid(o, ds)
    ensures NextRule(g, m, value, NextTurn(o, g.hasTest, g.hasUpdate, g.body, g.names, g.scope, m, value),
                     Conclusions(ds))
    decreases m.budget, 5, 0
  {
    hide Shows;
    hide Valid;
    hide Freshen;
    ds := [];
    NoPremises(o);
    var start := if g.names.Some? then Freshen(m, g.scope, g.names.value) else Ok((m, g.scope));
    var turn := Prepare(o, g.hasUpdate, g.names, g.scope, m);
    match start {
      case Err(_) =>
      case Ok(pair) =>
        var update := LoopTest(o, g.hasUpdate, pair.0);
        if update.outcome.Gives? {
          assert turn == Ran(update.machine, Gives(pair.1));
          var next := DeriveLoop(o, AgainGoal(g, pair.1, update.machine, value));
          ds := OnePremise(o, next, AgainGoal(g, pair.1, update.machine, value));
        }
        if g.hasUpdate {
          var first := DeriveEvaluate(o, pair.0);
          FirstPremiseShows(o, first, EvaluateGoal(pair.0), ds);
          ds := [first] + ds;
        }
    }
    hide Evaluate;
    hide LoopFor;
    assert NextRule(g, m, value, NextTurn(o, g.hasTest, g.hasUpdate, g.body, g.names, g.scope, m, value),
                    Conclusions(ds));
  }

  lemma {:induction false} LexicalForPremises(o: Oracle, s: Statement, mutable: bool, lexicals: seq<Declarator>,
                                              scope: Scope, m: Machine)
    returns (ds: seq<Derivation>)
    requires s.For?
    ensures AllValid(o, ds)
    ensures LexicalForRule(s, mutable, lexicals, scope, m, LexicalFor(o, s, mutable, lexicals, scope, m),
                           Conclusions(ds))
    decreases m.budget, 5, 0
  {
    hide Shows;
    hide Valid;
    hide Freshen;
    hide InstantiateLoop;
    ds := [];
    NoPremises(o);
    match InstantiateLoop(map[], mutable, Names(lexicals)) {
      case Err(_) =>
      case Ok(b) =>
        var inner := Scope(|m.envs|, scope.variable);
        var head := InitializeAll(o, lexicals, inner.lexical, WithNewEnv(m, b));
        InitializationIsNormal(o, lexicals, inner.lexical, WithNewEnv(m, b));
        var first := DeriveInitialize(o, lexicals, inner.lexical, WithNewEnv(m, b));
        if head.outcome.Gives? {
          if !mutable {
            var next := DeriveLoop(o, ForLoop(s, None, inner, head.machine));
            ds := OnePremise(o, next, ForLoop(s, None, inner, head.machine));
          } else {
            match Freshen(head.machine, inner, Names(lexicals)) {
              case Err(_) =>
              case Ok(pair) =>
                var next := DeriveLoop(o, ForLoop(s, Some(Names(lexicals)), pair.1, pair.0));
                ds := OnePremise(o, next, ForLoop(s, Some(Names(lexicals)), pair.1, pair.0));
            }
          }
        }
        FirstPremiseShows(o, first, InitializeGoal(lexicals, inner.lexical, WithNewEnv(m, b)), ds);
        ds := [first] + ds;
    }
    hide InitializeAll;
    hide LoopFor;
    assert LexicalForRule(s, mutable, lexicals, scope, m, LexicalFor(o, s, mutable, lexicals, scope, m),
                          Conclusions(ds));
  }

  lemma {:induction false} ForPremises(o: Oracle, s: Statement, scope: Scope, m: Machine) returns (ds: seq<Derivation>)
    requires s.For?
    ensures AllValid(o, ds) && ForRule(s, scope, m, ExecFor(o, s, scope, m), Conclusions(ds))
    decreases m.budget, 6, 0
  {
    hide Shows;
    hide Valid;
    ds := [];
    NoPremises(o);
    match s.initializer {
      case NoInitializer =>
        var next := DeriveLoop(o, ForLoop(s, None, scope, m));
        ds := OnePremise(o, next, ForLoop(s, None, scope, m));
      case ExpressionInitializer =>
        var e := Evaluate(o, m);
        var first := DeriveEvaluate(o, m);
        if e.outcome.Gives? {
          var next := DeriveLoop(o, ForLoop(s, None, scope, e.machine));
          ds := OnePremise(o, next, ForLoop(s, None, scope, e.machine));
        }
        FirstPremiseShows(o, first, EvaluateGoal(m), ds);
        ds := [first] + ds;
      case VariableInitializer(variables) =>
        var e := SetAll(o, variables, scope.variable, m);
        AssignmentIsNormal(o, variables, scope.variable, m);
        var first := DeriveAssign(o, variables, scope.variable, m);
        if e.outcome.Gives? {
          var next := DeriveLoop(o, ForLoop(s, None, scope, e.machine));
          ds := OnePremise(o, next, ForLoop(s, None, scope, e.machine));
        }
        FirstPremiseShows(o, first, AssignGoal(variables, scope.variable, m), ds);
        ds := [first] + ds;
      case LexicalInitializer(mutable, lexicals) =>
        ds := LexicalForPremises(o, s, mutable, lexicals, scope, m);
    }
    hide Evaluate;
    hide SetAll;
    hide LoopFor;
    hide LexicalFor;
    hide LexicalForRule;
    assert ForRule(s, scope, m, ExecFor(o, s, scope, m), Conclusions(ds));
  }

  lemma {:induction false} IfPremises(o: Oracle, s: Statement, scope: Scope, m: Machine) returns (ds: seq<Derivation>)
    requires s.If?
    ensures AllValid(o, ds) && IfRule(o, s.consequent, s.alternate, scope, m, ExecIf(o, s, scope, m), Conclusions(ds))
    decreases m.budget, 6, 0
  {
    hide Shows;
    hide Valid;
    var e := Evaluate(o, m);
    var test := DeriveEvaluate(o, m);
    ds := OnePremise(o, test, EvaluateGoal(m));
    if e.outcome.Gives? && (o.truthy(e.outcome.value) || s.alternate.Some?) {
      var branch := if o.truthy(e.outcome.value) then s.consequent else s.alternate.value;
      var next := DeriveStatement(o, branch, scope, e.machine);
      ds := TwoPremises(o, test, EvaluateGoal(m), next, StatementGoal(branch, scope, e.machine));
    }
    hide Evaluate;
    hide Exec;
    assert IfRule(o, s.consequent, s.alternate, scope, m, ExecIf(o, s, scope, m), Conclusions(ds));
  }

  lemma {:induction false} FinallyPremises(o: Oracle, s: Statement, scope: Scope, m: Machine)
    returns (ds: seq<Derivation>)
    requires s.Try?
    ensures AllValid(o, ds) && FinallyRule(s, scope, Tried(o, s, scope, m), ExecTry(o, s, scope, m), Conclusions(ds))
    decreases m.budget, 6, 0
  {
    hide Shows;
    hide Valid;
    hide Tried;
    ds := [];
    NoPremises(o);
    var sofar := Tried(o, s, scope, m);
    if s.finalizer.Some? && !sofar.outcome.Fails? {
      var last := DeriveStatement(o, s.finalizer.value, scope, sofar.machine);
      ds := OnePremise(o, last, StatementGoal(s.finalizer.value, scope, sofar.machine));
    }
    hide Exec;
    assert FinallyRule(s, scope, sofar, ExecTry(o, s, scope, m), Conclusions(ds));
  }

  lemma {:induction false} TryPremises(o: Oracle, s: Statement, scope: Scope, m: Machine) returns (ds: seq<Derivation>)
    requires s.Try?
    ensures AllValid(o, ds) && TryRule(s, scope, m, ExecTry(o, s, scope, m), Conclusions(ds))
    decreases m.budget, 7, 0
  {
    hide Shows;
    hide Valid;
    var rest := FinallyPremises(o, s, scope, m);
    ds := rest;
    var tried := Exec(o, s.body, scope, m);
    var first := DeriveStatement(o, s.body, scope, m);
    if tried.outcome.Throws? && s.handler.Some? {
      var caught := DeriveCatch(o, s.handler.value, tried.outcome.thrown, scope, tried.machine);
      FirstPremiseShows(o, caught, CatchGoal(s.handler.value, tried.outcome.thrown, scope, tried.machine), ds);
      ds := [caught] + ds;
    }
    FirstPremiseShows(o, first, StatementGoal(s.body, scope, m), ds);
    ds := [first] + ds;
    hide Exec;
    hide ExecTry;
    hide Handle;
    hide FinallyRule;
    assert tried.outcome.Throws? && s.handler.Some? ==> Conclusions(ds)[2..] == Conclusions(ds)[1..][1..];
    assert TryRule(s, scope, m, ExecTry(o, s, scope, m), Conclusions(ds));
  }

  lemma {:induction false} CompoundPremises(o: Oracle, s: Statement, scope: Scope, m: Machine)
    returns (ds: seq<Derivation>)
    requires Compound(s) && m.budget > 0
    ensures AllValid(o, ds) && StatementRule(o, s, scope, m, Exec(o, s, scope, m), Conclusions(ds))
    decreases m.budget, 1, 0
  {
    hide Shows;
    hide Valid;
    var t := m.(budget := m.budget - 1);
    assert t == Ticked(m);
    match s {
      case Block(statements) =>
        var next := DeriveBlock(o, statements, map[], scope, t);
        ds := OnePremise(o, next, BlockGoal(statements, map[], scope, t));
      case While(body) =>
        var next := DeriveLoop(o, LoopGoal(true, false, body, None, scope, t, Some(Undefined)));
        ds := OnePremise(o, next, LoopGoal(true, false, body, None, scope, t, Some(Undefined)));
      case DoWhile(body) =>
        var next := DeriveDo(o, body, scope, t, Some(Undefined));
        ds := OnePremise(o, next, DoGoal(body, scope, t, Some(Undefined)));
      case If(_, _) => ds := IfPremises(o, s, scope, t);
      case For(_, _, _, _) => ds := ForPremises(o, s, scope, t);
      case Try(_, _, _) => ds := TryPremises(o, s, scope, t);
    }
    hide RunBlock;
    hide LoopFor;
    hide LoopDo;
    hide ExecIf;
    hide ExecFor;
    hide ExecTry;
    hide IfRule;
    hide ForRule;
    hide TryRule;
    assert Exec(o, s, scope, m) == ExecCompound(o, s, scope, t);
    assert StatementRule(o, s, scope, m, Exec(o, s, scope, m), Conclusions(ds));
  }

  lemma {:induction false} SimplePremises(o: Oracle, s: Statement, scope: Scope, m: Machine)
    returns (ds: seq<Derivation>)
    requires !Compound(s) && m.budget > 0
    ensures AllValid(o, ds) && StatementRule(o, s, scope, m, Exec(o, s, scope, m), Conclusions(ds))
    decreases m.budget, 1, 0
  {
    hide Evaluate;
    hide InitializeAll;
    hide SetAll;
    hide Shows;
    hide Valid;
    ds := [];
    NoPremises(o);
    var t := m.(budget := m.budget - 1);
    assert t == Ticked(m);
    if s.ExpressionStatement? || s.Throw? || (s.Return? && s.hasValue) {
      var next := DeriveEvaluate(o, t);
      ds := OnePremise(o, next, EvaluateGoal(t));
    } else if s.LexicalDeclaration? {
      var next := DeriveInitialize(o, s.bindings, scope.lexical, t);
      ds := OnePremise(o, next, InitializeGoal(s.bindings, scope.lexical, t));
    } else if s.VariableDeclaration? {
      var next := DeriveAssign(o, s.bindings, scope.variable, t);
      ds := OnePremise(o, next, AssignGoal(s.bindings, scope.variable, t));
    }
    assert StatementRule(o, s, scope, m, Exec(o, s, scope, m), Conclusions(ds));
  }

  lemma {:induction false} DeriveStatement(o: Oracle, s: Statement, scope: Scope, m: Machine) returns (d: Derivation)
    ensures Shows(o, d, StatementGoal(s, scope, m))
    decreases m.budget, 2, 0
  {
    hide Shows;
    hide Valid;
    hide Exec;
    hide StatementRule;
    var ds: seq<Derivation> := [];
    if m.budget == 0 {
      NoPremises(o);
      NoBudget(o, s, scope, m);
    } else if Compound(s) {
      ds := CompoundPremises(o, s, scope, m);
    } else {
      ds := SimplePremises(o, s, scope, m);
    }
    d := Conclude(o, StatementGoal(s, scope, m), ds);
  }

  lemma NoBudget(o: Oracle, s: Statement, scope: Scope, m: Machine)
    requires m.budget == 0
    ensures StatementRule(o, s, scope, m, Exec(o, s, scope, m), [])
  {
  }

  // ---- the agreement -----------------------------------------------------------------------------------

  /** A statement has a derivation of an answer exactly when the interpreter gives that answer. */
  lemma StatementsAreDerivable(o: Oracle, s: Statement, scope: Scope, m: Machine, r: Executed)
    ensures Derivable(o, StatementGoal(s, scope, m), r) <==> Exec(o, s, scope, m) == r
  {
    hide Exec;
    hide Valid;
    if Derivable(o, StatementGoal(s, scope, m), r) {
      var d: Derivation :| Valid(o, d) && d.conclusion == Conclusion(StatementGoal(s, scope, m), r);
      DerivationsAreSound(o, d);
    }
    var d := DeriveStatement(o, s, scope, m);
  }

  /** The same for calls of functions. */
  lemma CallsAreDerivable(o: Oracle, f: Function, arguments: seq<RawValue>, m: Machine, r: Evaluated)
    ensures Derivable(o, CallGoal(f, arguments, m), Lift(r)) <==> Call(o, f, arguments, m) == r
  {
    hide Call;
    hide Valid;
    if Derivable(o, CallGoal(f, arguments, m), Lift(r)) {
      var d: Derivation :| Valid(o, d) && d.conclusion == Conclusion(CallGoal(f, arguments, m), Lift(r));
      DerivationsAreSound(o, d);
    }
    var d := DeriveCall(o, f, arguments, m);
  }

  /** And for function bodies and scripts. */
  lemma BodiesAreDerivable(o: Oracle, list: seq<Statement>, env: nat, m: Machine, r: Executed)
    requires env < |m.envs|
    ensures Derivable(o, BodyGoal(list, env, m), r) <==> RunBody(o, list, env, m) == r
  {
    hide RunBody;
    hide Valid;
    if Derivable(o, BodyGoal(list, env, m), r) {
      var d: Derivation :| Valid(o, d) && d.conclusion == Conclusion(BodyGoal(list, env, m), r);
      DerivationsAreSound(o, d);
    }
    var d := DeriveBody(o, list, env, m);
  }

  /** A script's result is its body's, as far as that completes normally or throws. */
  lemma ScriptsAreDerivable(o: Oracle, list: seq<Statement>, global: nat, m: Machine, r: Executed)
    requires global < |m.envs| && (IsNormal(r) || r.outcome.Throws?)
    ensures Derivable(o, BodyGoal(list, global, m), r) <==> RunScript(o, list, global, m) == r
  {
    BodiesAreDerivable(o, list, global, m, r);
    hide RunBody;
    hide Derivable;
  }

  // ---- laws of `try` -----------------------------------------------------------------------------------------

  /** A finally block that completes normally leaves the rest of the statement its outcome; any other replaces it. */
  lemma FinallyKeepsOrReplaces(o: Oracle, s: Statement, scope: Scope, m: Machine)
    requires s.Try? && s.finalizer.Some? && m.budget > 0
    ensures var without := Exec(o, s.(finalizer := None), scope, m);
            var last := Exec(o, s.finalizer.value, scope, without.machine);
            !without.outcome.Fails? ==>
              Exec(o, s, scope, m) == if IsNormal(last) then Ran(last.machine, without.outcome) else last
  {
    var t, plain := m.(budget := m.budget - 1), s.(finalizer := None);
    assert Exec(o, s, scope, m) == ExecTry(o, s, scope, t);
    assert Exec(o, plain, scope, m) == ExecTry(o, plain, scope, t) == Tried(o, s, scope, t);
  }

  /** A catch clause changes nothing unless the block throws. */
  lemma CatchOnlyWhenThrown(o: Oracle, s: Statement, scope: Scope, m: Machine)
    requires s.Try? && m.budget > 0
    requires !Exec(o, s.body, scope, m.(budget := m.budget - 1)).outcome.Throws?
    ensures Exec(o, s, scope, m) == Exec(o, s.(handler := None), scope, m)
  {
    var t, plain := m.(budget := m.budget - 1), s.(handler := None);
    assert Exec(o, s, scope, m) == ExecTry(o, s, scope, t);
    assert Exec(o, plain, scope, m) == ExecTry(o, plain, scope, t);
    assert Tried(o, s, scope, t) == Tried(o, plain, scope, t);
  }

  /** With neither clause the statement is its block, one step later. */
  lemma TryAloneIsItsBlock(o: Oracle, s: Statement, scope: Scope, m: Machine)
    requires s.Try? && s.handler.None? && s.finalizer.None? && m.budget > 0
    ensures Exec(o, s, scope, m) == Exec(o, s.body, scope, m.(budget := m.budget - 1))
  {
    var t := m.(budget := m.budget - 1);
    assert Exec(o, s, scope, m) == ExecTry(o, s, scope, t) == Tried(o, s, scope, t);
    assert Tried(o, s, scope, t) == Exec(o, s.body, scope, t);
  }
}
