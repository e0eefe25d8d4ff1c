/**
 The meaning of statements as inference rules, one for each kind of statement and expression step, after the
 evaluation semantics of sections 13 to 15 of ECMA-262. A run is a tree of rules; nothing here computes.
 */
module ScriptRules {
  import opened Outcomes
  import opened HeapRecords
  import opened ScriptSyntax
  import opened ScriptMachine
  import opened Interpreter

  /** What is to be evaluated, and the machine it starts in. */
  datatype Goal =
    | EvaluateGoal(m: Machine)
    | CallGoal(f: Function, arguments: seq<RawValue>, m: Machine)
    | BodyGoal(list: seq<Statement>, env: nat, m: Machine)
    | BlockGoal(list: seq<Statement>, bindings: Bindings, scope: Scope, m: Machine)
    | ListGoal(list: seq<Statement>, scope: Scope, m: Machine, value: Option<RawValue>)
    | StatementGoal(s: Statement, scope: Scope, m: Machine)
    | InitializeGoal(declarators: seq<Declarator>, env: nat, m: Machine)
    | AssignGoal(declarators: seq<Declarator>, env: nat, m: Machine)
    | LoopGoal(hasTest: bool, hasUpdate: bool, body: Statement, names: Option<seq<string>>, scope: Scope, m: Machine,
               value: Option<RawValue>)
    | DoGoal(body: Statement, scope: Scope, m: Machine, value: Option<RawValue>)
    | CatchGoal(handler: CatchClause, thrown: Thrown, scope: Scope, m: Machine)

  /** A goal and the machine and completion it ends in; the value of an expression is a normal completion's. */
  datatype Conclusion = Conclusion(goal: Goal, answer: Executed)

  datatype Derivation = Derivation(conclusion: Conclusion, premises: seq<Derivation>)

  // ---- completions ----------------------------------------------------------------------------------

  predicate IsNormal(r: Executed) {
    r.outcome.Gives? && r.outcome.value.Normal?
  }

  /** A normal completion that carries a value, as every expression's does. */
  predicate HasValue(r: Executed) {
    IsNormal(r) && r.outcome.value.value.Some?
  }

  function ValueOf(r: Executed): RawValue
    requires HasValue(r)
  {
    r.outcome.value.value.value
  }

  function Completes(m: Machine, value: Option<RawValue>): Executed {
    Ran(m, Gives(Normal(value)))
  }

  function Raises(m: Machine): Executed {
    Ran(m, Throws(RuntimeError))
  }

  /** The later value, if there is one. */
  function Latest(later: Option<RawValue>, earlier: Option<RawValue>): Option<RawValue> {
    match later
    case Some(_) => later
    case None => earlier
  }

  function Ticked(m: Machine): Machine
    requires m.budget > 0
  {
    Machine(m.envs, m.asked, m.budget - 1)
  }

  function Bind(m: Machine, env: nat, name: string, value: RawValue): Machine
    requires env < |m.envs| && name in m.envs[env]
  {
    var was := m.envs[env][name];
    Machine(m.envs[env := m.envs[env][name := Binding(was.kind, was.mutable, Initialized(value))]], m.asked, m.budget)
  }

  // ---- expressions and calls ------------------------------------------------------------------------

  predicate EvaluateRule(o: Oracle, m: Machine, r: Executed, ps: seq<Conclusion>) {
    if m.budget == 0 then ps == [] && r == Raises(m)
    else
      var t := Machine(m.envs, m.asked + 1, m.budget - 1);
      match o.action(m.asked)
      case Give(value) => ps == [] && r == Completes(t, Some(value))
      case Raise(value) => ps == [] && r == Ran(t, Throws(ThrownValue(value)))
      case AssignBinding(env, name, value) =>
        if env < |t.envs| && name in t.envs[env] && t.envs[env][name].mutable && t.envs[env][name].state.Initialized?
        then ps == [Conclusion(EvaluateGoal(Bind(t, env, name, value)), r)]
        else ps == [] && r == Raises(t)
      case NameFunction(name, closure) =>
        var own := map[name := Binding(LexicalKind, false, Initialized(closure))];
        ps == [Conclusion(EvaluateGoal(Machine(t.envs + [own], t.asked, t.budget)), r)]
      case CallFunction(f, arguments) =>
        && |ps| > 0 && ps[0].goal == CallGoal(f, arguments, t)
        && if ps[0].answer.outcome.Gives? then ps[1..] == [Conclusion(EvaluateGoal(ps[0].answer.machine), r)]
           else |ps| == 1 && r == ps[0].answer
  }

  /** A call gives what its body returns, undefined at the body's end, and an exception as it is. */
  predicate CallRule(f: Function, arguments: seq<RawValue>, m: Machine, r: Executed, ps: seq<Conclusion>) {
    if m.budget == 0 then ps == [] && r == Raises(m)
    else
      var t := Ticked(m);
      match BindParameters(map[], f.parameters, arguments)
      case Err(fault) => ps == [] && r == Ran(t, Fails(fault))
      case Ok(b) =>
        && |ps| == 1 && ps[0].goal == BodyGoal(f.body, |t.envs|, Machine(t.envs + [b], t.asked, t.budget))
        && var a := ps[0].answer;
           match a.outcome
           case Gives(Returned(value)) => r == Completes(a.machine, Some(value))
           case Gives(Normal(_)) => r == Completes(a.machine, Some(Undefined))
           case Gives(Broke(_)) => r == Ran(a.machine, Fails(LoopControlEscaped))
           case Gives(Continued(_)) => r == Ran(a.machine, Fails(LoopControlEscaped))
           case Throws(_) => r == a
           case Fails(_) => r == a
  }

  predicate BodyRule(o: Oracle, list: seq<Statement>, env: nat, m: Machine, r: Executed, ps: seq<Conclusion>) {
    && env < |m.envs|
    && match InstantiateBody(m.envs[env], list, o.closures)
       case Err(fault) => ps == [] && r == Ran(m, Fails(fault))
       case Ok(b) =>
         ps == [Conclusion(ListGoal(list, Scope(env, env), Machine(m.envs[env := b], m.asked, m.budget), None), r)]
  }

  predicate BlockRule(o: Oracle, list: seq<Statement>, bindings: Bindings, scope: Scope, m: Machine, r: Executed,
                      ps: seq<Conclusion>)
  {
    match InstantiateBlock(bindings, list, o.closures)
    case Err(fault) => ps == [] && r == Ran(m, Fails(fault))
    case Ok(b) =>
      var inner := Scope(|m.envs|, scope.variable);
      ps == [Conclusion(ListGoal(list, inner, Machine(m.envs + [b], m.asked, m.budget), None), r)]
  }

  // ---- lists ------------------------------------------------------------------------------------------

  /** The first statement that does not complete normally ends the list; the last value counts. */
  predicate ListRule(list: seq<Statement>, scope: Scope, m: Machine, value: Option<RawValue>, r: Executed,
                     ps: seq<Conclusion>)
  {
    if list == [] then ps == [] && r == Completes(m, value)
    else
      && |ps| > 0 && ps[0].goal == StatementGoal(list[0], scope, m)
      && var a := ps[0].answer;
         match a.outcome
         case Gives(Normal(next)) =>
           ps[1..] == [Conclusion(ListGoal(list[1..], scope, a.machine, Latest(next, value)), r)]
         case Gives(Broke(next)) => |ps| == 1 && r == Ran(a.machine, Gives(Broke(Latest(next, value))))
         case Gives(Continued(next)) => |ps| == 1 && r == Ran(a.machine, Gives(Continued(Latest(next, value))))
         case Gives(Returned(_)) => |ps| == 1 && r == a
         case Throws(_) => |ps| == 1 && r == a
         case Fails(_) => |ps| == 1 && r == a
  }

  // ---- declarations --------------------------------------------------------------------------------------

  /** A declarator gets its initializer's value, or undefined, in its own binding, which had none. */
  predicate InitializeRule(declarators: seq<Declarator>, env: nat, m: Machine, r: Executed, ps: seq<Conclusion>) {
    if declarators == [] then ps == [] && r == Completes(m, None)
    else
      var d := declarators[0];
      if d.hasInitializer then
        && |ps| > 0 && ps[0].goal == EvaluateGoal(m)
        && if HasValue(ps[0].answer)
           then InitializeOneRule(declarators, env, ps[0].answer.machine, ValueOf(ps[0].answer), r, ps[1..])
           else |ps| == 1 && r == ps[0].answer
      else InitializeOneRule(declarators, env, m, Undefined, r, ps)
  }

  predicate InitializeOneRule(declarators: seq<Declarator>, env: nat, m: Machine, value: RawValue, r: Executed,
                              ps: seq<Conclusion>)
    requires declarators != []
  {
    var name := declarators[0].name;
    if env >= |m.envs| then ps == [] && r == Ran(m, Fails(InvalidEnvironment))
    else if name !in m.envs[env] then ps == [] && r == Ran(m, Fails(NotInstantiated))
    else if m.envs[env][name].state.Initialized? then ps == [] && r == Ran(m, Fails(InitializedTwice))
    else ps == [Conclusion(InitializeGoal(declarators[1..], env, Bind(m, env, name, value)), r)]
  }

  /** A `var` with an initializer stores its value; one without does nothing. */
  predicate AssignRule(declarators: seq<Declarator>, env: nat, m: Machine, r: Executed, ps: seq<Conclusion>) {
    if declarators == [] then ps == [] && r == Completes(m, None)
    else if !declarators[0].hasInitializer then ps == [Conclusion(AssignGoal(declarators[1..], env, m), r)]
    else
      && |ps| > 0 && ps[0].goal == EvaluateGoal(m)
      && if HasValue(ps[0].answer)
         then AssignOneRule(declarators, env, ps[0].answer.machine, ValueOf(ps[0].answer), r, ps[1..])
         else |ps| == 1 && r == ps[0].answer
  }

  predicate AssignOneRule(declarators: seq<Declarator>, env: nat, m: Machine, value: RawValue, r: Executed,
                          ps: seq<Conclusion>)
    requires declarators != []
  {
    var name := declarators[0].name;
    if env >= |m.envs| then ps == [] && r == Ran(m, Fails(InvalidEnvironment))
    else if name !in m.envs[env] then ps == [] && r == Ran(m, Fails(MissingVariable))
    else if m.envs[env][name].kind != VariableKind then ps == [] && r == Ran(m, Fails(NotVariableScoped))
    else ps == [Conclusion(AssignGoal(declarators[1..], env, Bind(m, env, name, value)), r)]
  }

  // ---- loops ------------------------------------------------------------------------------------------------

  /** The test, if there is one, then a turn. */
  predicate LoopRule(o: Oracle, g: Goal, r: Executed, ps: seq<Conclusion>)
    requires g.LoopGoal?
  {
    if g.hasTest then
      && |ps| > 0 && ps[0].goal == EvaluateGoal(g.m)
      && var test := ps[0].answer;
         if !HasValue(test) then |ps| == 1 && r == test
         else if !o.truthy(ValueOf(test)) then |ps| == 1 && r == Completes(test.machine, g.value)
         else TurnRule(g, test.machine, r, ps[1..])
    else TurnRule(g, g.m, r, ps)
  }

  /** The body; `break` ends the loop normally, `continue` and the body's end go on, anything else leaves it. */
  predicate TurnRule(g: Goal, m: Machine, r: Executed, ps: seq<Conclusion>)
    requires g.LoopGoal?
  {
    && |ps| > 0 && ps[0].goal == StatementGoal(g.body, g.scope, m)
    && var a := ps[0].answer;
       match a.outcome
       case Gives(Normal(next)) => NextRule(g, a.machine, Latest(next, g.value), r, ps[1..])
       case Gives(Continued(next)) => NextRule(g, a.machine, Latest(next, g.value), r, ps[1..])
       case Gives(Broke(next)) => |ps| == 1 && r == Completes(a.machine, Latest(next, g.value))
       case Gives(Returned(_)) => |ps| == 1 && r == a
       case Throws(_) => |ps| == 1 && r == a
       case Fails(_) => |ps| == 1 && r == a
  }

  /** Between two turns: copies of the turn's own bindings, then the update, then the loop again. */
  predicate NextRule(g: Goal, m: Machine, value: Option<RawValue>, r: Executed, ps: seq<Conclusion>)
    requires g.LoopGoal?
  {
    match (if g.names.Some? then Freshen(m, g.scope, g.names.value) else Ok((m, g.scope)))
    case Err(fault) => ps == [] && r == Ran(m, Fails(fault))
    case Ok((copied, turn)) =>
      if g.hasUpdate then
        && |ps| > 0 && ps[0].goal == EvaluateGoal(copied)
        && if HasValue(ps[0].answer) then ps[1..] == [Conclusion(AgainGoal(g, turn, ps[0].answer.machine, value), r)]
           else |ps| == 1 && r == ps[0].answer
      else ps == [Conclusion(AgainGoal(g, turn, copied, value), r)]
  }

  function AgainGoal(g: Goal, scope: Scope, m: Machine, value: Option<RawValue>): Goal
    requires g.LoopGoal?
  {
    LoopGoal(g.hasTest, g.hasUpdate, g.body, g.names, scope, m, value)
  }

  predicate DoRule(o: Oracle, body: Statement, scope: Scope, m: Machine, value: Option<RawValue>, r: Executed,
                   ps: seq<Conclusion>)
  {
    && |ps| > 0 && ps[0].goal == StatementGoal(body, scope, m)
    && var a := ps[0].answer;
       match a.outcome
       case Gives(Normal(next)) => DoTestRule(o, body, scope, a.machine, Latest(next, value), r, ps[1..])
       case Gives(Continued(next)) => DoTestRule(o, body, scope, a.machine, Latest(next, value), r, ps[1..])
       case Gives(Broke(next)) => |ps| == 1 && r == Completes(a.machine, Latest(next, value))
       case Gives(Returned(_)) => |ps| == 1 && r == a
       case Throws(_) => |ps| == 1 && r == a
       case Fails(_) => |ps| == 1 && r == a
  }

  predicate DoTestRule(o: Oracle, body: Statement, scope: Scope, m: Machine, value: Option<RawValue>, r: Executed,
                       ps: seq<Conclusion>)
  {
    && |ps| > 0 && ps[0].goal == EvaluateGoal(m)
    && var test := ps[0].answer;
       if !HasValue(test) then |ps| == 1 && r == test
       else if o.truthy(ValueOf(test)) then ps[1..] == [Conclusion(DoGoal(body, scope, test.machine, value), r)]
       else |ps| == 1 && r == Completes(test.machine, value)
  }

  predicate ForRule(s: Statement, scope: Scope, m: Machine, r: Executed, ps: seq<Conclusion>)
    requires s.For?
  {
    match s.initializer
    case NoInitializer => ps == [Conclusion(ForLoop(s, None, scope, m), r)]
    case ExpressionInitializer =>
      && |ps| > 0 && ps[0].goal == EvaluateGoal(m)
      && if IsNormal(ps[0].answer) then ps[1..] == [Conclusion(ForLoop(s, None, scope, ps[0].answer.machine), r)]
         else |ps| == 1 && r == ps[0].answer
    case VariableInitializer(variables) =>
      && |ps| > 0 && ps[0].goal == AssignGoal(variables, scope.variable, m)
      && if IsNormal(ps[0].answer) then ps[1..] == [Conclusion(ForLoop(s, None, scope, ps[0].answer.machine), r)]
         else |ps| == 1 && r == ps[0].answer
    case LexicalInitializer(mutable, lexicals) => LexicalForRule(s, mutable, lexicals, scope, m, r, ps)
  }

  function ForLoop(s: Statement, names: Option<seq<string>>, scope: Scope, m: Machine): Goal
    requires s.For?
  {
    LoopGoal(s.hasTest, s.hasUpdate, s.body, names, scope, m, Some(Undefined))
  }

  /** The head's bindings live in an environment of their own, and those of `let` in a fresh copy each turn. */
  predicate LexicalForRule(s: Statement, mutable: bool, lexicals: seq<Declarator>, scope: Scope, m: Machine,
                           r: Executed, ps: seq<Conclusion>)
    requires s.For?
  {
    match InstantiateLoop(map[], mutable, Names(lexicals))
    case Err(fault) => ps == [] && r == Ran(m, Fails(fault))
    case Ok(b) =>
      var inner := Scope(|m.envs|, scope.variable);
      && |ps| > 0 && ps[0].goal == InitializeGoal(lexicals, inner.lexical, Machine(m.envs + [b], m.asked, m.budget))
      && var head := ps[0].answer;
         if !IsNormal(head) then |ps| == 1 && r == head
         else if !mutable then ps[1..] == [Conclusion(ForLoop(s, None, inner, head.machine), r)]
         else
           match Freshen(head.machine, inner, Names(lexicals))
           case Err(fault) => |ps| == 1 && r == Ran(head.machine, Fails(fault))
           case Ok((copied, turn)) => ps[1..] == [Conclusion(ForLoop(s, Some(Names(lexicals)), turn, copied), r)]
  }

  // ---- try --------------------------------------------------------------------------------------------------

  /** The catch block runs with its parameter bound to what was thrown. */
  predicate CatchRule(o: Oracle, handler: CatchClause, thrown: Thrown, scope: Scope, m: Machine, r: Executed,
                      ps: seq<Conclusion>)
  {
    match (handler.parameter, if thrown.ThrownValue? then Some(thrown.value) else o.errorObject(m.asked))
    case (Some(_), None) => ps == [] && r == Raises(m)
    case (Some(name), Some(value)) =>
      CatchBlockRule(handler, map[name := Binding(LexicalKind, true, Initialized(value))], scope, m, r, ps)
    case (None, _) => CatchBlockRule(handler, map[], scope, m, r, ps)
  }

  predicate CatchBlockRule(handler: CatchClause, bindings: Bindings, scope: Scope, m: Machine, r: Executed,
                           ps: seq<Conclusion>)
  {
    if handler.body.Block? then ps == [Conclusion(BlockGoal(handler.body.statements, bindings, scope, m), r)]
    else ps == [] && r == Ran(m, Fails(CatchBodyNotBlock))
  }

  /** The block; if it threw and there is a catch clause, that; then the finally block. */
  predicate TryRule(s: Statement, scope: Scope, m: Machine, r: Executed, ps: seq<Conclusion>)
    requires s.Try?
  {
    && |ps| > 0 && ps[0].goal == StatementGoal(s.body, scope, m)
    && var tried := ps[0].answer;
       if tried.outcome.Throws? && s.handler.Some? then
         && |ps| > 1 && ps[1].goal == CatchGoal(s.handler.value, tried.outcome.thrown, scope, tried.machine)
         && FinallyRule(s, scope, ps[1].answer, r, ps[2..])
       else FinallyRule(s, scope, tried, r, ps[1..])
  }

  /** A finally block that completes normally changes nothing about the completion so far; any other replaces it. */
  predicate FinallyRule(s: Statement, scope: Scope, sofar: Executed, r: Executed, ps: seq<Conclusion>)
    requires s.Try?
  {
    if s.finalizer.None? || sofar.outcome.Fails? then ps == [] && r == sofar
    else
      && |ps| == 1 && ps[0].goal == StatementGoal(s.finalizer.value, scope, sofar.machine)
      && var last := ps[0].answer;
         if IsNormal(last) then r == Ran(last.machine, sofar.outcome) else r == last
  }

  // ---- statements ---------------------------------------------------------------------------------------------

  predicate StatementRule(o: Oracle, s: Statement, scope: Scope, m: Machine, r: Executed, ps: seq<Conclusion>) {
    if m.budget == 0 then ps == [] && r == Raises(m)
    else
      var t := Ticked(m);
      match s
      case Empty => ps == [] && r == Completes(t, None)
      case FunctionDeclaration(_) => ps == [] && r == Completes(t, None)
      case ExpressionStatement => ps == [Conclusion(EvaluateGoal(t), r)]
      case LexicalDeclaration(_, bindings) => ps == [Conclusion(InitializeGoal(bindings, scope.lexical, t), r)]
      case VariableDeclaration(bindings) => ps == [Conclusion(AssignGoal(bindings, scope.variable, t), r)]
      case Block(statements) => ps == [Conclusion(BlockGoal(statements, map[], scope, t), r)]
      case If(consequent, alternate) => IfRule(o, consequent, alternate, scope, t, r, ps)
      case While(body) => ps == [Conclusion(LoopGoal(true, false, body, None, scope, t, Some(Undefined)), r)]
      case DoWhile(body) => ps == [Conclusion(DoGoal(body, scope, t, Some(Undefined)), r)]
      case For(_, _, _, _) => ForRule(s, scope, t, r, ps)
      case Break => ps == [] && r == Ran(t, Gives(Broke(None)))
      case Continue => ps == [] && r == Ran(t, Gives(Continued(None)))
      case Return(false) => ps == [] && r == Ran(t, Gives(Returned(Undefined)))
      case Return(true) =>
        && |ps| == 1 && ps[0].goal == EvaluateGoal(t)
        && var a := ps[0].answer;
           if HasValue(a) then r == Ran(a.machine, Gives(Returned(ValueOf(a)))) else r == a
      case Throw =>
        && |ps| == 1 && ps[0].goal == EvaluateGoal(t)
        && var a := ps[0].answer;
           if HasValue(a) then r == Ran(a.machine, Throws(ThrownValue(ValueOf(a)))) else r == a
      case Try(_, _, _) => TryRule(s, scope, t, r, ps)
  }

  predicate IfRule(o: Oracle, consequent: Statement, alternate: Option<Statement>, scope: Scope, m: Machine,
                   r: Executed, ps: seq<Conclusion>)
  {
    && |ps| > 0 && ps[0].goal == EvaluateGoal(m)
    && var test := ps[0].answer;
       if !HasValue(test) then |ps| == 1 && r == test
       else if o.truthy(ValueOf(test)) then ps[1..] == [Conclusion(StatementGoal(consequent, scope, test.machine), r)]
       else if alternate.Some? then ps[1..] == [Conclusion(StatementGoal(alternate.value, scope, test.machine), r)]
       else |ps| == 1 && r == Completes(test.machine, None)
  }

  // ---- derivations ----------------------------------------------------------------------------------------------

  predicate Rule(o: Oracle, g: Goal, r: Executed, ps: seq<Conclusion>) {
    match g
    case EvaluateGoal(m) => EvaluateRule(o, m, r, ps)
    case CallGoal(f, arguments, m) => CallRule(f, arguments, m, r, ps)
    case BodyGoal(list, env, m) => BodyRule(o, list, env, m, r, ps)
    case BlockGoal(list, bindings, scope, m) => BlockRule(o, list, bindings, scope, m, r, ps)
    case ListGoal(list, scope, m, value) => ListRule(list, scope, m, value, r, ps)
    case StatementGoal(s, scope, m) => StatementRule(o, s, scope, m, r, ps)
    case InitializeGoal(declarators, env, m) => InitializeRule(declarators, env, m, r, ps)
    case AssignGoal(declarators, env, m) => AssignRule(declarators, env, m, r, ps)
    case LoopGoal(_, _, _, _, _, _, _) => LoopRule(o, g, r, ps)
    case DoGoal(body, scope, m, value) => DoRule(o, body, scope, m, value, r, ps)
    case CatchGoal(handler, thrown, scope, m) => CatchRule(o, handler, thrown, scope, m, r, ps)
  }

  function Conclusions(ds: seq<Derivation>): (ps: seq<Conclusion>)
    ensures |ps| == |ds| && forall i :: 0 <= i < |ds| ==> ps[i] == ds[i].conclusion
  {
    seq(|ds|, i requires 0 <= i < |ds| => ds[i].conclusion)
  }

  /** Every conclusion in the tree follows from its premises by a rule. */
  predicate Valid(o: Oracle, d: Derivation)
    decreases d
  {
    && Rule(o, d.conclusion.goal, d.conclusion.answer, Conclusions(d.premises))
    && forall i :: 0 <= i < |d.premises| ==> Valid(o, d.premises[i])
  }

  ghost predicate Derivable(o: Oracle, goal: Goal, answer: Executed) {
    exists d: Derivation :: Valid(o, d) && d.conclusion == Conclusion(goal, answer)
  }
}
