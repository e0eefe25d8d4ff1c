/**
 Execution of statements over environments, by definition. Expressions are opaque: an oracle says which bindings
 an expression assigns, which functions it names or calls and how it ends. The step budget bounds every run.
 */
module Interpreter {
  import opened Outcomes
  import opened HeapRecords
  import opened ScriptSyntax
  import opened ScriptMachine

  /** What an expression does next. */
  datatype Action =
    | AssignBinding(environment: nat, name: string, stored: RawValue)
    | CallFunction(callee: Function, arguments: seq<RawValue>)
    | NameFunction(name: string, closure: RawValue)
    | Give(value: RawValue)
    | Raise(thrown: RawValue)

  /**
   Everything the statements depend on that is not modelled; the error object of a runtime error may fail to be
   made.
   */
  datatype Oracle = Oracle(action: nat -> Action, errorObject: nat -> Option<RawValue>, truthy: RawValue -> bool,
      closures: Closures)

  datatype Machine = Machine(envs: seq<Bindings>, asked: nat, budget: nat)

  datatype Scope = Scope(lexical: nat, variable: nat)

  datatype Completion =
    | Normal(value: Option<RawValue>)
    | Returned(result: RawValue)
    | Broke(value: Option<RawValue>)
    | Continued(value: Option<RawValue>)

  datatype Thrown = ThrownValue(value: RawValue) | RuntimeError

  /** A fault ends the whole run; the theorem is that there is none. */
  datatype Outcome<T> = Gives(value: T) | Throws(thrown: Thrown) | Fails(fault: Fault)

  datatype Ran<T> = Ran(machine: Machine, outcome: Outcome<T>)

  type Evaluated = Ran<RawValue>
  type Executed = Ran<Completion>

  function Abort<T, U>(outcome: Outcome<T>): Outcome<U>
    requires !outcome.Gives?
  {
    match outcome
    case Throws(thrown) => Throws(thrown)
    case Fails(fault) => Fails(fault)
  }

  function UpdateEmpty(c: Completion, value: Option<RawValue>): Completion {
    match c
    case Broke(None) => Broke(value)
    case Continued(None) => Continued(value)
    case _ => c
  }

  function Or(next: Option<RawValue>, value: Option<RawValue>): Option<RawValue> {
    if next.Some? then next else value
  }

  function WithEnv(m: Machine, env: nat, b: Bindings): Machine
    requires env < |m.envs|
  {
    m.(envs := m.envs[env := b])
  }

  function WithNewEnv(m: Machine, b: Bindings): Machine {
    m.(envs := m.envs + [b])
  }

  predicate Assignable(m: Machine, env: nat, name: string) {
    env < |m.envs| && name in m.envs[env] && m.envs[env][name].state.Initialized? && m.envs[env][name].mutable
  }

  function Assigned(m: Machine, env: nat, name: string, value: RawValue): Machine
    requires Assignable(m, env, name)
  {
    WithEnv(m, env, m.envs[env][name := m.envs[env][name].(state := Initialized(value))])
  }

  // ---- expressions and calls -------------------------------------------------------------

  function Evaluate(o: Oracle, m: Machine): (r: Evaluated)
    ensures r.machine.budget <= m.budget && (r.outcome.Gives? ==> r.machine.budget < m.budget)
    decreases m.budget, 0, 0
  {
    if m.budget == 0 then Ran(m, Throws(RuntimeError))
    else
      var t := m.(budget := m.budget - 1, asked := m.asked + 1);
      match o.action(m.asked)
      case Give(value) => Ran(t, Gives(value))
      case Raise(value) => Ran(t, Throws(ThrownValue(value)))
      case AssignBinding(env, name, value) =>
        if Assignable(t, env, name) then Evaluate(o, Assigned(t, env, name, value)) else Ran(t, Throws(RuntimeError))
      case NameFunction(name, closure) =>
        (match CreateInitialized(map[], name, LexicalKind, false, closure)
         case Err(fault) => Ran(t, Fails(fault))
         case Ok(b) => Evaluate(o, WithNewEnv(t, b)))
      case CallFunction(f, arguments) =>
        var r := Call(o, f, arguments, t);
        if r.outcome.Gives? then Evaluate(o, r.machine) else r
  }

  function CallResult(r: Executed): Evaluated {
    match r.outcome
    case Gives(Returned(value)) => Ran(r.machine, Gives(value))
    case Gives(Normal(_)) => Ran(r.machine, Gives(Undefined))
    case Gives(_) => Ran(r.machine, Fails(LoopControlEscaped))
    case _ => Ran(r.machine, Abort(r.outcome))
  }

  function Call(o: Oracle, f: Function, arguments: seq<RawValue>, m: Machine): (r: Evaluated)
    ensures r.machine.budget <= m.budget
    decreases m.budget, 5, 0
  {
    if m.budget == 0 then Ran(m, Throws(RuntimeError))
    else
      var t := m.(budget := m.budget - 1);
      match BindParameters(map[], f.parameters, arguments)
      case Err(fault) => Ran(t, Fails(fault))
      case Ok(b) => CallResult(RunBody(o, f.body, |t.envs|, WithNewEnv(t, b)))
  }

  /** A function body or script in the environment `env`. */
  function RunBody(o: Oracle, list: seq<Statement>, env: nat, m: Machine): (r: Executed)
    requires env < |m.envs|
    ensures r.machine.budget <= m.budget
    decreases m.budget, 4, 0
  {
    match InstantiateBody(m.envs[env], list, o.closures)
    case Err(fault) => Ran(m, Fails(fault))
    case Ok(b) => ExecList(o, list, Scope(env, env), WithEnv(m, env, b), None)
  }

  // ---- statements ---------------------------------------------------------------------------

  function ExecList(o: Oracle, list: seq<Statement>, scope: Scope, m: Machine, value: Option<RawValue>): (r: Executed)
    ensures r.machine.budget <= m.budget
    decreases m.budget, 3, |list|
  {
    if list == [] then Ran(m, Gives(Normal(value)))
    else
      var r := Exec(o, list[0], scope, m);
      match r.outcome
      case Gives(Normal(next)) => ExecList(o, list[1..], scope, r.machine, Or(next, value))
      case Gives(abrupt) => Ran(r.machine, Gives(UpdateEmpty(abrupt, value)))
      case _ => r
  }

  /** A block in a new environment that starts with the bindings `b`. */
  function RunBlock(o: Oracle, list: seq<Statement>, b: Bindings, scope: Scope, m: Machine): (r: Executed)
    ensures r.machine.budget <= m.budget
    decreases m.budget, 4, 0
  {
    match InstantiateBlock(b, list, o.closures)
    case Err(fault) => Ran(m, Fails(fault))
    case Ok(filled) => ExecList(o, list, Scope(|m.envs|, scope.variable), WithNewEnv(m, filled), None)
  }

  function Exec(o: Oracle, s: Statement, scope: Scope, m: Machine): (r: Executed)
    ensures r.machine.budget <= m.budget && (r.outcome.Gives? ==> r.machine.budget < m.budget)
    decreases m.budget, 2, 0
  {
    if m.budget == 0 then Ran(m, Throws(RuntimeError))
    else
      var t := m.(budget := m.budget - 1);
      match s
      case Empty => Ran(t, Gives(Normal(None)))
      case FunctionDeclaration(_) => Ran(t, Gives(Normal(None)))
      case ExpressionStatement =>
        var e := Evaluate(o, t);
        if e.outcome.Gives? then Ran(e.machine, Gives(Normal(Some(e.outcome.value))))
        else Ran(e.machine, Abort(e.outcome))
      case LexicalDeclaration(_, bindings) => InitializeAll(o, bindings, scope.lexical, t)
      case VariableDeclaration(bindings) => SetAll(o, bindings, scope.variable, t)
      case Break => Ran(t, Gives(Broke(None)))
      case Continue => Ran(t, Gives(Continued(None)))
      case Return(hasValue) =>
        if !hasValue then Ran(t, Gives(Returned(Undefined)))
        else
          var e := Evaluate(o, t);
          if e.outcome.Gives? then Ran(e.machine, Gives(Returned(e.outcome.value)))
          else Ran(e.machine, Abort(e.outcome))
      case Throw =>
        var e := Evaluate(o, t);
        if e.outcome.Gives? then Ran(e.machine, Throws(ThrownValue(e.outcome.value)))
        else Ran(e.machine, Abort(e.outcome))
      case _ => ExecCompound(o, s, scope, t)
  }

  predicate Compound(s: Statement) {
    s.Block? || s.If? || s.While? || s.DoWhile? || s.For? || s.Try?
  }

  function ExecCompound(o: Oracle, s: Statement, scope: Scope, m: Machine): (r: Executed)
    requires Compound(s)
    ensures r.machine.budget <= m.budget
    decreases m.budget, 8, 0
  {
    match s
    case Block(statements) => RunBlock(o, statements, map[], scope, m)
    case If(_, _) => ExecIf(o, s, scope, m)
    case While(body) => LoopFor(o, true, false, body, None, scope, m, Some(Undefined))
    case DoWhile(body) => LoopDo(o, body, scope, m, Some(Undefined))
    case For(_, _, _, _) => ExecFor(o, s, scope, m)
    case Try(_, _, _) => ExecTry(o, s, scope, m)
  }

  function ExecIf(o: Oracle, s: Statement, scope: Scope, m: Machine): (r: Executed)
    requires s.If?
    ensures r.machine.budget <= m.budget
    decreases m.budget, 3, 0
  {
    var e := Evaluate(o, m);
    if !e.outcome.Gives? then Ran(e.machine, Abort(e.outcome))
    else if o.truthy(e.outcome.value) then Exec(o, s.consequent, scope, e.machine)
    else if s.alternate.Some? then Exec(o, s.alternate.value, scope, e.machine)
    else Ran(e.machine, Gives(Normal(None)))
  }

  /** A declarator's value: its initializer's, or undefined. */
  function InitialValue(o: Oracle, d: Declarator, m: Machine): (r: Evaluated)
    ensures r.machine.budget <= m.budget
    decreases m.budget, 0, 1
  {
    if d.hasInitializer then Evaluate(o, m) else Ran(m, Gives(Undefined))
  }

  function InitializeAll(o: Oracle, bindings: seq<Declarator>, env: nat, m: Machine): (r: Executed)
    ensures r.machine.budget <= m.budget
    decreases m.budget, 1, |bindings|
  {
    if bindings == [] then Ran(m, Gives(Normal(None)))
    else
      var e := InitialValue(o, bindings[0], m);
      if !e.outcome.Gives? then Ran(e.machine, Abort(e.outcome))
      else if env >= |e.machine.envs| then Ran(e.machine, Fails(InvalidEnvironment))
      else
        match InitializeBinding(e.machine.envs[env], bindings[0].name, e.outcome.value)
        case Err(fault) => Ran(e.machine, Fails(fault))
        case Ok(b) => InitializeAll(o, bindings[1..], env, WithEnv(e.machine, env, b))
  }

  /** A `var` without initializer does nothing when reached. */
  function SetAll(o: Oracle, bindings: seq<Declarator>, env: nat, m: Machine): (r: Executed)
    ensures r.machine.budget <= m.budget
    decreases m.budget, 1, |bindings|
  {
    if bindings == [] then Ran(m, Gives(Normal(None)))
    else if !bindings[0].hasInitializer then SetAll(o, bindings[1..], env, m)
    else
      var e := Evaluate(o, m);
      if !e.outcome.Gives? then Ran(e.machine, Abort(e.outcome))
      else if env >= |e.machine.envs| then Ran(e.machine, Fails(InvalidEnvironment))
      else
        match SetVariableBinding(e.machine.envs[env], bindings[0].name, e.outcome.value)
        case Err(fault) => Ran(e.machine, Fails(fault))
        case Ok(b) => SetAll(o, bindings[1..], env, WithEnv(e.machine, env, b))
  }

  // ---- loops ------------------------------------------------------------------------------------

  /** What a loop does after its body. */
  datatype Turn = Again(value: Option<RawValue>) | Stop(outcome: Outcome<Completion>)

  function AfterBody(outcome: Outcome<Completion>, value: Option<RawValue>): Turn {
    match outcome
    case Gives(Normal(next)) => Again(Or(next, value))
    case Gives(Continued(next)) => Again(Or(next, value))
    case Gives(Broke(next)) => Stop(Gives(Normal(Or(next, value))))
    case _ => Stop(outcome)
  }

  function LoopDo(o: Oracle, body: Statement, scope: Scope, m: Machine, value: Option<RawValue>): (r: Executed)
    ensures r.machine.budget <= m.budget
    decreases m.budget, 3, 0
  {
    var r := Exec(o, body, scope, m);
    match AfterBody(r.outcome, value)
    case Stop(outcome) => Ran(r.machine, outcome)
    case Again(next) =>
      var e := Evaluate(o, r.machine);
      if !e.outcome.Gives? then Ran(e.machine, Abort(e.outcome))
      else if !o.truthy(e.outcome.value) then Ran(e.machine, Gives(Normal(next)))
      else LoopDo(o, body, scope, e.machine, next)
  }

  function ExecFor(o: Oracle, s: Statement, scope: Scope, m: Machine): (r: Executed)
    requires s.For?
    ensures r.machine.budget <= m.budget
    decreases m.budget, 6, 0
  {
    match s.initializer
    case NoInitializer => LoopFor(o, s.hasTest, s.hasUpdate, s.body, None, scope, m, Some(Undefined))
    case ExpressionInitializer =>
      var e := Evaluate(o, m);
      if !e.outcome.Gives? then Ran(e.machine, Abort(e.outcome))
      else LoopFor(o, s.hasTest, s.hasUpdate, s.body, None, scope, e.machine, Some(Undefined))
    case VariableInitializer(variables) =>
      var e := SetAll(o, variables, scope.variable, m);
      if !e.outcome.Gives? then e
      else LoopFor(o, s.hasTest, s.hasUpdate, s.body, None, scope, e.machine, Some(Undefined))
    case LexicalInitializer(mutable, lexicals) => LexicalFor(o, s, mutable, lexicals, scope, m)
  }

  function LexicalFor(o: Oracle, s: Statement, mutable: bool, lexicals: seq<Declarator>, scope: Scope, m: Machine)
    : (r: Executed)
    requires s.For?
    ensures r.machine.budget <= m.budget
    decreases m.budget, 5, 0
  {
    match InstantiateLoop(map[], mutable, Names(lexicals))
    case Err(fault) => Ran(m, Fails(fault))
    case Ok(b) =>
      var inner := Scope(|m.envs|, scope.variable);
      var e := InitializeAll(o, lexicals, inner.lexical, WithNewEnv(m, b));
      if !e.outcome.Gives? then e
      else if !mutable then LoopFor(o, s.hasTest, s.hasUpdate, s.body, None, inner, e.machine, Some(Undefined))
      else
        match Freshen(e.machine, inner, Names(lexicals))
        case Err(fault) => Ran(e.machine, Fails(fault))
        case Ok((machine, turn)) =>
          LoopFor(o, s.hasTest, s.hasUpdate, s.body, Some(Names(lexicals)), turn, machine, Some(Undefined))
  }

  /** A new environment with copies of the loop's bindings. */
  function Freshen(m: Machine, scope: Scope, names: seq<string>): (r: Result<(Machine, Scope), Fault>)
    ensures r.Ok? ==> r.value.0.budget == m.budget
  {
    if scope.lexical >= |m.envs| then Err(InvalidEnvironment)
    else
      var b :- Freshened(m.envs[scope.lexical], names);
      Ok((WithNewEnv(m, b), Scope(|m.envs|, scope.variable)))
  }

  function LoopTest(o: Oracle, hasTest: bool, m: Machine): (r: Evaluated)
    ensures r.machine.budget <= m.budget
    decreases m.budget, 0, 1
  {
    if hasTest then Evaluate(o, m) else Ran(m, Gives(Boolean(true)))
  }

  /** The loop of `for` and `while`; `names` are the bindings that each turn gets afresh. */
  function LoopFor(o: Oracle, hasTest: bool, hasUpdate: bool, body: Statement, names: Option<seq<string>>,
                   scope: Scope, m: Machine, value: Option<RawValue>): (r: Executed)
    ensures r.machine.budget <= m.budget
    decreases m.budget, 4, 0
  {
    var test := LoopTest(o, hasTest, m);
    if !test.outcome.Gives? then Ran(test.machine, Abort(test.outcome))
    else if hasTest && !o.truthy(test.outcome.value) then Ran(test.machine, Gives(Normal(value)))
    else LoopTurn(o, hasTest, hasUpdate, body, names, scope, test.machine, value)
  }

  function LoopTurn(o: Oracle, hasTest: bool, hasUpdate: bool, body: Statement, names: Option<seq<string>>,
                    scope: Scope, m: Machine, value: Option<RawValue>): (r: Executed)
    ensures r.machine.budget <= m.budget
    decreases m.budget, 3, 0
  {
    var r := Exec(o, body, scope, m);
    match AfterBody(r.outcome, value)
    case Stop(outcome) => Ran(r.machine, outcome)
    case Again(next) => NextTurn(o, hasTest, hasUpdate, body, names, scope, r.machine, next)
  }

  /** Between two turns: fresh bindings, then the update; the scope of the next turn. */
  function Prepare(o: Oracle, hasUpdate: bool, names: Option<seq<string>>, scope: Scope, m: Machine): (r: Ran<Scope>)
    ensures r.machine.budget <= m.budget
    decreases m.budget, 1, 0
  {
    match (if names.Some? then Freshen(m, scope, names.value) else Ok((m, scope)))
    case Err(fault) => Ran(m, Fails(fault))
    case Ok((machine, turn)) =>
      var update := LoopTest(o, hasUpdate, machine);
      if update.outcome.Gives? then Ran(update.machine, Gives(turn)) else Ran(update.machine, Abort(update.outcome))
  }

  function NextTurn(o: Oracle, hasTest: bool, hasUpdate: bool, body: Statement, names: Option<seq<string>>,
                    scope: Scope, m: Machine, value: Option<RawValue>): (r: Executed)
    ensures r.machine.budget <= m.budget
    decreases m.budget, 5, 0
  {
    var turn := Prepare(o, hasUpdate, names, scope, m);
    if turn.outcome.Gives? then LoopFor(o, hasTest, hasUpdate, body, names, turn.outcome.value, turn.machine, value)
    else Ran(turn.machine, Abort(turn.outcome))
  }

  // ---- try ------------------------------------------------------------------------------------------

  /** The value a catch parameter gets. */
  function CatchValue(o: Oracle, thrown: Thrown, m: Machine): Option<RawValue> {
    if thrown.ThrownValue? then Some(thrown.value) else o.errorObject(m.asked)
  }

  function CatchBindings(parameter: string, value: RawValue): Result<Bindings, Fault> {
    CreateInitialized(map[], parameter, LexicalKind, true, value)
  }

  function Handle(o: Oracle, handler: CatchClause, thrown: Thrown, scope: Scope, m: Machine): (r: Executed)
    ensures r.machine.budget <= m.budget
    decreases m.budget, 5, 0
  {
    if handler.parameter.None? then
      if handler.body.Block? then RunBlock(o, handler.body.statements, map[], scope, m)
      else Ran(m, Fails(CatchBodyNotBlock))
    else
      match CatchValue(o, thrown, m)
      case None => Ran(m, Throws(RuntimeError))
      case Some(value) =>
        match CatchBindings(handler.parameter.value, value)
        case Err(fault) => Ran(m, Fails(fault))
        case Ok(b) =>
          if handler.body.Block? then RunBlock(o, handler.body.statements, b, scope, m)
          else Ran(m, Fails(CatchBodyNotBlock))
  }

  /** The try block, and the catch clause if it threw. */
  function Tried(o: Oracle, s: Statement, scope: Scope, m: Machine): (r: Executed)
    requires s.Try?
    ensures r.machine.budget <= m.budget
    decreases m.budget, 6, 0
  {
    var tried := Exec(o, s.body, scope, m);
    if tried.outcome.Throws? && s.handler.Some? then Handle(o, s.handler.value, tried.outcome.thrown, scope,
        tried.machine) else tried
  }

  /** An abrupt finally block replaces whatever came before it. */
  function ExecTry(o: Oracle, s: Statement, scope: Scope, m: Machine): (r: Executed)
    requires s.Try?
    ensures r.machine.budget <= m.budget
    decreases m.budget, 7, 0
  {
    var r := Tried(o, s, scope, m);
    if s.finalizer.None? || r.outcome.Fails? then r
    else
      var last := Exec(o, s.finalizer.value, scope, r.machine);
      if last.outcome.Gives? && last.outcome.value.Normal? then Ran(last.machine, r.outcome) else last
  }

  /** A script in the global environment; only a normal completion is a result. */
  function RunScript(o: Oracle, list: seq<Statement>, global: nat, m: Machine): Executed
    requires global < |m.envs|
  {
    var r := RunBody(o, list, global, m);
    match r.outcome
    case Gives(Returned(_)) => Ran(r.machine, Fails(ReturnEscaped))
    case Gives(Broke(_)) => Ran(r.machine, Fails(LoopControlEscaped))
    case Gives(Continued(_)) => Ran(r.machine, Fails(LoopControlEscaped))
    case _ => r
  }
}
