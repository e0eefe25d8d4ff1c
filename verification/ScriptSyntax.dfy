/** Statements of a script as the parser builds them, and the names they declare. Expressions are opaque. */
module ScriptSyntax {
  import opened Outcomes

  datatype Declarator = Declarator(name: string, hasInitializer: bool)

  datatype Function = Function(name: Option<string>, parameters: seq<string>, body: seq<Statement>)

  datatype ForInitializer =
    | NoInitializer
    | ExpressionInitializer
    | VariableInitializer(variables: seq<Declarator>)
    | LexicalInitializer(mutable: bool, lexicals: seq<Declarator>)

  datatype CatchClause = CatchClause(parameter: Option<string>, body: Statement)

  datatype Statement =
    | Empty
    | ExpressionStatement
    | LexicalDeclaration(mutable: bool, bindings: seq<Declarator>)
    | VariableDeclaration(bindings: seq<Declarator>)
    | Block(statements: seq<Statement>)
    | If(consequent: Statement, alternate: Option<Statement>)
    | While(body: Statement)
    | DoWhile(body: Statement)
    | For(initializer: ForInitializer, hasTest: bool, hasUpdate: bool, body: Statement)
    | Break
    | Continue
    | FunctionDeclaration(definition: Function)
    | Return(hasValue: bool)
    | Throw
    | Try(body: Statement, handler: Option<CatchClause>, finalizer: Option<Statement>)

  // ---- names -----------------------------------------------------------------------------

  function SetOf(names: seq<string>): set<string> {
    set n | n in names
  }

  predicate Distinct(names: seq<string>) {
    forall i, j :: 0 <= i < j < |names| ==> names[i] != names[j]
  }

  /** No name twice, and none that is reserved. */
  predicate Unclashed(names: seq<string>, reserved: set<string>) {
    Distinct(names) && SetOf(names) !! reserved
  }

  function Names(bindings: seq<Declarator>): (r: seq<string>)
    ensures |r| == |bindings| && forall i :: 0 <= i < |r| ==> r[i] == bindings[i].name
  {
    seq(|bindings|, i requires 0 <= i < |bindings| => bindings[i].name)
  }

  /** The names of a `let` or `const` statement itself. */
  function LexicalNames(s: Statement): seq<string> {
    if s.LexicalDeclaration? then Names(s.bindings) else []
  }

  function FunctionNames(s: Statement): seq<string> {
    if s.FunctionDeclaration? && s.definition.name.Some? then [s.definition.name.value] else []
  }

  /** The names declared directly in a statement list: lexical ones, functions, and both in order. */
  function ListLexicalNames(list: seq<Statement>): seq<string> {
    if list == [] then [] else LexicalNames(list[0]) + ListLexicalNames(list[1..])
  }

  function ListFunctionNames(list: seq<Statement>): seq<string> {
    if list == [] then [] else FunctionNames(list[0]) + ListFunctionNames(list[1..])
  }

  function ListNames(list: seq<Statement>): seq<string> {
    if list == [] then [] else LexicalNames(list[0]) + FunctionNames(list[0]) + ListNames(list[1..])
  }

  function ParameterNames(handler: CatchClause): set<string> {
    if handler.parameter.Some? then {handler.parameter.value} else {}
  }

  /** The names that `var` statements anywhere inside declare, functions inside not counted. */
  function VarNames(s: Statement): set<string>
    decreases s
  {
    match s
    case VariableDeclaration(bindings) => SetOf(Names(bindings))
    case Block(statements) => ListVarNames(statements)
    case If(consequent, alternate) => VarNames(consequent) + if alternate.Some? then VarNames(alternate.value) else {}
    case While(body) => VarNames(body)
    case DoWhile(body) => VarNames(body)
    case For(initializer, _, _, body) =>
      (if initializer.VariableInitializer? then SetOf(Names(initializer.variables)) else {}) + VarNames(body)
    case Try(body, handler, finalizer) =>
      VarNames(body) + (if handler.Some? then VarNames(handler.value.body) else {})
      + if finalizer.Some? then VarNames(finalizer.value) else {}
    case _ => {}
  }

  function ListVarNames(list: seq<Statement>): set<string>
    decreases list
  {
    if list == [] then {} else VarNames(list[0]) + ListVarNames(list[1..])
  }

  // ---- shape ---------------------------------------------------------------------------------

  /** A statement where no declaration list is: the parser takes no `let`, `const` or `function` there. */
  predicate Plain(s: Statement) {
    !s.LexicalDeclaration? && !s.FunctionDeclaration?
  }

  /** What the grammar alone guarantees: plain bodies, named function statements, blocks in `try`. */
  predicate Shaped(s: Statement)
    decreases s
  {
    match s
    case FunctionDeclaration(definition) => definition.name.Some?
    case Block(statements) => AllShaped(statements)
    case If(consequent, alternate) =>
      Plain(consequent) && Shaped(consequent) && (alternate.Some? ==> Plain(alternate.value) && Shaped(alternate.value))
    case While(body) => Plain(body) && Shaped(body)
    case DoWhile(body) => Plain(body) && Shaped(body)
    case For(_, _, _, body) => Plain(body) && Shaped(body)
    case Try(body, handler, finalizer) =>
      && body.Block? && Shaped(body)
      && (handler.Some? ==> handler.value.body.Block? && Shaped(handler.value.body))
      && (finalizer.Some? ==> finalizer.value.Block? && Shaped(finalizer.value))
    case _ => true
  }

  predicate AllShaped(list: seq<Statement>)
    decreases list
  {
    list == [] || (Shaped(list[0]) && AllShaped(list[1..]))
  }

  /** The parser's depth counters: loop control only in a loop, `return` only in a function. */
  predicate Placed(s: Statement, loopDepth: nat, functionDepth: nat)
    decreases s
  {
    match s
    case Break => loopDepth > 0
    case Continue => loopDepth > 0
    case Return(_) => functionDepth > 0
    case Block(statements) => AllPlaced(statements, loopDepth, functionDepth)
    case If(consequent, alternate) =>
      && Placed(consequent, loopDepth, functionDepth)
      && (alternate.Some? ==> Placed(alternate.value, loopDepth, functionDepth))
    case While(body) => Placed(body, loopDepth + 1, functionDepth)
    case DoWhile(body) => Placed(body, loopDepth + 1, functionDepth)
    case For(_, _, _, body) => Placed(body, loopDepth + 1, functionDepth)
    case Try(body, handler, finalizer) =>
      && Placed(body, loopDepth, functionDepth)
      && (handler.Some? ==> Placed(handler.value.body, loopDepth, functionDepth))
      && (finalizer.Some? ==> Placed(finalizer.value, loopDepth, functionDepth))
    case _ => true
  }

  predicate AllPlaced(list: seq<Statement>, loopDepth: nat, functionDepth: nat)
    decreases list
  {
    list == [] || (Placed(list[0], loopDepth, functionDepth) && AllPlaced(list[1..], loopDepth, functionDepth))
  }

  // ---- scope -----------------------------------------------------------------------------------

  predicate Named(s: Statement) {
    s.FunctionDeclaration? ==> s.definition.name.Some?
  }

  predicate AllNamed(list: seq<Statement>) {
    forall i :: 0 <= i < |list| ==> Named(list[i])
  }

  /** No name declared twice in one scope, in a statement and everything inside it but function bodies. */
  predicate Scoped(s: Statement)
    decreases s
  {
    match s
    case Block(statements) => BlockScoped(statements, {})
    case If(consequent, alternate) => Scoped(consequent) && (alternate.Some? ==> Scoped(alternate.value))
    case While(body) => Scoped(body)
    case DoWhile(body) => Scoped(body)
    case For(initializer, _, _, body) =>
      && Scoped(body)
      && (initializer.LexicalInitializer? ==>
            var names := Names(initializer.lexicals); Distinct(names) && VarNames(body) !! SetOf(names))
    case Try(body, handler, finalizer) =>
      && Scoped(body)
      && (handler.Some? ==>
            handler.value.body.Block? && BlockScoped(handler.value.body.statements, ParameterNames(handler.value)))
      && (finalizer.Some? ==> Scoped(finalizer.value))
    case _ => true
  }

  predicate AllScoped(list: seq<Statement>)
    decreases list, 0
  {
    list == [] || (Scoped(list[0]) && AllScoped(list[1..]))
  }

  /** A block, or a catch block with its parameter reserved: functions count as lexical. */
  predicate BlockScoped(list: seq<Statement>, reserved: set<string>)
    decreases list
  {
    var names := ListNames(list);
    && Unclashed(names, reserved)
    && ListVarNames(list) !! SetOf(names) + reserved
    && AllNamed(list) && AllScoped(list)
  }

  /** A function body or script: functions count as variables, and only lexical names clash with parameters. */
  predicate BodyScoped(list: seq<Statement>, reserved: set<string>) {
    var names := ListLexicalNames(list);
    && Unclashed(names, reserved)
    && ListVarNames(list) + SetOf(ListFunctionNames(list)) !! SetOf(names)
    && AllNamed(list) && AllScoped(list)
  }

  /** A function the parser lets through. */
  predicate Accepted(f: Function) {
    && Distinct(f.parameters)
    && AllShaped(f.body) && AllPlaced(f.body, 0, 1)
    && BodyScoped(f.body, SetOf(f.parameters))
  }
}
