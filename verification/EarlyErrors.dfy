/** The parser's scope checks: loops that collect names into sets and refuse a clash. */
module EarlyErrors {
  import opened Outcomes
  import opened ScriptSyntax

  // ---- prefixes of a list ------------------------------------------------------------------

  lemma SetOfAppend(a: seq<string>, b: seq<string>)
    ensures SetOf(a + b) == SetOf(a) + SetOf(b)
  {
  }

  lemma {:induction false} NamesOfPrefix(list: seq<Statement>, i: nat)
    requires i <= |list|
    ensures ListNames(list) == ListNames(list[..i]) + ListNames(list[i..])
    ensures ListLexicalNames(list) == ListLexicalNames(list[..i]) + ListLexicalNames(list[i..])
    ensures ListFunctionNames(list) == ListFunctionNames(list[..i]) + ListFunctionNames(list[i..])
  {
    if i > 0 {
      assert list[..i][1..] == list[1..][..i - 1] && list[1..][i - 1..] == list[i..];
      NamesOfPrefix(list[1..], i - 1);
    }
  }

  lemma {:induction false} VarsOfPrefix(list: seq<Statement>, i: nat)
    requires i <= |list|
    ensures ListVarNames(list) == ListVarNames(list[..i]) + ListVarNames(list[i..])
    ensures AllScoped(list) <==> AllScoped(list[..i]) && AllScoped(list[i..])
  {
    if i > 0 {
      assert list[..i][1..] == list[1..][..i - 1] && list[1..][i - 1..] == list[i..];
      VarsOfPrefix(list[1..], i - 1);
    }
  }

  /** Taking one statement more. */
  lemma NextStatement(list: seq<Statement>, i: nat)
    requires i < |list|
    ensures ListNames(list[..i + 1]) == ListNames(list[..i]) + (LexicalNames(list[i]) + FunctionNames(list[i]))
    ensures ListLexicalNames(list[..i + 1]) == ListLexicalNames(list[..i]) + LexicalNames(list[i])
    ensures ListFunctionNames(list[..i + 1]) == ListFunctionNames(list[..i]) + FunctionNames(list[i])
    ensures ListVarNames(list[..i + 1]) == ListVarNames(list[..i]) + VarNames(list[i])
    ensures AllScoped(list[..i + 1]) <==> AllScoped(list[..i]) && Scoped(list[i])
    ensures AllNamed(list[..i + 1]) <==> AllNamed(list[..i]) && Named(list[i])
  {
    var next := list[..i + 1];
    assert AllNamed(next) <==> AllNamed(list[..i]) && Named(list[i]) by {
      assert forall k :: 0 <= k < i ==> next[k] == list[..i][k];
      assert next[i] == list[i];
    }
    assert next[..i] == list[..i] && next[i..] == [list[i]] && [list[i]][1..] == [];
    NamesOfPrefix(next, i);
    VarsOfPrefix(next, i);
  }

  /** A list is scoped only if each of its beginnings is. */
  lemma ScopedPrefix(list: seq<Statement>, i: nat)
    requires i <= |list|
    ensures AllScoped(list) ==> AllScoped(list[..i])
    ensures AllNamed(list) ==> AllNamed(list[..i])
  {
    VarsOfPrefix(list, i);
  }

  lemma FreshPrefix(names: seq<string>, rest: seq<string>, reserved: set<string>)
    requires Unclashed(names + rest, reserved)
    ensures Unclashed(names, reserved)
  {
    var all := names + rest;
    assert forall i :: 0 <= i < |names| ==> all[i] == names[i];
    SetOfAppend(names, rest);
  }

  // ---- the checks -----------------------------------------------------------------------------

  lemma ClashStays(names: seq<string>, clash: string, rest: seq<string>, reserved: set<string>)
    requires clash in reserved + SetOf(names)
    ensures !Unclashed(names + [clash] + rest, reserved)
  {
    var all := names + [clash] + rest;
    assert all[|names|] == clash;
    if clash in reserved {
      assert clash in SetOf(all);
    } else {
      var j :| 0 <= j < |names| && names[j] == clash;
      assert all[j] == clash;
    }
  }

  /** Inserts lexical names one by one; none if one is there already. */
  method InsertLexicalNames(ghost earlier: seq<string>, ghost reserved: set<string>, names: seq<string>,
                            taken: set<string>)
    returns (r: Option<set<string>>)
    requires Unclashed(earlier, reserved) && taken == reserved + SetOf(earlier)
    ensures r.Some? <==> Unclashed(earlier + names, reserved)
    ensures r.Some? ==> r.value == reserved + SetOf(earlier + names)
  {
    var all := taken;
    assert earlier + names[..0] == earlier;
    for i := 0 to |names|
      invariant all == reserved + SetOf(earlier + names[..i])
      invariant Unclashed(earlier + names[..i], reserved)
    {
      ghost var before := earlier + names[..i];
      assert names[..i + 1] == names[..i] + [names[i]] && earlier + names[..i + 1] == before + [names[i]];
      SetOfAppend(before, [names[i]]);
      if names[i] in all {
        assert earlier + names == before + [names[i]] + names[i + 1..];
        ClashStays(before, names[i], names[i + 1..], reserved);
        return None;
      }
      all := all + {names[i]};
    }
    assert names[..|names|] == names;
    r := Some(all);
  }

  /** The names of a block's own declarations, if no two clash. */
  method BlockNames(list: seq<Statement>, reserved: set<string>) returns (r: Option<set<string>>)
    ensures r.Some? <==> AllNamed(list) && Unclashed(ListNames(list), reserved)
    ensures r.Some? ==> r.value == reserved + SetOf(ListNames(list))
  {
    var all := reserved;
    ghost var earlier := [];
    assert list[..0] == [];
    assert AllNamed(list[..0]) && Unclashed(earlier, reserved) && SetOf(earlier) == {};
    hide AllNamed;
    hide Unclashed;
    hide SetOf;
    for i := 0 to |list|
      invariant AllNamed(list[..i]) && earlier == ListNames(list[..i]) && Unclashed(earlier, reserved)
      invariant all == reserved + SetOf(earlier)
    {
      hide ListNames;
      NextNames(list, i);
      ScopedPrefix(list, i + 1);
      if list[i].FunctionDeclaration? && list[i].definition.name.None? {
        return None;
      }
      var own := LexicalNames(list[i]) + FunctionNames(list[i]);
      SetOfAppend(earlier, own);
      var more := InsertLexicalNames(earlier, reserved, own, all);
      earlier := earlier + own;
      if more.None? {
        BlockClash(list, i + 1, reserved);
        return None;
      }
      all := more.value;
    }
    assert list[..|list|] == list;
    r := Some(all);
  }

  lemma NextNames(list: seq<Statement>, i: nat)
    requires i < |list|
    ensures ListNames(list[..i + 1]) == ListNames(list[..i]) + (LexicalNames(list[i]) + FunctionNames(list[i]))
    ensures ListLexicalNames(list[..i + 1]) == ListLexicalNames(list[..i]) + LexicalNames(list[i])
    ensures AllNamed(list[..i + 1]) <==> AllNamed(list[..i]) && Named(list[i])
  {
    NextStatement(list, i);
  }

  /** A clash among the first names is a clash among all. */
  lemma BlockClash(list: seq<Statement>, i: nat, reserved: set<string>)
    requires i <= |list|
    ensures Unclashed(ListNames(list), reserved) ==> Unclashed(ListNames(list[..i]), reserved)
    ensures Unclashed(ListLexicalNames(list), reserved) ==> Unclashed(ListLexicalNames(list[..i]), reserved)
  {
    hide Unclashed;
    NamesOfPrefix(list, i);
    if Unclashed(ListNames(list), reserved) {
      FreshPrefix(ListNames(list[..i]), ListNames(list[i..]), reserved);
    }
    if Unclashed(ListLexicalNames(list), reserved) {
      FreshPrefix(ListLexicalNames(list[..i]), ListLexicalNames(list[i..]), reserved);
    }
  }

  method ValidateLexicalScope(list: seq<Statement>, reserved: set<string>) returns (r: Option<set<string>>)
    ensures r.Some? <==> BlockScoped(list, reserved)
    ensures r.Some? ==> r.value == ListVarNames(list)
    decreases list, 1
  {
    var lexical := BlockNames(list, reserved);
    if lexical.None? {
      return None;
    }
    var variables := CollectListVarNames(list);
    if variables.None? || !(variables.value !! lexical.value) {
      return None;
    }
    r := variables;
  }

  lemma NothingYet(list: seq<Statement>)
    ensures ListVarNames(list[..0]) == {} && AllScoped(list[..0])
    ensures AllNamed(list[..0]) && ListFunctionNames(list[..0]) == []
  {
  }

  lemma FunctionHidesItsNames(s: Statement)
    requires s.FunctionDeclaration?
    ensures Scoped(s) && VarNames(s) == {}
  {
  }

  /** The variable names of each statement in turn, checking what is inside. */
  method CollectListVarNames(list: seq<Statement>) returns (r: Option<set<string>>)
    ensures r.Some? <==> AllScoped(list)
    ensures r.Some? ==> r.value == ListVarNames(list)
    decreases list, 0
  {
    hide *;
    var names := {};
    NothingYet(list);
    for i := 0 to |list|
      invariant names == ListVarNames(list[..i])
      invariant AllScoped(list[..i])
    {
      NextStatement(list, i);
      ScopedPrefix(list, i + 1);
      if list[i].FunctionDeclaration? {
        FunctionHidesItsNames(list[i]);
      } else {
        var more := CollectStatementVarNames(list[i], names);
        if more.None? {
          return None;
        }
        names := more.value;
      }
    }
    assert list[..|list|] == list;
    r := Some(names);
  }

  method CollectStatementVarNames(s: Statement, names: set<string>) returns (r: Option<set<string>>)
    ensures r.Some? <==> Scoped(s)
    ensures r.Some? ==> r.value == names + VarNames(s)
    decreases s, 1
  {
    match s {
      case VariableDeclaration(bindings) =>
        r := Some(names + SetOf(Names(bindings)));
      case Block(statements) =>
        var inner := ValidateLexicalScope(statements, {});
        r := if inner.Some? then Some(names + inner.value) else None;
      case If(consequent, alternate) =>
        r := CollectStatementVarNames(consequent, names);
        if r.Some? && alternate.Some? {
          r := CollectStatementVarNames(alternate.value, r.value);
        }
      case While(body) =>
        r := CollectStatementVarNames(body, names);
      case DoWhile(body) =>
        r := CollectStatementVarNames(body, names);
      case For(_, _, _, _) =>
        r := CollectForVarNames(s, names);
      case Try(_, _, _) =>
        r := CollectTryVarNames(s, names);
      case _ =>
        r := Some(names);
    }
  }

  method CollectForVarNames(s: Statement, names: set<string>) returns (r: Option<set<string>>)
    requires s.For?
    ensures r.Some? <==> Scoped(s)
    ensures r.Some? ==> r.value == names + VarNames(s)
    decreases s, 0
  {
    match s.initializer {
      case VariableInitializer(variables) =>
        r := CollectStatementVarNames(s.body, names + SetOf(Names(variables)));
      case LexicalInitializer(_, lexicals) =>
        var lexical := InsertLexicalNames([], {}, Names(lexicals), {});
        assert [] + Names(lexicals) == Names(lexicals);
        if lexical.None? {
          return None;
        }
        var inner := CollectStatementVarNames(s.body, {});
        if inner.None? || !(inner.value !! lexical.value) {
          return None;
        }
        r := Some(names + inner.value);
      case _ =>
        r := CollectStatementVarNames(s.body, names);
    }
  }

  method CollectTryVarNames(s: Statement, names: set<string>) returns (r: Option<set<string>>)
    requires s.Try?
    ensures r.Some? <==> Scoped(s)
    ensures r.Some? ==> r.value == names + VarNames(s)
    decreases s, 0
  {
    r := CollectStatementVarNames(s.body, names);
    if r.Some? && s.handler.Some? {
      var handler := s.handler.value;
      if !handler.body.Block? {
        return None;
      }
      var inner := ValidateLexicalScope(handler.body.statements, ParameterNames(handler));
      if inner.None? {
        return None;
      }
      r := Some(r.value + inner.value);
    }
    if r.Some? && s.finalizer.Some? {
      r := CollectStatementVarNames(s.finalizer.value, r.value);
    }
  }

  lemma NoNamesYet(list: seq<Statement>, reserved: set<string>)
    ensures ListLexicalNames(list[..0]) == [] && Unclashed([], reserved) && SetOf([]) == {}
  {
  }

  /** The lexical names of a body's own declarations, if no two clash and none is a parameter. */
  method BodyNames(list: seq<Statement>, reserved: set<string>) returns (r: Option<set<string>>)
    ensures r.Some? <==> Unclashed(ListLexicalNames(list), reserved)
    ensures r.Some? ==> r.value == SetOf(ListLexicalNames(list))
  {
    hide *;
    var all, direct := reserved, {};
    ghost var earlier := [];
    NoNamesYet(list, reserved);
    for i := 0 to |list|
      invariant earlier == ListLexicalNames(list[..i]) && Unclashed(earlier, reserved)
      invariant all == reserved + SetOf(earlier)
      invariant direct == SetOf(earlier)
    {
      NextNames(list, i);
      var own := LexicalNames(list[i]);
      SetOfAppend(earlier, own);
      BlockClash(list, i + 1, reserved);
      var more := InsertLexicalNames(earlier, reserved, own, all);
      if more.None? {
        assert !Unclashed(ListLexicalNames(list), reserved);
        return None;
      }
      all := more.value;
      direct := direct + SetOf(own);
      assert direct == SetOf(earlier + own);
      earlier := earlier + own;
    }
    assert list[..|list|] == list;
    assert Unclashed(ListLexicalNames(list), reserved) && direct == SetOf(ListLexicalNames(list));
    r := Some(direct);
  }

  /** The variable and function names of a body, checking what is inside its statements. */
  method BodyVarNames(list: seq<Statement>) returns (r: Option<set<string>>)
    ensures r.Some? <==> AllNamed(list) && AllScoped(list)
    ensures r.Some? ==> r.value == ListVarNames(list) + SetOf(ListFunctionNames(list))
  {
    hide *;
    var names := {};
    NothingYet(list);
    NoNamesYet(list, {});
    for i := 0 to |list|
      invariant AllNamed(list[..i]) && AllScoped(list[..i])
      invariant names == ListVarNames(list[..i]) + SetOf(ListFunctionNames(list[..i]))
    {
      NextStatement(list, i);
      ScopedPrefix(list, i + 1);
      SetOfAppend(ListFunctionNames(list[..i]), FunctionNames(list[i]));
      WhatIsNamed(list[i]);
      if list[i].FunctionDeclaration? {
        if list[i].definition.name.None? {
          return None;
        }
        FunctionIsScoped(list[i]);
        names := names + {list[i].definition.name.value};
      } else {
        var more := CollectStatementVarNames(list[i], names);
        if more.None? {
          return None;
        }
        names := more.value;
      }
    }
    assert list[..|list|] == list;
    r := Some(names);
  }

  lemma WhatIsNamed(s: Statement)
    ensures Named(s) <==> !(s.FunctionDeclaration? && s.definition.name.None?)
    ensures !s.FunctionDeclaration? ==> FunctionNames(s) == []
  {
  }

  lemma FunctionIsScoped(s: Statement)
    requires s.FunctionDeclaration? && s.definition.name.Some?
    ensures Scoped(s) && Named(s) && VarNames(s) == {} && SetOf(FunctionNames(s)) == {s.definition.name.value}
  {
  }

  /** The check of a whole function body or script. */
  method ValidateVarScope(list: seq<Statement>, reserved: set<string>) returns (ok: bool)
    ensures ok <==> BodyScoped(list, reserved)
  {
    var direct := BodyNames(list, reserved);
    if direct.None? {
      return false;
    }
    var names := BodyVarNames(list);
    ok := names.Some? && names.value !! direct.value;
  }
}
