/** A run of the parser without errors returns a complete tree that the consumed tokens spell. */
module ParserSound {
  import opened Ast
  import opened Tokens
  import opened Parsing
  import opened Grammar

  /** The step from `s` to `r` met no error. */
  predicate Clean(ts: seq<Token>, s: State, r: State) {
    AllScanned(ts) && Consistent(s) && Moves(s, r) && r.count == 0
  }

  lemma ScannedAt(ts: seq<Token>, i: nat)
    requires AllScanned(ts)
    ensures Scanned(Cur(ts, i))
  {
  }

  lemma {:induction false} ExpressionSound(ts: seq<Token>, s: State)
    requires Clean(ts, s, ParseExpression(ts, s).0)
    ensures var (r, e) := ParseExpression(ts, s);
      !e.NullExpression? && CompleteExpression(e) && EndOfExpression(ts, s.pos, e) == r.pos
    decreases Left(ts, s), 5
  {
    hide ParseSimpleExpression, EndOfSimple, CompleteSum;
    var (s1, lhs) := ParseSimpleExpression(ts, s);
    SimpleExpressionSound(ts, s);
    var (s2, isRelation) := Match(ts, s1, TRelOp);
    if isRelation {
      SimpleExpressionSound(ts, s2);
    }
  }

  lemma {:induction false} SimpleExpressionSound(ts: seq<Token>, s: State)
    requires Clean(ts, s, ParseSimpleExpression(ts, s).0)
    ensures var (r, e) := ParseSimpleExpression(ts, s);
      e.AddOp? && CompleteSum(e) && EndOfSimple(ts, s.pos, e) == r.pos
    decreases Left(ts, s), 4
  {
    hide ParseSum, ParseTerm, EndOfTerm, CompleteExpression, CompleteTerm, CompleteFactor, CompleteReference,
      CompleteExpressions, Panic;
    var sign := Cur(ts, s.pos);
    var (s1, signed) := if !sign.op.Or? then Match(ts, s, TAddOp) else (s, false);
    var (s2, term) := ParseTerm(ts, s1);
    var (s3, op, rest) := ParseSum(ts, s2);
    TermSound(ts, s1);
    SumSound(ts, s2);
  }

  lemma {:induction false} SumSound(ts: seq<Token>, s: State)
    requires Clean(ts, s, ParseSum(ts, s).0)
    ensures var (r, op, rest) := ParseSum(ts, s);
      if rest.NullExpression? then op.Invalid? && r == s
      else
        IsAddOp(op) && CompleteSum(rest) && !rest.negated && EndOfSum(ts, AfterOp(ts, s.pos, TAddOp, op), rest) == r.pos
    decreases Left(ts, s), 0
  {
    hide ParseTerm, EndOfTerm, CompleteExpression, CompleteTerm, CompleteFactor, CompleteReference, CompleteExpressions;
    var (s1, ok) := Match(ts, s, TAddOp);
    if ok {
      TermSound(ts, s1);
      SumSound(ts, ParseTerm(ts, s1).0);
    }
  }

  lemma {:induction false} TermSound(ts: seq<Token>, s: State)
    requires Clean(ts, s, ParseTerm(ts, s).0)
    ensures var (r, t) := ParseTerm(ts, s); CompleteTerm(t) && EndOfTerm(ts, s.pos, t) == r.pos
    decreases Left(ts, s), 3
  {
    hide ParseFactor, EndOfFactor, CompleteExpression, CompleteFactor, CompleteReference, CompleteExpressions, Panic,
      AllScanned;
    var (s1, factor) := ParseFactor(ts, s);
    FactorSound(ts, s);
    var (s2, ok) := Match(ts, s1, TMulOp);
    ScannedAt(ts, s1.pos);
    if ok {
      TermSound(ts, s2);
    }
  }

  lemma {:induction false} FactorSound(ts: seq<Token>, s: State)
    requires Clean(ts, s, ParseFactor(ts, s).0)
    ensures var (r, f) := ParseFactor(ts, s); CompleteFactor(f) && EndOfFactor(ts, s.pos, f) == r.pos
    decreases Left(ts, s), 2
  {
    hide *;
    if Cur(ts, s.pos).kind == TNumber {
      NumberSound(ts, s);
    } else if Cur(ts, s.pos).kind == TLParen {
      ParenSound(ts, s);
    } else if Cur(ts, s.pos).kind == TNot {
      NotSound(ts, s);
    } else {
      NameSound(ts, s);
    }
  }

  lemma NumberSound(ts: seq<Token>, s: State)
    requires Cur(ts, s.pos).kind == TNumber && Clean(ts, s, ParseFactor(ts, s).0)
    ensures var (r, f) := ParseFactor(ts, s); CompleteFactor(f) && EndOfFactor(ts, s.pos, f) == r.pos
  {
    hide ParseExpression, ParseFactorRest, EndOfSuffix, EndOfExpression, CompleteExpression, CompleteReference,
      CompleteExpressions, Panic, Report, Missing;
  }

  lemma {:induction false} ParenSound(ts: seq<Token>, s: State)
    requires Cur(ts, s.pos).kind == TLParen && Clean(ts, s, ParseFactor(ts, s).0)
    ensures var (r, f) := ParseFactor(ts, s); CompleteFactor(f) && EndOfFactor(ts, s.pos, f) == r.pos
    decreases Left(ts, s), 1
  {
    hide ParseExpression, ParseFactorRest, EndOfSuffix, EndOfExpression, CompleteExpression, CompleteReference,
      CompleteExpressions, Panic, Report, Missing;
    ExpressionSound(ts, Match(ts, s, TLParen).0);
  }

  lemma {:induction false} NotSound(ts: seq<Token>, s: State)
    requires Cur(ts, s.pos).kind == TNot && Clean(ts, s, ParseFactor(ts, s).0)
    ensures var (r, f) := ParseFactor(ts, s); CompleteFactor(f) && EndOfFactor(ts, s.pos, f) == r.pos
    decreases Left(ts, s), 1
  {
    hide ParseExpression, ParseFactorRest, EndOfSuffix, EndOfExpression, CompleteExpression, CompleteReference,
      CompleteExpressions, Panic, Report, Missing;
    FactorSound(ts, Match(ts, s, TNot).0);
  }

  lemma {:induction false} NameSound(ts: seq<Token>, s: State)
    requires Cur(ts, s.pos).kind != TNumber && Cur(ts, s.pos).kind != TLParen && Cur(ts, s.pos).kind != TNot
    requires Clean(ts, s, ParseFactor(ts, s).0)
    ensures var (r, f) := ParseFactor(ts, s); CompleteFactor(f) && EndOfFactor(ts, s.pos, f) == r.pos
    decreases Left(ts, s), 1
  {
    hide ParseExpression, ParseFactorRest, EndOfSuffix, EndOfExpression, CompleteExpression, CompleteReference,
      CompleteExpressions, Panic, Report, Missing;
    var (s1, id) := ParseIdentifier(ts, s);
    FactorRestSound(ts, s1, id);
  }

  lemma {:induction false} FactorRestSound(ts: seq<Token>, s: State, id: Identifier)
    requires PlainName(id) && Clean(ts, s, ParseFactorRest(ts, s, id).0)
    ensures var (r, full) := ParseFactorRest(ts, s, id);
      CompleteReference(full) && full.Identifier? && full.name == id.name && EndOfSuffix(ts, s.pos, full) == r.pos
    decreases Left(ts, s), 1
  {
    hide ParseExpressionList, ParseOptionalIndex, EndOfExpression, EndOfArguments, CompleteExpression,
      CompleteExpressions, Panic, Missing;
    if Is(ts, s.pos, TLBracket) {
      OptionalIndexSound(ts, s);
    } else if Is(ts, s.pos, TLParen) {
      ArgumentsSound(ts, s);
    }
  }

  /** A parenthesised, possibly empty argument list. */
  lemma {:induction false} ArgumentsSound(ts: seq<Token>, s: State)
    requires Is(ts, s.pos, TLParen)
    requires var (r, ps) := ParseExpressionList(ts, Match(ts, s, TLParen).0);
      Clean(ts, s, r) && Is(ts, r.pos, TRParen)
    ensures var (r, ps) := ParseExpressionList(ts, Match(ts, s, TLParen).0);
      var es := if ps.Parameters? then ps.list else [];
      CompleteExpressions(es) && After(ts, EndOfArguments(ts, After(ts, s.pos, TLParen), es), TRParen) == r.pos + 1
    decreases Left(ts, s), 0
  {
    hide ParseExpressionList, EndOfExpression, CompleteExpression;
    var (r, ps) := ParseExpressionList(ts, Match(ts, s, TLParen).0);
    ExpressionListSound(ts, Match(ts, s, TLParen).0);
    if ps.NoParameters? {
      assert EndOfArguments(ts, s.pos + 1, []) == s.pos + 1;
    }
  }

  lemma {:induction false} OptionalIndexSound(ts: seq<Token>, s: State)
    requires Clean(ts, s, ParseOptionalIndex(ts, s).0)
    ensures var (r, e) := ParseOptionalIndex(ts, s);
      (e.NullExpression? || CompleteExpression(e)) && EndOfIndex(ts, s.pos, e) == r.pos
    decreases Left(ts, s), 0
  {
    hide ParseExpression, EndOfExpression, CompleteExpression, Panic, Missing;
    if Is(ts, s.pos, TLBracket) {
      ExpressionSound(ts, Match(ts, s, TLBracket).0);
    }
  }

  lemma {:induction false} ExpressionListSound(ts: seq<Token>, s: State)
    requires Clean(ts, s, ParseExpressionList(ts, s).0)
    ensures var (r, ps) := ParseExpressionList(ts, s);
      if ps.Parameters? then ps.list != [] && CompleteExpressions(ps.list)
        && EndOfArguments(ts, s.pos, ps.list) == r.pos
      else r == s
    decreases Left(ts, s), 6
  {
    hide StartsFactor, AllScanned, ParseExpression, EndOfExpression, CompleteExpression;
    if StartsExpression(Cur(ts, s.pos).kind) {
      ExpressionSound(ts, s);
      var (s1, e) := ParseExpression(ts, s);
      if Is(ts, s1.pos, TComma) {
        ExpressionListSound(ts, Match(ts, s1, TComma).0);
      }
    }
  }

  // ----- statements -----

  lemma {:induction false} StatementSound(ts: seq<Token>, s: State)
    requires Clean(ts, s, ParseStatement(ts, s).0)
    ensures var (r, t) := ParseStatement(ts, s); CompleteStatement(t) && EndOfStatement(ts, s.pos, t) == r.pos
    decreases Left(ts, s), 2
  {
    hide ParseStatementRest, ParseIf, ParseWhile, ParseCompoundStatement, EndOfExpression, EndOfSuffix,
      EndOfStatements, CompleteExpression, CompleteReference, CompleteExpressions, CompleteStatement,
      CompleteStatements, Panic, Report, AllScanned;
    if Is(ts, s.pos, TBegin) {
      CompoundSound(ts, s);
    } else if Is(ts, s.pos, TIf) {
      IfSound(ts, s);
    } else if Is(ts, s.pos, TWhile) {
      WhileSound(ts, s);
    } else {
      var (s1, id) := ParseIdentifier(ts, s);
      StatementRestSound(ts, s1, id);
    }
  }

  lemma {:induction false} CompoundSound(ts: seq<Token>, s: State)
    requires Clean(ts, s, ParseCompoundStatement(ts, s).0)
    ensures var (r, t) := ParseCompoundStatement(ts, s);
      t.Compound? && CompleteStatement(t) && EndOfStatement(ts, s.pos, t) == r.pos
    decreases Left(ts, s), 1
  {
    hide ParseStatementList, EndOfExpression, EndOfReference, EndOfStatements, CompleteExpression, CompleteReference,
      CompleteExpressions, CompleteStatements, Panic, Missing, AllScanned;
    var (s1, begins) := Match(ts, s, TBegin);
    if begins && StartsStatement(Cur(ts, s1.pos).kind) {
      StatementListSound(ts, s1);
    }
  }

  lemma {:induction false} StatementListSound(ts: seq<Token>, s: State)
    requires Clean(ts, s, ParseStatementList(ts, s).0)
    ensures var (r, ss) := ParseStatementList(ts, s);
      ss.Statements? && ss.list != [] && CompleteStatements(ss.list) && EndOfStatements(ts, s.pos, ss.list) == r.pos
    decreases Left(ts, s), 3
  {
    hide ParseStatement, EndOfStatement, CompleteExpression, CompleteReference, CompleteExpressions,
      CompleteStatement, Panic, AllScanned;
    StatementSound(ts, s);
    var (s1, _) := ParseStatement(ts, s);
    if Is(ts, s1.pos, TSemicolon) {
      StatementListSound(ts, Match(ts, s1, TSemicolon).0);
    }
  }

  lemma {:induction false} BranchesSound(ts: seq<Token>, s: State, e: Expression)
    requires Clean(ts, s, ParseBranches(ts, s, e).0)
    ensures var (r, t) := ParseBranches(ts, s, e);
      && t.If? && t.expression == e && CompleteStatement(t.thenPart) && CompleteStatement(t.elsePart)
      && EndOfStatement(ts, After(ts, EndOfStatement(ts, s.pos, t.thenPart), TElse), t.elsePart) == r.pos
    decreases Left(ts, s), 3
  {
    hide ParseStatement, EndOfStatement, CompleteStatement, Panic, Missing, AllScanned;
    var (s1, thenPart) := ParseStatement(ts, s);
    StatementSound(ts, s);
    StatementSound(ts, Match(ts, s1, TElse).0);
  }

  lemma {:induction false} IfSound(ts: seq<Token>, s: State)
    requires Is(ts, s.pos, TIf) && Clean(ts, s, ParseIf(ts, s).0)
    ensures var (r, t) := ParseIf(ts, s); CompleteStatement(t) && EndOfStatement(ts, s.pos, t) == r.pos
    decreases Left(ts, s), 1
  {
    hide ParseExpression, ParseBranches, EndOfExpression, EndOfStatement, CompleteExpression, CompleteStatement,
      Panic, Missing,
      AllScanned;
    var (s1, _) := Match(ts, s, TIf);
    var (s2, e) := ParseExpression(ts, s1);
    ExpressionSound(ts, s1);
    var (s3, _) := Match(ts, s2, TThen);
    var (r, t) := ParseBranches(ts, s3, e);
    assert ParseIf(ts, s) == (r, t);
    BranchesSound(ts, s3, e);
    IfSpells(ts, s.pos, t, s3.pos);
  }

  lemma IfSpells(ts: seq<Token>, i: nat, t: Statement, j: nat)
    requires t.If? && CompleteExpression(t.expression) && CompleteStatement(t.thenPart) && CompleteStatement(t.elsePart)
    requires After(ts, EndOfExpression(ts, After(ts, i, TIf), t.expression), TThen) == j
    ensures CompleteStatement(t)
    ensures EndOfStatement(ts, i, t) == EndOfStatement(ts, After(ts, EndOfStatement(ts, j, t.thenPart), TElse),
      t.elsePart)
  {
    hide EndOfExpression, CompleteExpression;
  }

  lemma {:induction false} WhileSound(ts: seq<Token>, s: State)
    requires Is(ts, s.pos, TWhile) && Clean(ts, s, ParseWhile(ts, s).0)
    ensures var (r, t) := ParseWhile(ts, s); CompleteStatement(t) && EndOfStatement(ts, s.pos, t) == r.pos
    decreases Left(ts, s), 1
  {
    hide ParseExpression, ParseStatement, EndOfExpression, CompleteExpression, Panic, Missing, AllScanned;
    var (s1, _) := Match(ts, s, TWhile);
    var (s2, e) := ParseExpression(ts, s1);
    ExpressionSound(ts, s1);
    var (s3, _) := Match(ts, s2, TDo);
    var (s4, doPart) := ParseStatement(ts, s3);
    StatementSound(ts, s3);
    assert ParseWhile(ts, s) == (s4, While(e, doPart));
  }

  lemma {:induction false} StatementRestSound(ts: seq<Token>, s: State, id: Identifier)
    requires PlainName(id) && Clean(ts, s, ParseStatementRest(ts, s, id).0)
    ensures var (r, t) := ParseStatementRest(ts, s, id);
      && t.AssignmentOrCall? && CompleteStatement(t) && t.id.Identifier? && t.id.name == id.name
      && (var j := EndOfSuffix(ts, s.pos, t.id);
          if t.value.NullExpression? then j else EndOfExpression(ts, After(ts, j, TAssign), t.value)) == r.pos
  {
    hide ParseExpression, ParseOptionalIndex, ParseExpressionList, EndOfExpression, EndOfIndex, EndOfArguments,
      CompleteExpression, CompleteExpressions, CompleteStatements, Panic, Report, AllScanned;
    if Is(ts, s.pos, TLParen) {
      ArgumentsSound(ts, s);
    } else {
      OptionalIndexSound(ts, s);
      var (s2, _) := ParseOptionalIndex(ts, s);
      if Is(ts, s2.pos, TAssign) {
        ExpressionSound(ts, Match(ts, s2, TAssign).0);
      }
    }
  }

  // ----- declarations -----

  lemma {:induction false} IdentifierListSound(ts: seq<Token>, s: State)
    requires Clean(ts, s, ParseIdentifierList(ts, s).0)
    ensures var (r, ids) := ParseIdentifierList(ts, s);
      && PlainNames(ids)
      && EndOfNames(ts, s.pos, ids.list) == r.pos && NamesAt(ts, s.pos) == |ids.list|
    decreases Left(ts, s), 1
  {
    hide Panic, AllScanned;
    var (s1, id) := ParseIdentifier(ts, s);
    if Is(ts, s1.pos, TComma) {
      IdentifierListSound(ts, Match(ts, s1, TComma).0);
    }
  }

  lemma StandardTypeSound(ts: seq<Token>, s: State)
    requires Clean(ts, s, ParseStandardType(ts, s).0)
    ensures var (r, t) := ParseStandardType(ts, s);
      t.Type? && !t.isArray && CompleteType(t) && EndOfStandardType(ts, s.pos, t.standardType) == r.pos
  {
  }

  lemma TypeSound(ts: seq<Token>, s: State)
    requires Clean(ts, s, ParseType(ts, s).0)
    ensures var (r, t) := ParseType(ts, s); CompleteType(t) && EndOfType(ts, s.pos, t) == r.pos
  {
    hide ParseStandardType, EndOfStandardType, Panic, Report, Missing, AllScanned;
    if Is(ts, s.pos, TArray) {
      var (s1, _) := Match(ts, s, TArray);
      var (s2, _) := Match(ts, s1, TLBracket);
      var (s3, from) := ParseNumber(ts, s2);
      var (s4, _) := Match(ts, s3, TRange);
      var (s5, to) := ParseNumber(ts, s4);
      var (s6, _) := Match(ts, s5, TRBracket);
      var (s7, _) := Match(ts, s6, TOf);
      StandardTypeSound(ts, s7);
      assert AfterNumber(ts, s2.pos, from) == s3.pos && AfterNumber(ts, s4.pos, to) == s5.pos;
    } else {
      StandardTypeSound(ts, s);
    }
  }

  /** A list of names declared with one type is a group. */
  lemma GroupSpelled(ts: seq<Token>, i: nat, ids: seq<Identifier>, j: nat, t: Type, k: nat, rest: seq<Declaration>)
    requires 0 < NamesAt(ts, i) == |ids| && EndOfNames(ts, i, ids) == j && Is(ts, j, TColon)
      && EndOfType(ts, j + 1, t) == k
    ensures var ds := Declare(ids, t) + rest;
      EndOfGroup(ts, i, ds) == k && ds[|ids|..] == rest && |ds| == |ids| + |rest|
  {
    hide EndOfType, EndOfNames, NamesAt;
    var ds := Declare(ids, t) + rest;
    assert Names(ds[..|ids|]) == ids;
    assert forall n :: 0 <= n < |ids| ==> ds[n].kind == t;
  }

  lemma DeclareComplete(ids: Identifiers, t: Type, rest: Declarations)
    requires PlainNames(ids) && CompleteType(t) && CompleteDeclarations(rest)
    ensures CompleteDeclarations(Declarations(Declare(ids.list, t) + ListOf(rest)))
  {
    hide CompleteType, PlainName;
    var ds := Declare(ids.list, t);
    forall d | d in ds + ListOf(rest) ensures PlainName(d.id) && CompleteType(d.kind) {
      if d in ds {
        var k :| 0 <= k < |ds| && ds[k] == d;
        assert ids.list[k] in ids.list;
      }
    }
  }

  lemma NoneComplete()
    ensures CompleteDeclarations(NoDeclarations)
  {
  }

  lemma VariablesSound(ts: seq<Token>, s: State, rest: seq<Declaration>)
    requires Clean(ts, s, ParseVariables(ts, s).0)
    ensures var (r, ds, ok) := ParseVariables(ts, s);
      && ok && r.pos > 0 && EndOfGroup(ts, s.pos, ds + rest) == r.pos - 1 && Is(ts, r.pos - 1, TSemicolon)
      && NamesAt(ts, s.pos) == |ds| > 0 && (ds + rest)[|ds|..] == rest
    ensures CompleteDeclarations(if rest == [] then NoDeclarations else Declarations(rest)) ==>
      CompleteDeclarations(Declarations(ParseVariables(ts, s).1 + rest))
  {
    hide ParseIdentifierList, ParseType, EndOfType, EndOfNames, NamesAt, EndOfGroup, CompleteType, PlainName, Declare,
      CompleteDeclarations, Panic, Skip, Missing, AllScanned;
    var (s1, ids) := ParseIdentifierList(ts, s);
    var (s2, _) := Match(ts, s1, TColon);
    var (s3, t) := ParseType(ts, s2);
    IdentifierListSound(ts, s);
    TypeSound(ts, s2);
    GroupSpelled(ts, s.pos, ids.list, s1.pos, t, s3.pos, rest);
    var others := if rest == [] then NoDeclarations else Declarations(rest);
    if CompleteDeclarations(others) {
      DeclareComplete(ids, t, others);
    }
  }

  lemma {:induction false} DeclarationsSound(ts: seq<Token>, s: State)
    requires Clean(ts, s, ParseDeclarations(ts, s).0)
    ensures var (r, ds) := ParseDeclarations(ts, s);
      CompleteDeclarations(ds) && EndOfDeclarations(ts, s.pos, ListOf(ds)) == r.pos
    decreases Left(ts, s)
  {
    hide ParseVariables, NamesAt, EndOfGroup, CompleteType, PlainName, CompleteDeclarations, AllScanned;
    if Is(ts, s.pos, TVar) {
      var (s0, _) := Match(ts, s, TVar);
      var (s1, declared, ok) := ParseVariables(ts, s0);
      var rest := ParseDeclarations(ts, s1).1;
      if ok {
        DeclarationsSound(ts, s1);
        NotEmpty(rest);
      }
      VariablesSound(ts, s0, ListOf(rest));
    } else {
      NoneComplete();
    }
  }

  lemma NotEmpty(ds: Declarations)
    requires CompleteDeclarations(ds)
    ensures ds == if ListOf(ds) == [] then NoDeclarations else Declarations(ListOf(ds))
  {
  }

  lemma {:induction false} ArgumentListSound(ts: seq<Token>, s: State)
    requires Clean(ts, s, ParseArgumentList(ts, s).0)
    ensures var (r, ds) := ParseArgumentList(ts, s);
      ds.Declarations? && CompleteDeclarations(ds) && EndOfArgumentList(ts, s.pos, ds.list) == r.pos
    decreases Left(ts, s), 1
  {
    hide ParseIdentifierList, ParseType, EndOfType, EndOfNames, NamesAt, EndOfGroup, CompleteType, PlainName,
      Declare, CompleteDeclarations, Report, AllScanned;
    var (s1, ids) := ParseIdentifierList(ts, s);
    var (s2, _) := Match(ts, s1, TColon);
    var (s3, t) := ParseType(ts, s2);
    IdentifierListSound(ts, s);
    TypeSound(ts, s2);
    if Is(ts, s3.pos, TSemicolon) {
      var (s4, _) := Match(ts, s3, TSemicolon);
      var rest := ParseArgumentList(ts, s4).1;
      ArgumentListSound(ts, s4);
      DeclareComplete(ids, t, rest);
      GroupSpelled(ts, s.pos, ids.list, s1.pos, t, s3.pos, ListOf(rest));
    } else {
      NoneComplete();
      DeclareComplete(ids, t, NoDeclarations);
      GroupSpelled(ts, s.pos, ids.list, s1.pos, t, s3.pos, []);
      assert Declare(ids.list, t) + [] == Declare(ids.list, t);
    }
  }

  // ----- subprograms and programs -----

  lemma ArgumentsOfHeadSound(ts: seq<Token>, s: State)
    requires Clean(ts, s, ParseArguments(ts, s).0)
    ensures var (r, ds) := ParseArguments(ts, s);
      && CompleteDeclarations(ds)
      && (if ds.Declarations? then After(ts, EndOfArgumentList(ts, After(ts, s.pos, TLParen), ds.list), TRParen)
        else s.pos) == r.pos
  {
    hide CompleteType, PlainName, ParseArgumentList, EndOfArgumentList, CompleteDeclarations, Report, AllScanned;
    if Is(ts, s.pos, TLParen) {
      ArgumentListSound(ts, Match(ts, s, TLParen).0);
    } else {
      NoneComplete();
    }
  }

  /** The head of a subprogram: all but its declarations and its body. */
  predicate CompleteHead(sp: Subprogram) {
    && sp.Subprogram? && PlainName(sp.name) && CompleteDeclarations(sp.arguments)
    && (if sp.isFunction then CompleteType(sp.returnType) && !sp.returnType.isArray else sp.returnType.NullType?)
  }

  lemma NamePartSound(ts: seq<Token>, s: State, isFunction: bool)
    requires Clean(ts, s, ParseSubprogramName(ts, s, isFunction).0)
    ensures var (r, sp, ok) := ParseSubprogramName(ts, s, isFunction);
      && ok && sp.Subprogram? && PlainName(sp.name) && CompleteDeclarations(sp.arguments)
      && !sp.isFunction && sp.returnType.NullType?
      && EndOfName(ts, s.pos, isFunction, sp.name, sp.arguments) == r.pos
  {
    hide CompleteType, ParseArguments, EndOfArgumentList, CompleteDeclarations, Panic, Report, Missing, AllScanned;
    var (s1, _) := Match(ts, s, if isFunction then TFunction else TProcedure);
    var (s2, name) := ParseIdentifier(ts, s1);
    ArgumentsOfHeadSound(ts, s2);
  }

  lemma ResultSound(ts: seq<Token>, s: State, sub: Subprogram)
    requires sub.Subprogram? && Clean(ts, s, ParseReturnType(ts, s, sub).0)
    ensures var (r, sp, failed) := ParseReturnType(ts, s, sub);
      && !failed && sp == sub.(isFunction := true, returnType := sp.returnType)
      && CompleteType(sp.returnType) && sp.returnType.Type? && !sp.returnType.isArray
      && EndOfResult(ts, s.pos, true, sp.returnType) == r.pos
  {
    hide ParseStandardType, EndOfStandardType, CompleteType, Panic, Report, Missing, AllScanned;
    StandardTypeSound(ts, Match(ts, s, TColon).0);
  }

  lemma HeadSound(ts: seq<Token>, s: State)
    requires Clean(ts, s, ParseSubprogramHead(ts, s).0)
    ensures var (r, sp) := ParseSubprogramHead(ts, s); CompleteHead(sp) && EndOfHead(ts, s.pos, sp) == r.pos
  {
    hide ParseSubprogramName, ParseReturnType, EndOfName, CompleteType, PlainName, CompleteDeclarations, Panic,
      Report, Missing,
      AllScanned;
    var isFunction := Is(ts, s.pos, TFunction);
    var (s1, sub, ok) := ParseSubprogramName(ts, s, isFunction);
    NamePartSound(ts, s, isFunction);
    if isFunction {
      ResultSound(ts, s1, sub);
    }
  }

  lemma SubprogramSound(ts: seq<Token>, s: State)
    requires Clean(ts, s, ParseSubprogramDeclaration(ts, s).0)
    ensures var (r, sp) := ParseSubprogramDeclaration(ts, s);
      sp.Subprogram? && CompleteSubprogram(sp) && EndOfSubprogram(ts, s.pos, sp) == r.pos
  {
    hide EndOfStandardType, CompleteType, PlainName, ParseDeclarations, ParseSubprogramHead, ParseCompoundStatement,
      EndOfDeclarations, EndOfArgumentList, EndOfStatement, CompleteDeclarations, CompleteStatement, Panic,
      AllScanned;
    var (s1, head) := ParseSubprogramHead(ts, s);
    HeadSound(ts, s);
    var (s2, ds) := ParseDeclarations(ts, s1);
    DeclarationsSound(ts, s1);
    CompoundSound(ts, s2);
    var (r, sp) := ParseSubprogramDeclaration(ts, s);
    assert EndOfHead(ts, s.pos, sp) == EndOfHead(ts, s.pos, head);
  }

  lemma {:induction false} SubprogramsSound(ts: seq<Token>, s: State)
    requires Clean(ts, s, ParseSubprogramDeclarations(ts, s).0)
    ensures var (r, sps) := ParseSubprogramDeclarations(ts, s);
      CompleteSubprograms(sps) && EndOfSubprograms(ts, s.pos, SubprogramList(sps)) == r.pos
    decreases Left(ts, s)
  {
    hide CompleteType, PlainName, ParseSubprogramDeclaration, EndOfSubprogram, CompleteDeclarations,
      CompleteSubprogram, CompleteSubprograms, CompleteStatement, Missing, AllScanned;
    if Is(ts, s.pos, TFunction) || Is(ts, s.pos, TProcedure) {
      var (s1, sp) := ParseSubprogramDeclaration(ts, s);
      SubprogramSound(ts, s);
      var (s2, _) := Match(ts, s1, TSemicolon);
      SubprogramsSound(ts, s2);
      var rest := ParseSubprogramDeclarations(ts, s2).1;
      MoreSubprograms(sp, rest);
      assert ([sp] + SubprogramList(rest))[1..] == SubprogramList(rest);
    } else {
      NoMoreSubprograms();
    }
  }

  lemma NoMoreSubprograms()
    ensures CompleteSubprograms(NoSubprograms)
  {
  }

  lemma MoreSubprograms(sp: Subprogram, rest: Subprograms)
    requires CompleteSubprogram(sp) && CompleteSubprograms(rest)
    ensures CompleteSubprograms(Subprograms([sp] + SubprogramList(rest)))
  {
    hide CompleteSubprogram;
  }

  lemma BlockSound(ts: seq<Token>, s: State, name: Identifier, files: Identifiers)
    requires Clean(ts, s, ParseBlock(ts, s, name, files).0)
    requires PlainName(name) && PlainNames(files)
    ensures var (r, p) := ParseBlock(ts, s, name, files);
      && p.Program? && p.programName == name && p.inputOutput == files && CompleteProgram(p)
      && (var j := EndOfDeclarations(ts, s.pos, ListOf(p.variables));
          var k := EndOfSubprograms(ts, j, SubprogramList(p.functions));
          After(ts, EndOfStatement(ts, k, p.mainProgram), TPeriod)) == r.pos
  {
    hide CompleteType, PlainName, ParseDeclarations, ParseSubprogramDeclarations, ParseCompoundStatement,
      EndOfDeclarations, EndOfSubprograms, EndOfStatement, CompleteDeclarations, CompleteSubprogram,
      CompleteSubprograms, CompleteStatement, Panic, Missing, AllScanned;
    var (s1, _) := ParseDeclarations(ts, s);
    DeclarationsSound(ts, s);
    var (s2, _) := ParseSubprogramDeclarations(ts, s1);
    SubprogramsSound(ts, s1);
    CompoundSound(ts, s2);
  }

  lemma IdentifierSound(ts: seq<Token>, s: State)
    requires Clean(ts, s, ParseIdentifier(ts, s).0)
    ensures var (r, id) := ParseIdentifier(ts, s);
      id.Identifier? && PlainName(id) && r == s.(pos := s.pos + 1) && AfterName(ts, s.pos, id.name) == r.pos
  {
  }

  lemma HeadingSound(ts: seq<Token>, s: State)
    requires Clean(ts, s, ParseHeading(ts, s).0)
    ensures var (r, name, files, ok) := ParseHeading(ts, s);
      && ok && PlainName(name) && PlainNames(files) && files.Identifiers?
      && EndOfHeading(ts, s.pos, name, files) == r.pos
  {
    hide After, AfterName, Match, Cur, Left, PlainNames, ParseIdentifierList, ParseIdentifier, EndOfNames, PlainName,
      Panic, Missing, AllScanned;
    assert ParseHeading(ts, s).3;
    var (s1, _) := Match(ts, s, TProgram);
    var (s2, name) := ParseIdentifier(ts, s1);
    IdentifierSound(ts, s1);
    var (s3, _) := Match(ts, s2, TLParen);
    var (s4, files) := ParseIdentifierList(ts, s3);
    IdentifierListSound(ts, s3);
    assert EndOfNames(ts, s3.pos, files.list) == s4.pos;
  }

  /** Without errors the result is complete and the tokens up to the final period spell it. */
  lemma ProgramSound(ts: seq<Token>, s: State)
    requires Clean(ts, s, ParseProgram(ts, s).0)
    ensures var (r, p) := ParseProgram(ts, s); CompleteProgram(p) && EndOfProgram(ts, s.pos, p) == r.pos
  {
    hide ParseIdentifierList, ParseIdentifier, CompleteType, PlainName, ParseBlock, EndOfDeclarations,
      EndOfSubprograms, EndOfStatement, EndOfHeading, CompleteDeclarations, CompleteSubprogram, CompleteSubprograms,
      CompleteStatement, CompleteProgram, Panic, Missing, AllScanned;
    var (s1, name, files, ok) := ParseHeading(ts, s);
    HeadingSound(ts, s);
    BlockSound(ts, s1, name, files);
  }
}
