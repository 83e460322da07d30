/** Every spelling of a complete tree is accepted without errors, and gives back that tree. */
module ParserComplete {
  import opened Ast
  import opened Tokens
  import opened Parsing
  import opened Grammar

  // ----- tokens that cannot continue what has just been read -----

  predicate EndsFactor(k: Kind) {
    !k.TLBracket? && !k.TLParen?
  }

  predicate EndsTerm(k: Kind) {
    EndsFactor(k) && !k.TMulOp?
  }

  predicate EndsSum(k: Kind) {
    EndsTerm(k) && !k.TAddOp?
  }

  predicate EndsExpression(k: Kind) {
    EndsSum(k) && !k.TRelOp?
  }

  predicate EndsStatement(k: Kind) {
    EndsExpression(k) && !k.TAssign?
  }

  /** The state after an error-free step to position `j`. */
  function To(s: State, j: int): State
    requires j >= 0
  {
    s.(pos := j)
  }

  // ----- expressions -----

  lemma {:induction false} ExpressionAccepted(ts: seq<Token>, s: State, e: Expression)
    requires !Raised(s) && CompleteExpression(e) && EndOfExpression(ts, s.pos, e) >= 0
    requires EndsExpression(Cur(ts, EndOfExpression(ts, s.pos, e)).kind)
    ensures ParseExpression(ts, s) == (To(s, EndOfExpression(ts, s.pos, e)), e)
    decreases e, 2
  {
    hide ParseSimpleExpression, EndOfSimple, CompleteTerm, CompleteFactor, CompleteReference, CompleteExpressions,
      Consistent;
    if e.RelOp? {
      var j := EndOfSimple(ts, s.pos, e.lhs);
      SimpleAccepted(ts, s, e.lhs);
      SimpleAccepted(ts, To(s, j + 1), e.rhs);
    } else {
      SimpleAccepted(ts, s, e);
    }
  }

  lemma {:induction false} SimpleAccepted(ts: seq<Token>, s: State, e: Expression)
    requires !Raised(s) && e.AddOp? && CompleteSum(e) && EndOfSimple(ts, s.pos, e) >= 0
    requires EndsSum(Cur(ts, EndOfSimple(ts, s.pos, e)).kind)
    ensures ParseSimpleExpression(ts, s) == (To(s, EndOfSimple(ts, s.pos, e)), e)
    decreases e, 1
  {
    hide ParseSum, ParseTerm, EndOfTerm, CompleteExpression, CompleteTerm, CompleteFactor, CompleteReference,
      CompleteExpressions, Panic, Consistent;
    var s1 := To(s, AfterSign(ts, s.pos, e.negated));
    var j := EndOfTerm(ts, s1.pos, e.term);
    TermAccepted(ts, s1, e.term);
    SumAccepted(ts, To(s, j), e);
  }

  /** The rest of a sum, after its first term. */
  lemma {:induction false} SumAccepted(ts: seq<Token>, s: State, e: Expression)
    requires !Raised(s) && e.AddOp? && CompleteSum(e)
    requires var j := if e.rest.NullExpression? then s.pos as int
      else EndOfSum(ts, AfterOp(ts, s.pos, TAddOp, e.addOp), e.rest);
      j >= 0 && EndsSum(Cur(ts, j).kind)
    ensures var j := if e.rest.NullExpression? then s.pos as int
      else EndOfSum(ts, AfterOp(ts, s.pos, TAddOp, e.addOp), e.rest);
      ParseSum(ts, s) == (To(s, j), e.addOp, e.rest)
    decreases e, 0
  {
    hide ParseTerm, EndOfTerm, CompleteExpression, CompleteTerm, CompleteFactor, CompleteReference,
      CompleteExpressions, Consistent;
    if !e.rest.NullExpression? {
      var s1 := To(s, s.pos + 1);
      var j := EndOfTerm(ts, s1.pos, e.rest.term);
      TermAccepted(ts, s1, e.rest.term);
      SumAccepted(ts, To(s, j), e.rest);
    }
  }

  lemma {:induction false} TermAccepted(ts: seq<Token>, s: State, t: Term)
    requires !Raised(s) && CompleteTerm(t) && EndOfTerm(ts, s.pos, t) >= 0
    requires EndsTerm(Cur(ts, EndOfTerm(ts, s.pos, t)).kind)
    ensures ParseTerm(ts, s) == (To(s, EndOfTerm(ts, s.pos, t)), t)
    decreases t
  {
    hide ParseFactor, EndOfFactor, CompleteExpression, CompleteFactor, CompleteReference, CompleteExpressions, Panic,
      Consistent;
    var j := EndOfFactor(ts, s.pos, t.factor);
    FactorAccepted(ts, s, t.factor);
    if !t.rest.NullTerm? {
      TermAccepted(ts, To(s, j + 1), t.rest);
    }
  }

  lemma {:induction false} FactorAccepted(ts: seq<Token>, s: State, f: Factor)
    requires !Raised(s) && CompleteFactor(f) && EndOfFactor(ts, s.pos, f) >= 0
    requires EndsFactor(Cur(ts, EndOfFactor(ts, s.pos, f)).kind)
    ensures ParseFactor(ts, s) == (To(s, EndOfFactor(ts, s.pos, f)), f)
    decreases f
  {
    hide CompleteFactor, EndOfFactor, ParseFactor, EndsFactor, Cur;
    assert !f.NullFactor? by { FactorThere(f); }
    match f
    case NumberFactor(_) => NumberAccepted(ts, s, f);
    case NotFactor(_) => NotAccepted(ts, s, f);
    case ParenFactor(_) => ParenAccepted(ts, s, f);
    case IdFactor(_) => NameAccepted(ts, s, f);
  }

  lemma FactorThere(f: Factor)
    requires CompleteFactor(f)
    ensures !f.NullFactor?
  {
  }

  lemma NumberAccepted(ts: seq<Token>, s: State, f: Factor)
    requires !Raised(s) && f.NumberFactor? && CompleteFactor(f) && EndOfFactor(ts, s.pos, f) >= 0
    ensures ParseFactor(ts, s) == (To(s, EndOfFactor(ts, s.pos, f)), f)
  {
    hide ParseExpression, ParseFactorRest, EndOfExpression, EndOfSuffix, CompleteExpression, CompleteReference,
      CompleteExpressions, Panic, Report, Missing, Consistent;
  }

  lemma {:induction false} NotAccepted(ts: seq<Token>, s: State, f: Factor)
    requires !Raised(s) && f.NotFactor? && CompleteFactor(f) && EndOfFactor(ts, s.pos, f) >= 0
    requires EndsFactor(Cur(ts, EndOfFactor(ts, s.pos, f)).kind)
    ensures ParseFactor(ts, s) == (To(s, EndOfFactor(ts, s.pos, f)), f)
    decreases f, 0
  {
    hide ParseExpression, ParseFactorRest, EndOfExpression, EndOfSuffix, CompleteExpression, CompleteReference,
      CompleteExpressions, Panic, Report, Missing, Consistent;
    FactorAccepted(ts, To(s, s.pos + 1), f.factor);
  }

  lemma {:induction false} ParenAccepted(ts: seq<Token>, s: State, f: Factor)
    requires !Raised(s) && f.ParenFactor? && CompleteFactor(f) && EndOfFactor(ts, s.pos, f) >= 0
    ensures ParseFactor(ts, s) == (To(s, EndOfFactor(ts, s.pos, f)), f)
    decreases f, 0
  {
    hide ParseExpression, ParseFactorRest, EndOfExpression, EndOfSuffix, CompleteExpression, CompleteReference,
      CompleteExpressions, Panic, Report, Missing, Consistent;
    ExpressionAccepted(ts, To(s, s.pos + 1), f.expression);
  }

  lemma {:induction false} NameAccepted(ts: seq<Token>, s: State, f: Factor)
    requires !Raised(s) && f.IdFactor? && CompleteFactor(f) && EndOfFactor(ts, s.pos, f) >= 0
    requires EndsFactor(Cur(ts, EndOfFactor(ts, s.pos, f)).kind)
    ensures ParseFactor(ts, s) == (To(s, EndOfFactor(ts, s.pos, f)), f)
    decreases f, 0
  {
    hide ParseExpression, ParseFactorRest, EndOfExpression, EndOfSuffix, CompleteExpression, CompleteReference,
      CompleteExpressions, Panic, Report, Missing, Consistent;
    SuffixAccepted(ts, To(s, s.pos + 1), f.id);
  }

  lemma {:induction false} SuffixAccepted(ts: seq<Token>, s: State, id: Identifier)
    requires !Raised(s) && id.Identifier? && CompleteReference(id) && EndOfSuffix(ts, s.pos, id) >= 0
    requires EndsFactor(Cur(ts, EndOfSuffix(ts, s.pos, id)).kind)
    ensures ParseFactorRest(ts, s, Identifier(id.name, NullExpression, NoParameters))
      == (To(s, EndOfSuffix(ts, s.pos, id)), id)
    decreases id
  {
    hide ParseExpressionList, ParseOptionalIndex, EndOfExpression, EndOfArguments, CompleteExpression,
      CompleteExpressions, Panic, Missing, Consistent;
    if id.parameters.Parameters? {
      ArgumentsAccepted(ts, To(s, s.pos + 1), id.parameters.list);
    } else if !id.index.NullExpression? {
      IndexAccepted(ts, s, id.index);
    }
  }

  lemma {:induction false} IndexAccepted(ts: seq<Token>, s: State, e: Expression)
    requires !Raised(s) && CompleteExpression(e) && !e.NullExpression? && EndOfIndex(ts, s.pos, e) >= 0
    ensures Is(ts, s.pos, TLBracket) && ParseOptionalIndex(ts, s) == (To(s, EndOfIndex(ts, s.pos, e)), e)
    decreases e, 3
  {
    hide ParseExpression, EndOfExpression, CompleteExpression, Panic, Missing, Consistent;
    ExpressionAccepted(ts, To(s, s.pos + 1), e);
  }

  /** Possibly empty arguments before a closing parenthesis. */
  lemma {:induction false} ArgumentsAccepted(ts: seq<Token>, s: State, es: seq<Expression>)
    requires !Raised(s) && CompleteExpressions(es) && EndOfArguments(ts, s.pos, es) >= 0
    requires Is(ts, EndOfArguments(ts, s.pos, es), TRParen)
    ensures ParseExpressionList(ts, s)
         == (To(s, EndOfArguments(ts, s.pos, es)), if es == [] then NoParameters else Parameters(es))
    decreases es
  {
    hide ParseExpression, EndOfExpression, CompleteExpression, Consistent;
    if es != [] {
      var j := EndOfExpression(ts, s.pos, es[0]);
      ExpressionAccepted(ts, s, es[0]);
      if Is(ts, j, TComma) {
        ArgumentsAccepted(ts, To(s, j + 1), es[1..]);
        assert [es[0]] + es[1..] == es;
      } else {
        assert [es[0]] + [] == es;
      }
    }
  }

  // ----- statements -----

  lemma {:induction false} StatementAccepted(ts: seq<Token>, s: State, t: Statement)
    requires !Raised(s) && (s.code.NoError? || Flat(t)) && CompleteStatement(t) && EndOfStatement(ts, s.pos, t) >= 0
    requires EndsStatement(Cur(ts, EndOfStatement(ts, s.pos, t)).kind)
    ensures ParseStatement(ts, s) == (To(s, EndOfStatement(ts, s.pos, t)), t)
    decreases t, 2
  {
    hide ParseStatementRest, ParseIf, ParseWhile, ParseCompoundStatement, EndOfExpression, EndOfSuffix,
      EndOfStatements, CompleteExpression, CompleteExpressions, CompleteStatements, Panic, Report, Consistent;
    match t
    case AssignmentOrCall(id, value) =>
      AssignmentAccepted(ts, To(s, s.pos + 1), t);
    case Compound(_) =>
      CompoundAccepted(ts, s, t);
    case If(_, _, _) =>
      IfAccepted(ts, s, t);
    case While(_, _) =>
      WhileAccepted(ts, s, t);
  }

  lemma {:induction false} BranchesAccepted(ts: seq<Token>, s: State, t: Statement)
    requires !Raised(s) && t.If? && (s.code.NoError? || (Flat(t.thenPart) && Flat(t.elsePart)))
    requires CompleteStatement(t.thenPart) && CompleteStatement(t.elsePart)
    requires var j := EndOfStatement(ts, After(ts, EndOfStatement(ts, s.pos, t.thenPart), TElse), t.elsePart);
      j >= 0 && EndsStatement(Cur(ts, j).kind)
    ensures var j := EndOfStatement(ts, After(ts, EndOfStatement(ts, s.pos, t.thenPart), TElse), t.elsePart);
      ParseBranches(ts, s, t.expression) == (To(s, j), t)
    decreases t, 0
  {
    hide ParseStatement, EndOfStatement, CompleteStatement, Panic, Missing, Consistent, Moves;
    StatementAccepted(ts, s, t.thenPart);
    StatementAccepted(ts, To(s, EndOfStatement(ts, s.pos, t.thenPart) + 1), t.elsePart);
  }

  lemma {:induction false} IfAccepted(ts: seq<Token>, s: State, t: Statement)
    requires !Raised(s) && (s.code.NoError? || Flat(t)) && t.If? && CompleteStatement(t)
      && EndOfStatement(ts, s.pos, t) >= 0
    requires EndsStatement(Cur(ts, EndOfStatement(ts, s.pos, t)).kind)
    ensures Is(ts, s.pos, TIf) && ParseIf(ts, s) == (To(s, EndOfStatement(ts, s.pos, t)), t)
    decreases t, 1
  {
    hide ParseExpression, ParseBranches, EndOfExpression, CompleteExpression, Panic, Missing, Consistent, Moves;
    var s1 := To(s, s.pos + 1);
    ExpressionAccepted(ts, s1, t.expression);
    BranchesAccepted(ts, To(s, EndOfExpression(ts, s1.pos, t.expression) + 1), t);
  }

  lemma {:induction false} WhileAccepted(ts: seq<Token>, s: State, t: Statement)
    requires !Raised(s) && (s.code.NoError? || Flat(t)) && t.While? && CompleteStatement(t)
      && EndOfStatement(ts, s.pos, t) >= 0
    requires EndsStatement(Cur(ts, EndOfStatement(ts, s.pos, t)).kind)
    ensures Is(ts, s.pos, TWhile) && ParseWhile(ts, s) == (To(s, EndOfStatement(ts, s.pos, t)), t)
    decreases t, 1
  {
    hide ParseExpression, ParseStatement, EndOfExpression, CompleteExpression, Moves, Consistent, Skip;
    var s1 := To(s, s.pos + 1);
    ExpressionAccepted(ts, s1, t.expression);
    StatementAccepted(ts, To(s, EndOfExpression(ts, s1.pos, t.expression) + 1), t.doPart);
  }

  lemma {:induction false} CompoundAccepted(ts: seq<Token>, s: State, t: Statement)
    requires s.code.NoError? && t.Compound? && CompleteStatement(t) && EndOfStatement(ts, s.pos, t) >= 0
    ensures ParseCompoundStatement(ts, s) == (To(s, EndOfStatement(ts, s.pos, t)), t)
    decreases t, 0
  {
    hide ParseStatementList, EndOfExpression, EndOfReference, EndOfStatements, CompleteExpression, CompleteReference,
      CompleteExpressions, CompleteStatements, Panic, Missing, Consistent;
    if t.statements.Statements? {
      StatementsAccepted(ts, To(s, s.pos + 1), t.statements.list);
    }
  }

  lemma {:induction false} StatementsAccepted(ts: seq<Token>, s: State, ss: seq<Statement>)
    requires s.code.NoError? && ss != [] && CompleteStatements(ss) && EndOfStatements(ts, s.pos, ss) >= 0
    requires var j := EndOfStatements(ts, s.pos, ss); EndsStatement(Cur(ts, j).kind) && !Is(ts, j, TSemicolon)
    ensures ParseStatementList(ts, s) == (To(s, EndOfStatements(ts, s.pos, ss)), Statements(ss))
    decreases ss
  {
    hide ParseStatement, EndOfStatement, CompleteExpression, CompleteReference, CompleteExpressions,
      CompleteStatement, Panic, Consistent;
    StatementAccepted(ts, s, ss[0]);
    if |ss| > 1 {
      StatementsAccepted(ts, To(s, EndOfStatement(ts, s.pos, ss[0]) + 1), ss[1..]);
      assert [ss[0]] + ss[1..] == ss;
    } else {
      assert [ss[0]] + [] == ss;
    }
  }

  lemma NoIndex(ts: seq<Token>, s: State)
    requires !Is(ts, s.pos, TLBracket)
    ensures ParseOptionalIndex(ts, s) == (s, NullExpression)
  {
  }

  /** Where what follows the name ends. */
  function EndOfAssignment(ts: seq<Token>, i: int, t: Statement): int
    requires t.AssignmentOrCall? && t.id.Identifier?
  {
    var j := EndOfSuffix(ts, i, t.id);
    if t.value.NullExpression? then j else EndOfExpression(ts, After(ts, j, TAssign), t.value)
  }

  /** What follows the name that begins the statement. */
  lemma AssignmentAccepted(ts: seq<Token>, s: State, t: Statement)
    requires !Raised(s) && t.AssignmentOrCall? && CompleteStatement(t) && t.id.Identifier?
    requires EndOfAssignment(ts, s.pos, t) >= 0 && EndsStatement(Cur(ts, EndOfAssignment(ts, s.pos, t)).kind)
    ensures ParseStatementRest(ts, s, Identifier(t.id.name, NullExpression, NoParameters))
      == (To(s, EndOfAssignment(ts, s.pos, t)), t)
  {
    if t.id.parameters.Parameters? {
      CallAccepted(ts, s, t);
    } else {
      StoreAccepted(ts, s, t);
    }
  }

  lemma CallAccepted(ts: seq<Token>, s: State, t: Statement)
    requires !Raised(s) && t.AssignmentOrCall? && CompleteStatement(t) && t.id.Identifier?
      && t.id.parameters.Parameters?
    requires EndOfAssignment(ts, s.pos, t) >= 0
    ensures ParseStatementRest(ts, s, Identifier(t.id.name, NullExpression, NoParameters))
      == (To(s, EndOfAssignment(ts, s.pos, t)), t)
  {
    hide ParseExpression, ParseOptionalIndex, ParseExpressionList, EndOfExpression, EndOfArguments,
      CompleteExpression, CompleteExpressions, CompleteStatements, Panic, Report, Consistent;
    ArgumentsAccepted(ts, To(s, s.pos + 1), t.id.parameters.list);
  }

  /** A name without arguments, with its index if it has one. */
  lemma TargetAccepted(ts: seq<Token>, s: State, id: Identifier)
    requires !Raised(s) && CompleteReference(id) && id.parameters.NoParameters? && EndOfSuffix(ts, s.pos, id) >= 0
    requires EndsFactor(Cur(ts, EndOfSuffix(ts, s.pos, id)).kind)
    ensures ParseOptionalParameters(ts, s) == (s, NoParameters)
    ensures ParseOptionalIndex(ts, s) == (To(s, EndOfSuffix(ts, s.pos, id)), id.index)
  {
    hide ParseExpression, ParseOptionalIndex, ParseExpressionList, EndOfExpression, EndOfArguments,
      CompleteExpression, CompleteExpressions, Moves, Consistent;
    if id.index.NullExpression? {
      NoIndex(ts, s);
    } else {
      IndexAccepted(ts, s, id.index);
    }
  }

  lemma StoreAccepted(ts: seq<Token>, s: State, t: Statement)
    requires !Raised(s) && t.AssignmentOrCall? && CompleteStatement(t) && t.id.Identifier?
      && t.id.parameters.NoParameters?
    requires EndOfAssignment(ts, s.pos, t) >= 0 && EndsStatement(Cur(ts, EndOfAssignment(ts, s.pos, t)).kind)
    ensures ParseStatementRest(ts, s, Identifier(t.id.name, NullExpression, NoParameters))
      == (To(s, EndOfAssignment(ts, s.pos, t)), t)
  {
    hide ParseExpression, ParseOptionalParameters, ParseOptionalIndex, EndOfSuffix, EndOfExpression,
      CompleteExpression, CompleteExpressions, CompleteStatements, Skip, Moves, Consistent;
    TargetAccepted(ts, s, t.id);
    if !t.value.NullExpression? {
      ExpressionAccepted(ts, To(s, EndOfSuffix(ts, s.pos, t.id) + 1), t.value);
    }
  }

  // ----- declarations -----

  lemma {:induction false} NamesAccepted(ts: seq<Token>, s: State, ids: seq<Identifier>)
    requires !Raised(s) && PlainNames(Identifiers(ids)) && EndOfNames(ts, s.pos, ids) >= 0
    requires !Is(ts, EndOfNames(ts, s.pos, ids), TComma)
    ensures ParseIdentifierList(ts, s) == (To(s, EndOfNames(ts, s.pos, ids)), Identifiers(ids))
    decreases |ids|
  {
    hide Panic, Report, Consistent;
    assert ids[0] in ids;
    if |ids| > 1 {
      NamesAccepted(ts, To(s, s.pos + 2), ids[1..]);
      assert [ids[0]] + ids[1..] == ids;
    } else {
      assert [ids[0]] + [] == ids;
    }
  }

  lemma StandardTypeAccepted(ts: seq<Token>, s: State, n: NumberType)
    requires !Raised(s) && EndOfStandardType(ts, s.pos, n) >= 0
    ensures ParseStandardType(ts, s) == (To(s, EndOfStandardType(ts, s.pos, n)), Type(n, false, NullNumber, NullNumber))
    ensures !Is(ts, s.pos, TArray)
  {
  }

  lemma TypeAccepted(ts: seq<Token>, s: State, t: Type)
    requires !Raised(s) && CompleteType(t) && EndOfType(ts, s.pos, t) >= 0
    ensures ParseType(ts, s) == (To(s, EndOfType(ts, s.pos, t)), t)
  {
    hide After, Cur, Moves, ParseStandardType, EndOfStandardType, Panic, Report, Missing, Consistent;
    if t.isArray {
      StandardTypeAccepted(ts, To(s, s.pos + 7), t.standardType);
      assert ParseNumber(ts, To(s, s.pos + 2)) == (To(s, s.pos + 3), t.startsAt);
      assert ParseNumber(ts, To(s, s.pos + 4)) == (To(s, s.pos + 5), t.endsAt);
    } else {
      StandardTypeAccepted(ts, s, t.standardType);
    }
  }

  /** The first `n` declarations, all of type `t`, and the others. */
  lemma GroupParts(ds: seq<Declaration>, n: nat, t: Type)
    requires CompleteDeclarations(Declarations(ds)) && 0 < n <= |ds| && forall k :: 0 <= k < n ==> ds[k].kind == t
    ensures PlainNames(Identifiers(Names(ds[..n]))) && CompleteType(t) && Declare(Names(ds[..n]), t) == ds[..n]
    ensures CompleteDeclarations(if n < |ds| then Declarations(ds[n..]) else NoDeclarations)
  {
    hide CompleteType, PlainName;
    var ids := Names(ds[..n]);
    forall id | id in ids ensures PlainName(id) {
      var k :| 0 <= k < n && ids[k] == id;
      assert ds[k] in ds;
    }
    assert ds[0] in ds;
  }

  /** The names of a group, its type, and the declarations they stand for. */
  lemma GroupAccepted(ts: seq<Token>, s: State, ds: seq<Declaration>) returns (j: nat, t: Type)
    requires !Raised(s) && CompleteDeclarations(Declarations(ds)) && EndOfGroup(ts, s.pos, ds) >= 0
    ensures var n := NamesAt(ts, s.pos);
      && 0 < n <= |ds| && t.Type?
      && ParseIdentifierList(ts, s) == (To(s, j), Identifiers(Names(ds[..n]))) && Is(ts, j, TColon)
      && ParseType(ts, To(s, j + 1)) == (To(s, EndOfGroup(ts, s.pos, ds)), t)
      && Declare(Names(ds[..n]), t) == ds[..n] && CompleteDeclarations(if n < |ds| then Declarations(ds[n..])
        else NoDeclarations)
  {
    hide PlainNames, CompleteType, CompleteDeclarations, NamesAt, EndOfNames, EndOfType, ParseIdentifierList,
      ParseType, Names, Declare;
    var n := NamesAt(ts, s.pos);
    t := ds[0].kind;
    assert forall k :: 0 <= k < n ==> ds[k].kind == t;
    GroupParts(ds, n, t);
    j := EndOfNames(ts, s.pos, Names(ds[..n]));
    NamesAccepted(ts, s, Names(ds[..n]));
    TypeAccepted(ts, To(s, j + 1), t);
    assert t.Type? by { TypeOfComplete(t); }
  }

  lemma TypeOfComplete(t: Type)
    requires CompleteType(t)
    ensures t.Type?
  {
  }

  lemma VariablesAccepted(ts: seq<Token>, s: State, ds: seq<Declaration>)
    requires !Raised(s) && CompleteDeclarations(Declarations(ds)) && EndOfGroup(ts, s.pos, ds) >= 0
    requires Is(ts, EndOfGroup(ts, s.pos, ds), TSemicolon)
    ensures var n := NamesAt(ts, s.pos);
      && 0 < n <= |ds| && ParseVariables(ts, s) == (To(s, EndOfGroup(ts, s.pos, ds) + 1), ds[..n], true)
      && CompleteDeclarations(if n < |ds| then Declarations(ds[n..]) else NoDeclarations)
  {
    hide Cur, Left, Moves, ParseIdentifierList, ParseType, NamesAt, EndOfGroup, CompleteType, PlainName, Declare,
      Names, CompleteDeclarations, Panic, Skip, Missing, Consistent;
    var j, t := GroupAccepted(ts, s, ds);
  }

  lemma {:induction false} DeclarationsAccepted(ts: seq<Token>, s: State, ds: Declarations)
    requires !Raised(s) && CompleteDeclarations(ds) && EndOfDeclarations(ts, s.pos, ListOf(ds)) >= 0
    requires !Is(ts, EndOfDeclarations(ts, s.pos, ListOf(ds)), TVar)
    ensures ParseDeclarations(ts, s) == (To(s, EndOfDeclarations(ts, s.pos, ListOf(ds))), ds)
    decreases |ListOf(ds)|
  {
    hide ParseVariables, ParseDeclarations, EndOfDeclarations, CompleteDeclarations, NamesAt, EndOfGroup, Is, ListOf;
    if ds.NoDeclarations? {
      NoneAccepted(ts, s, ds);
    } else {
      DeclarationsStart(ts, s.pos, ds);
      var s0 := s.(pos := s.pos + 1);
      var n := NamesAt(ts, s0.pos);
      VariablesAccepted(ts, s0, ds.list);
      var k := EndOfGroup(ts, s0.pos, ds.list);
      var rest := if n < |ds.list| then Declarations(ds.list[n..]) else NoDeclarations;
      assert ListOf(rest) == ds.list[n..] by { ListOfRest(ds.list, n); }
      DeclarationsAccepted(ts, s.(pos := k + 1), rest);
      DeclarationsStep(ts, s);
      assert ds.list[..n] + ds.list[n..] == ds.list;
    }
  }

  lemma NoneAccepted(ts: seq<Token>, s: State, ds: Declarations)
    requires ds.NoDeclarations? && EndOfDeclarations(ts, s.pos, ListOf(ds)) >= 0
    requires !Is(ts, EndOfDeclarations(ts, s.pos, ListOf(ds)), TVar)
    ensures EndOfDeclarations(ts, s.pos, ListOf(ds)) == s.pos && ParseDeclarations(ts, s) == (s, ds)
  {
  }

  lemma ListOfRest(ds: seq<Declaration>, n: nat)
    requires n <= |ds|
    ensures ListOf(if n < |ds| then Declarations(ds[n..]) else NoDeclarations) == ds[n..]
  {
  }

  lemma DeclarationsStart(ts: seq<Token>, i: nat, ds: Declarations)
    requires ds.Declarations? && CompleteDeclarations(ds) && EndOfDeclarations(ts, i, ListOf(ds)) >= 0
    ensures Is(ts, i, TVar) && ds.list != [] && ListOf(ds) == ds.list
    ensures var k := EndOfGroup(ts, i + 1, ds.list);
      && k >= 0 && Is(ts, k, TSemicolon) && NamesAt(ts, i + 1) <= |ds.list|
      && EndOfDeclarations(ts, i, ds.list) == EndOfDeclarations(ts, k + 1, ds.list[NamesAt(ts, i + 1)..])
  {
    hide EndOfGroup, NamesAt;
  }

  lemma {:induction false} ArgumentListAccepted(ts: seq<Token>, s: State, ds: seq<Declaration>)
    requires !Raised(s) && CompleteDeclarations(Declarations(ds)) && EndOfArgumentList(ts, s.pos, ds) >= 0
    requires !Is(ts, EndOfArgumentList(ts, s.pos, ds), TSemicolon)
    ensures ParseArgumentList(ts, s) == (To(s, EndOfArgumentList(ts, s.pos, ds)), Declarations(ds))
    decreases |ds|
  {
    hide ParseIdentifierList, ParseType, NamesAt, EndOfGroup, CompleteType, PlainName, Declare, Names,
      CompleteDeclarations, Report, Consistent;
    var n := NamesAt(ts, s.pos);
    var j, t := GroupAccepted(ts, s, ds);
    var k := EndOfGroup(ts, s.pos, ds);
    if n < |ds| {
      ArgumentListAccepted(ts, To(s, k + 1), ds[n..]);
      assert ds[..n] + ds[n..] == ds;
    } else {
      assert ds[..n] + [] == ds;
    }
  }

  // ----- subprograms and programs -----

  lemma ArgumentsOfHeadAccepted(ts: seq<Token>, s: State, ds: Declarations)
    requires !Raised(s) && CompleteDeclarations(ds)
    requires var j := if ds.Declarations? then After(ts, EndOfArgumentList(ts, After(ts, s.pos, TLParen), ds.list),
      TRParen) else s.pos as int;
      j >= 0 && (ds.NoDeclarations? ==> !Is(ts, j, TLParen))
    ensures var j := if ds.Declarations? then After(ts, EndOfArgumentList(ts, After(ts, s.pos, TLParen), ds.list),
      TRParen) else s.pos as int;
      ParseArguments(ts, s) == (To(s, j), ds)
  {
    hide CompleteType, PlainName, ParseArgumentList, EndOfArgumentList, CompleteDeclarations, Report, Consistent;
    if ds.Declarations? {
      ArgumentListAccepted(ts, To(s, s.pos + 1), ds.list);
    }
  }

  lemma ReturnTypeAccepted(ts: seq<Token>, s: State, sub: Subprogram, t: Type)
    requires !Raised(s) && sub.Subprogram? && CompleteType(t) && !t.isArray && EndOfResult(ts, s.pos, true, t) >= 0
    ensures ParseReturnType(ts, s, sub)
         == (To(s, EndOfResult(ts, s.pos, true, t)), sub.(isFunction := true, returnType := t), false)
  {
    hide ParseStandardType;
    StandardTypeAccepted(ts, To(s, s.pos + 1), t.standardType);
  }

  lemma NamePartAccepted(ts: seq<Token>, s: State, isFunction: bool, name: Identifier, arguments: Declarations)
    requires !Raised(s) && PlainName(name) && CompleteDeclarations(arguments)
    requires var j := EndOfName(ts, s.pos, isFunction, name, arguments); j >= 0 && !Is(ts, j, TLParen)
    ensures ParseSubprogramName(ts, s, isFunction)
         == (To(s, EndOfName(ts, s.pos, isFunction, name, arguments)),
           EMPTY_SUBPROGRAM.(name := name, arguments := arguments), true)
  {
    hide ParseArguments, EndOfArgumentList, CompleteDeclarations, Panic, Report, Missing, Consistent, Moves;
    ArgumentsOfHeadAccepted(ts, To(s, s.pos + 2), arguments);
  }

  lemma HeadAccepted(ts: seq<Token>, s: State, sp: Subprogram)
    requires !Raised(s) && sp.Subprogram? && CompleteSubprogram(sp) && EndOfHead(ts, s.pos, sp) >= 0
    ensures ParseSubprogramHead(ts, s)
         == (To(s, EndOfHead(ts, s.pos, sp)), sp.(declarations := NoDeclarations, body := NullStatement))
  {
    hide ParseSubprogramName, ParseReturnType, EndOfName, CompleteType, PlainName, CompleteDeclarations,
      CompleteStatement,
      Panic, Report, Missing, Consistent, Moves;
    var j := EndOfName(ts, s.pos, sp.isFunction, sp.name, sp.arguments);
    assert !Is(ts, j, TLParen);
    NamePartAccepted(ts, s, sp.isFunction, sp.name, sp.arguments);
    if sp.isFunction {
      ReturnTypeAccepted(ts, To(s, j), EMPTY_SUBPROGRAM.(name := sp.name, arguments := sp.arguments), sp.returnType);
    }
  }

  lemma SubprogramAccepted(ts: seq<Token>, s: State, sp: Subprogram)
    requires s.code.NoError? && CompleteSubprogram(sp) && EndOfSubprogram(ts, s.pos, sp) >= 0
    ensures ParseSubprogramDeclaration(ts, s) == (To(s, EndOfSubprogram(ts, s.pos, sp)), sp)
  {
    hide CompleteType, PlainName, ParseDeclarations, ParseSubprogramHead, ParseCompoundStatement, EndOfDeclarations,
      EndOfHead, EndOfStatement, CompleteDeclarations, CompleteStatement, Panic, Consistent;
    var j := EndOfHead(ts, s.pos, sp);
    HeadAccepted(ts, s, sp);
    DeclarationsAccepted(ts, To(s, j), sp.declarations);
    CompoundAccepted(ts, To(s, EndOfDeclarations(ts, j, ListOf(sp.declarations))), sp.body);
  }

  lemma {:induction false} SubprogramsAccepted(ts: seq<Token>, s: State, sps: Subprograms)
    requires s.code.NoError? && CompleteSubprograms(sps) && EndOfSubprograms(ts, s.pos, SubprogramList(sps)) >= 0
    requires var j := EndOfSubprograms(ts, s.pos, SubprogramList(sps)); !Is(ts, j, TFunction) && !Is(ts, j, TProcedure)
    ensures ParseSubprogramDeclarations(ts, s) == (To(s, EndOfSubprograms(ts, s.pos, SubprogramList(sps))), sps)
    decreases |SubprogramList(sps)|
  {
    hide CompleteType, PlainName, ParseSubprogramDeclaration, EndOfSubprogram, CompleteDeclarations,
      CompleteSubprogram, CompleteSubprograms, CompleteStatement, Missing, Consistent;
    if sps.Subprograms? {
      var rest := FirstSubprogram(sps);
      SubprogramAccepted(ts, s, sps.list[0]);
      SubprogramsAccepted(ts, To(s, EndOfSubprogram(ts, s.pos, sps.list[0]) + 1), rest);
    }
  }

  lemma FirstSubprogram(sps: Subprograms) returns (rest: Subprograms)
    requires sps.Subprograms? && CompleteSubprograms(sps)
    ensures sps.list != [] && CompleteSubprogram(sps.list[0]) && CompleteSubprograms(rest)
    ensures SubprogramList(rest) == sps.list[1..] && [sps.list[0]] + SubprogramList(rest) == sps.list
  {
    hide CompleteSubprogram;
    rest := if |sps.list| > 1 then Subprograms(sps.list[1..]) else NoSubprograms;
    assert sps.list[0] in sps.list;
  }

  lemma BlockAccepted(ts: seq<Token>, s: State, p: Program)
    requires s.code.NoError? && CompleteProgram(p)
    requires var j := EndOfDeclarations(ts, s.pos, ListOf(p.variables));
      After(ts, EndOfStatement(ts, EndOfSubprograms(ts, j, SubprogramList(p.functions)), p.mainProgram), TPeriod) >= 0
    ensures var j := EndOfDeclarations(ts, s.pos, ListOf(p.variables));
      var k := After(ts, EndOfStatement(ts, EndOfSubprograms(ts, j, SubprogramList(p.functions)), p.mainProgram),
        TPeriod);
      ParseBlock(ts, s, p.programName, p.inputOutput) == (To(s, k), p)
  {
    hide CompleteType, PlainName, ParseDeclarations, ParseSubprogramDeclarations, ParseCompoundStatement,
      EndOfDeclarations, EndOfSubprograms, EndOfStatement, PlainNames, CompleteDeclarations, CompleteSubprogram,
        CompleteSubprograms, CompleteStatement, Skip, Moves, Consistent;
    var j := EndOfDeclarations(ts, s.pos, ListOf(p.variables));
    var k := EndOfSubprograms(ts, j, SubprogramList(p.functions));
    DeclarationsAccepted(ts, s, p.variables);
    SubprogramsAccepted(ts, To(s, j), p.functions);
    CompoundAccepted(ts, To(s, k), p.mainProgram);
  }

  lemma HeadingAccepted(ts: seq<Token>, s: State, name: Identifier, files: Identifiers)
    requires !Raised(s) && PlainName(name) && PlainNames(files) && EndOfHeading(ts, s.pos, name, files) >= 0
    ensures ParseHeading(ts, s) == (To(s, EndOfHeading(ts, s.pos, name, files)), name, files, true)
  {
    hide ParseIdentifierList, EndOfNames, PlainNames, Panic, Report, Missing, Consistent;
    NamesAccepted(ts, To(s, s.pos + 3), files.list);
  }

  /** Tokens that spell a complete program are parsed to that program without errors. */
  lemma ProgramAccepted(ts: seq<Token>, s: State, p: Program)
    requires s.code.NoError? && CompleteProgram(p) && EndOfProgram(ts, s.pos, p) >= 0
    ensures ParseProgram(ts, s) == (To(s, EndOfProgram(ts, s.pos, p)), p)
  {
    hide CompleteType, PlainName, ParseBlock, ParseHeading, EndOfDeclarations, EndOfSubprograms, EndOfStatement,
      EndOfHeading, PlainNames, CompleteDeclarations, CompleteSubprogram, CompleteSubprograms, CompleteStatement,
      Consistent;
    HeadingAccepted(ts, s, p.programName, p.inputOutput);
    BlockAccepted(ts, To(s, EndOfHeading(ts, s.pos, p.programName, p.inputOutput)), p);
  }
}
