/** Recovery from errors, one step at a time: which panics can happen at all, and where the parser stands after one. */
module ParserRecovery {
  import opened Ast
  import opened Tokens
  import opened Parsing
  import opened Grammar
  import opened ParserComplete

  // ----- errors are settled where they occur -----

  /** A factor never hands an error on, whatever the input and the state it starts in: it has skipped already. */
  lemma FactorSettles(ts: seq<Token>, s: State)
    ensures !Raised(ParseFactor(ts, s).0)
  {
    hide ParseExpression, ParseFactorRest, Moves, Consistent, Skip;
  }

  lemma {:induction false} TermSettles(ts: seq<Token>, s: State)
    ensures !Raised(ParseTerm(ts, s).0)
    decreases Left(ts, s)
  {
    hide ParseFactor, Consistent, Skip;
    var s1 := ParseFactor(ts, s).0;
    FactorSettles(ts, s);
    if Is(ts, s1.pos, TMulOp) {
      TermSettles(ts, s1.(pos := s1.pos + 1));
    }
  }

  lemma {:induction false} SumSettles(ts: seq<Token>, s: State)
    requires !Raised(s)
    ensures !Raised(ParseSum(ts, s).0)
    decreases Left(ts, s)
  {
    hide ParseTerm, Consistent;
    if Is(ts, s.pos, TAddOp) {
      var s1 := s.(pos := s.pos + 1);
      TermSettles(ts, s1);
      SumSettles(ts, ParseTerm(ts, s1).0);
    }
  }

  lemma SimpleSettles(ts: seq<Token>, s: State)
    ensures !Raised(ParseSimpleExpression(ts, s).0)
  {
    hide ParseTerm, ParseSum, Moves, Consistent, Skip;
  }

  lemma ExpressionSettles(ts: seq<Token>, s: State)
    ensures !Raised(ParseExpression(ts, s).0)
  {
    hide ParseSimpleExpression, Moves, Consistent;
    var s1 := ParseSimpleExpression(ts, s).0;
    SimpleSettles(ts, s);
    if Is(ts, s1.pos, TRelOp) {
      SimpleSettles(ts, s1.(pos := s1.pos + 1));
    }
  }

  lemma CompoundSettles(ts: seq<Token>, s: State)
    ensures !Raised(ParseCompoundStatement(ts, s).0)
  {
    hide ParseOptionalStatements, Moves, Consistent, Skip;
  }

  lemma StatementSettles(ts: seq<Token>, s: State)
    ensures !Raised(ParseStatement(ts, s).0)
  {
    hide ParseCompoundStatement, ParseExpression, ParseBranches, ParseStatementRest, Moves, Consistent, Skip;
    CompoundSettles(ts, s);
    if Is(ts, s.pos, TIf) {
      BranchesSettle(ts, ParseExpression(ts, s.(pos := s.pos + 1)).0, ParseExpression(ts, s.(pos := s.pos + 1)).1);
    }
  }

  lemma BranchesSettle(ts: seq<Token>, s: State, e: Expression)
    ensures !Raised(ParseBranches(ts, s.(pos := s.pos + 1), e).0)
  {
    hide ParseStatement, Moves, Consistent, Skip;
  }

  lemma {:induction false} ListSettles(ts: seq<Token>, s: State)
    ensures !Raised(ParseStatementList(ts, s).0)
    decreases Left(ts, s)
  {
    hide ParseStatement, Consistent, Skip;
    var s1 := ParseStatement(ts, s).0;
    StatementSettles(ts, s);
    if Is(ts, s1.pos, TSemicolon) {
      ListSettles(ts, s1.(pos := s1.pos + 1));
    }
  }

  lemma NamesSettle(ts: seq<Token>, s: State)
    requires !Raised(s)
    ensures !Raised(ParseIdentifierList(ts, s).0)
    decreases Left(ts, s)
  {
    hide Consistent, Skip;
    if Is(ts, s.pos, TIdentifier) && Is(ts, s.pos + 1, TComma) {
      NamesSettle(ts, s.(pos := s.pos + 2));
    }
  }

  lemma VariablesSettle(ts: seq<Token>, s: State)
    requires !Raised(s)
    ensures !Raised(ParseVariables(ts, s).0)
  {
    hide ParseIdentifierList, ParseType, Moves, Consistent, Skip;
    NamesSettle(ts, s);
  }

  lemma {:induction false} DeclarationsSettle(ts: seq<Token>, s: State)
    requires !Raised(s)
    ensures !Raised(ParseDeclarations(ts, s).0)
    decreases Left(ts, s)
  {
    hide ParseVariables, Consistent, Skip;
    if Is(ts, s.pos, TVar) {
      var s1 := s.(pos := s.pos + 1);
      VariablesSettle(ts, s1);
      DeclarationsStep(ts, s);
      if ParseVariables(ts, s1).2 {
        DeclarationsSettle(ts, ParseVariables(ts, s1).0);
      }
    }
  }

  lemma HeadSettles(ts: seq<Token>, s: State)
    requires !Raised(s)
    ensures !Raised(ParseSubprogramHead(ts, s).0)
  {
    hide ParseArguments, ParseStandardType, Moves, Consistent, Skip;
  }

  lemma SubprogramSettles(ts: seq<Token>, s: State)
    requires !Raised(s)
    ensures !Raised(ParseSubprogramDeclaration(ts, s).0)
  {
    hide ParseSubprogramHead, ParseDeclarations, ParseCompoundStatement, Moves, Consistent, Skip;
    var s1 := ParseSubprogramHead(ts, s).0;
    HeadSettles(ts, s);
    DeclarationsSettle(ts, s1);
    CompoundSettles(ts, ParseDeclarations(ts, s1).0);
  }

  // ----- panics that never happen -----

  /** After a factor there is no error left to handle, so that a term never skips. */
  lemma TermStep(ts: seq<Token>, s: State)
    ensures var (s1, factor) := ParseFactor(ts, s);
      var (s2, op, rest) := ParseProduct(ts, s1);
      ParseTerm(ts, s) == (s2, Term(factor, op, rest))
  {
    hide ParseFactor, ParseProduct, Moves, Consistent, Skip;
    FactorSettles(ts, s);
  }

  /** Nor does a simple expression, after its terms. */
  lemma SimpleStep(ts: seq<Token>, s: State)
    ensures var sign := Cur(ts, s.pos);
      var signed := !sign.op.Or? && Is(ts, s.pos, TAddOp);
      var (s2, term) := ParseTerm(ts, if signed then s.(pos := s.pos + 1) else s);
      var (s3, op, rest) := ParseSum(ts, s2);
      ParseSimpleExpression(ts, s) == (s3, AddOp(signed && sign.op.Subtract?, term, op, rest))
  {
    hide ParseTerm, ParseSum, Moves, Consistent, Skip;
    var s1 := if !Cur(ts, s.pos).op.Or? && Is(ts, s.pos, TAddOp) then s.(pos := s.pos + 1) else s;
    TermSettles(ts, s1);
    SumSettles(ts, ParseTerm(ts, s1).0);
  }

  /** Nor does a list of statements, after one of them. */
  lemma ListStep(ts: seq<Token>, s: State)
    ensures var (s1, statement) := ParseStatement(ts, s);
      var (s2, rest) := ParseStatementListRest(ts, s1);
      ParseStatementList(ts, s) == (s2, Statements([statement] + (if rest.Statements? then rest.list else [])))
  {
    hide ParseStatement, ParseStatementListRest, Moves, Consistent, Skip;
    StatementSettles(ts, s);
  }

  /** Nor do optional statements, after the list. */
  lemma OptionalStep(ts: seq<Token>, s: State)
    ensures ParseOptionalStatements(ts, s)
      == if StartsStatement(Cur(ts, s.pos).kind) then ParseStatementList(ts, s) else (s, NoStatements)
  {
    hide ParseStatementList, Moves, Consistent, Skip;
    if StartsStatement(Cur(ts, s.pos).kind) {
      ListSettles(ts, s);
    }
  }

  /** Nor does a subprogram, after its head, its declarations or its body. */
  lemma SubprogramStep(ts: seq<Token>, s: State)
    requires !Raised(s)
    ensures var (s1, sub) := ParseSubprogramHead(ts, s);
      var (s2, declarations) := ParseDeclarations(ts, s1);
      var (s3, body) := ParseCompoundStatement(ts, s2);
      ParseSubprogramDeclaration(ts, s) == (s3, sub.(declarations := declarations, body := body))
  {
    hide ParseSubprogramHead, ParseDeclarations, ParseCompoundStatement, Moves, Consistent, Skip;
    var s1 := ParseSubprogramHead(ts, s).0;
    HeadSettles(ts, s);
    DeclarationsSettle(ts, s1);
    CompoundSettles(ts, ParseDeclarations(ts, s1).0);
  }

  // ----- where the parser stands after a panic -----

  /** The first position from `i` on with a token of one of these kinds, or the end of the input. */
  function First(ts: seq<Token>, i: nat, ends: set<Kind>): (j: nat)
    ensures i <= j
    ensures Cur(ts, j).kind in ends || j >= |ts|
    ensures forall k :: i <= k < j ==> Cur(ts, k).kind !in ends
    decreases |ts| - i
  {
    if i >= |ts| || Cur(ts, i).kind in ends then i else First(ts, i + 1, ends)
  }

  /** One more error, at `i`; the parser has gone on to the first of `ends`. */
  predicate Recovered(ts: seq<Token>, s: State, i: nat, ends: set<Kind>, r: State) {
    r == State(First(ts, i, ends), Recovering, s.count + 1, s.fault)
  }

  lemma {:induction false} SkipIsFirst(ts: seq<Token>, i: nat, follow: seq<Kind>, ends: set<Kind>)
    requires TEof in ends && forall k :: k in follow <==> k in ends
    ensures Skip(ts, i, follow) == First(ts, i, ends)
    decreases |ts| - i
  {
    if i < |ts| && Cur(ts, i).kind !in ends {
      if !Is(ts, i + 1, TEof) {
        SkipIsFirst(ts, i + 1, follow, ends);
      }
    }
  }

  const STATEMENT_ENDS := {TEnd, TPeriod, TSemicolon, TEof}
  const FACTOR_ENDS := {TMulOp, TRelOp, TDo, TEnd, TPeriod, TSemicolon, TEof}
  const INDEX_ENDS := {TAssign, TMulOp, TEnd, TPeriod, TSemicolon, TEof}
  const BLOCK_ENDS := {TPeriod, TSemicolon, TEof}
  const VARIABLES_ENDS := {TVar, TProcedure, TFunction, TBegin, TEof}
  const HEAD_ENDS := {TBegin, TVar, TPeriod, TEof}
  const SUBPROGRAMS_ENDS := {TBegin, TPeriod, TEof}
  const PROGRAM_ENDS := {TEof}
  const TYPE_ENDS := {TBegin, TFunction, TProcedure, TSemicolon, TEof}

  // Which tokens end the skipping, for every list that is used.

  lemma StatementStops(ts: seq<Token>, i: nat)
    ensures Skip(ts, i, STATEMENT_FOLLOW) == First(ts, i, STATEMENT_ENDS)
  {
    hide Skip, First;
    SkipIsFirst(ts, i, STATEMENT_FOLLOW, STATEMENT_ENDS);
  }

  lemma FactorStops(ts: seq<Token>, i: nat)
    ensures Skip(ts, i, FACTOR_FOLLOW) == First(ts, i, FACTOR_ENDS)
  {
    hide Skip, First;
    assert FACTOR_FOLLOW == [TDo, TEnd, TEof, TMulOp, TPeriod, TSemicolon, TRelOp];
    SkipIsFirst(ts, i, FACTOR_FOLLOW, FACTOR_ENDS);
  }

  lemma IndexStops(ts: seq<Token>, i: nat)
    ensures Skip(ts, i, OPTIONAL_INDEX_FOLLOW) == First(ts, i, INDEX_ENDS)
  {
    hide Skip, First;
    SkipIsFirst(ts, i, OPTIONAL_INDEX_FOLLOW, INDEX_ENDS);
  }

  lemma BlockStops(ts: seq<Token>, i: nat)
    ensures Skip(ts, i, COMPOUND_STATEMENT_FOLLOW) == First(ts, i, BLOCK_ENDS)
  {
    hide Skip, First;
    SkipIsFirst(ts, i, COMPOUND_STATEMENT_FOLLOW, BLOCK_ENDS);
  }

  lemma VariablesStops(ts: seq<Token>, i: nat)
    ensures Skip(ts, i, DECLARATIONS_FOLLOW) == First(ts, i, VARIABLES_ENDS)
  {
    hide Skip, First;
    SkipIsFirst(ts, i, DECLARATIONS_FOLLOW, VARIABLES_ENDS);
  }

  lemma HeadStops(ts: seq<Token>, i: nat)
    ensures Skip(ts, i, SUBPROGRAM_HEAD_FOLLOW) == First(ts, i, HEAD_ENDS)
  {
    hide Skip, First;
    SkipIsFirst(ts, i, SUBPROGRAM_HEAD_FOLLOW, HEAD_ENDS);
  }

  lemma SubprogramsStops(ts: seq<Token>, i: nat)
    ensures Skip(ts, i, SUBPROGRAM_DECLARATIONS_FOLLOW) == First(ts, i, SUBPROGRAMS_ENDS)
  {
    hide Skip, First;
    SkipIsFirst(ts, i, SUBPROGRAM_DECLARATIONS_FOLLOW, SUBPROGRAMS_ENDS);
  }

  lemma ProgramStops(ts: seq<Token>, i: nat)
    ensures Skip(ts, i, PROGRAM_FOLLOW) == First(ts, i, PROGRAM_ENDS)
  {
    hide Skip, First;
    SkipIsFirst(ts, i, PROGRAM_FOLLOW, PROGRAM_ENDS);
  }

  lemma TypeStops(ts: seq<Token>, i: nat)
    ensures Skip(ts, i, TYPE_FOLLOW) == First(ts, i, TYPE_ENDS)
  {
    hide Skip, First;
    SkipIsFirst(ts, i, TYPE_FOLLOW, TYPE_ENDS);
  }

  // ----- factors -----

  /** Nothing a factor begins with stands at `s.pos`. */
  lemma FactorMissing(ts: seq<Token>, s: State)
    requires !Raised(s) && !StartsFactor(Cur(ts, s.pos).kind)
    ensures Recovered(ts, s, s.pos, FACTOR_ENDS, ParseFactor(ts, s).0) && ParseFactor(ts, s).1 == NullFactor
  {
    hide ParseExpression, ParseFactorRest, Moves, Consistent, Skip, First, FACTOR_ENDS;
    FactorStops(ts, s.pos);
  }

  /** An expression in parentheses is not followed by the closing one. */
  lemma FactorUnclosed(ts: seq<Token>, s: State, e: Expression)
    requires !Raised(s) && CompleteExpression(e) && EndOfExpression(ts, After(ts, s.pos, TLParen), e) >= 0
    requires var j := EndOfExpression(ts, After(ts, s.pos, TLParen), e);
      EndsExpression(Cur(ts, j).kind) && !Is(ts, j, TRParen)
    ensures var j := EndOfExpression(ts, s.pos + 1, e);
      j >= 0 && Recovered(ts, s, j, FACTOR_ENDS, ParseFactor(ts, s).0) && ParseFactor(ts, s).1 == NullFactor
  {
    hide ParseExpression, ParseFactorRest, EndOfExpression, CompleteExpression, Moves, Consistent, Skip, First,
      FACTOR_ENDS;
    ExpressionAccepted(ts, s.(pos := s.pos + 1), e);
    FactorStops(ts, EndOfExpression(ts, s.pos + 1, e));
  }

  lemma OneArgument(ts: seq<Token>, s: State, e: Expression)
    requires !Raised(s) && CompleteExpression(e) && EndOfExpression(ts, s.pos, e) >= 0
    requires var j := EndOfExpression(ts, s.pos, e); EndsExpression(Cur(ts, j).kind) && !Is(ts, j, TComma)
    ensures ParseExpressionList(ts, s) == (To(s, EndOfExpression(ts, s.pos, e)), Parameters([e]))
  {
    hide ParseExpression, EndOfExpression, CompleteExpression, Moves, Consistent;
    ExpressionAccepted(ts, s, e);
    assert [e] + [] == [e];
  }

  lemma ArgumentsUnclosed(ts: seq<Token>, s: State, id: Identifier, e: Expression)
    requires !Raised(s) && id.Identifier? && CompleteExpression(e)
      && EndOfExpression(ts, After(ts, s.pos, TLParen), e) >= 0
    requires var j := EndOfExpression(ts, After(ts, s.pos, TLParen), e);
      EndsExpression(Cur(ts, j).kind) && !Is(ts, j, TRParen) && !Is(ts, j, TComma)
    ensures var j := EndOfExpression(ts, s.pos + 1, e);
      j >= 0 && Recovered(ts, s, j, FACTOR_ENDS, ParseFactorRest(ts, s, id).0)
  {
    hide ParseExpression, ParseExpressionList, EndOfExpression, CompleteExpression, Moves, Consistent, Skip, First,
      FACTOR_ENDS;
    OneArgument(ts, s.(pos := s.pos + 1), e);
    FactorStops(ts, EndOfExpression(ts, s.pos + 1, e));
  }

  /** Neither are the arguments of a call. */
  lemma CallUnclosed(ts: seq<Token>, s: State, e: Expression)
    requires !Raised(s) && Is(ts, s.pos, TIdentifier) && CompleteExpression(e)
    requires EndOfExpression(ts, After(ts, s.pos + 1, TLParen), e) >= 0
    requires var j := EndOfExpression(ts, After(ts, s.pos + 1, TLParen), e);
      EndsExpression(Cur(ts, j).kind) && !Is(ts, j, TRParen) && !Is(ts, j, TComma)
    ensures var j := EndOfExpression(ts, s.pos + 2, e);
      j >= 0 && Recovered(ts, s, j, FACTOR_ENDS, ParseFactor(ts, s).0)
  {
    hide ParseExpression, ParseFactorRest, EndOfExpression, CompleteExpression, Moves, Consistent, Skip, First,
      FACTOR_ENDS, Panic, Missing, EndsExpression;
    ArgumentsUnclosed(ts, s.(pos := s.pos + 1), Identifier(Cur(ts, s.pos).text, NullExpression, NoParameters), e);
  }

  /** Nor is an index. */
  lemma IndexUnclosed(ts: seq<Token>, s: State, e: Expression)
    requires !Raised(s) && CompleteExpression(e) && EndOfExpression(ts, After(ts, s.pos, TLBracket), e) >= 0
    requires var j := EndOfExpression(ts, After(ts, s.pos, TLBracket), e);
      EndsExpression(Cur(ts, j).kind) && !Is(ts, j, TRBracket)
    ensures var j := EndOfExpression(ts, s.pos + 1, e);
      && j >= 0 && Recovered(ts, s, j, INDEX_ENDS, ParseOptionalIndex(ts, s).0)
      && ParseOptionalIndex(ts, s).1 == NullExpression
  {
    hide ParseExpression, EndOfExpression, CompleteExpression, Moves, Consistent, Skip, First, INDEX_ENDS;
    ExpressionAccepted(ts, s.(pos := s.pos + 1), e);
    IndexStops(ts, EndOfExpression(ts, s.pos + 1, e));
  }

  // ----- statements -----

  /** Nothing a statement begins with stands at `s.pos`. */
  lemma StatementMissing(ts: seq<Token>, s: State)
    requires !Raised(s) && !StartsStatement(Cur(ts, s.pos).kind)
    ensures Recovered(ts, s, s.pos, STATEMENT_ENDS, ParseStatement(ts, s).0)
    ensures ParseStatement(ts, s).1 == NullStatement
  {
    hide ParseCompoundStatement, ParseIf, ParseWhile, ParseStatementRest, Moves, Consistent, Skip, First,
      STATEMENT_ENDS;
    StatementStops(ts, s.pos);
  }

  /** A condition is not followed by `then`. */
  lemma ThenMissing(ts: seq<Token>, s: State, e: Expression)
    requires !Raised(s) && CompleteExpression(e) && EndOfExpression(ts, After(ts, s.pos, TIf), e) >= 0
    requires var j := EndOfExpression(ts, After(ts, s.pos, TIf), e);
      EndsExpression(Cur(ts, j).kind) && !Is(ts, j, TThen)
    ensures var j := EndOfExpression(ts, s.pos + 1, e);
      && j >= 0 && Recovered(ts, s, j, STATEMENT_ENDS, ParseStatement(ts, s).0)
      && ParseStatement(ts, s).1 == NullStatement
  {
    hide ParseExpression, ParseBranches, EndOfExpression, CompleteExpression, Moves, Consistent, Skip, First,
      STATEMENT_ENDS;
    ExpressionAccepted(ts, s.(pos := s.pos + 1), e);
    StatementStops(ts, EndOfExpression(ts, s.pos + 1, e));
  }

  /** A condition is not followed by `do`. */
  lemma DoMissing(ts: seq<Token>, s: State, e: Expression)
    requires !Raised(s) && CompleteExpression(e) && EndOfExpression(ts, After(ts, s.pos, TWhile), e) >= 0
    requires var j := EndOfExpression(ts, After(ts, s.pos, TWhile), e);
      EndsExpression(Cur(ts, j).kind) && !Is(ts, j, TDo)
    ensures var j := EndOfExpression(ts, s.pos + 1, e);
      && j >= 0 && Recovered(ts, s, j, STATEMENT_ENDS, ParseStatement(ts, s).0)
      && ParseStatement(ts, s).1 == NullStatement
  {
    hide ParseExpression, EndOfExpression, CompleteExpression, Moves, Consistent, Skip, First, STATEMENT_ENDS;
    ExpressionAccepted(ts, s.(pos := s.pos + 1), e);
    StatementStops(ts, EndOfExpression(ts, s.pos + 1, e));
  }

  /** Where the branch before `else` ends. */
  function EndOfThen(ts: seq<Token>, i: int, e: Expression, t: Statement): int {
    EndOfStatement(ts, After(ts, EndOfExpression(ts, After(ts, i, TIf), e), TThen), t)
  }

  lemma BranchUnmatched(ts: seq<Token>, s: State, e: Expression, t: Statement)
    requires !Raised(s) && CompleteStatement(t) && (s.code.NoError? || Flat(t)) && EndOfStatement(ts, s.pos, t) >= 0
    requires var j := EndOfStatement(ts, s.pos, t); EndsStatement(Cur(ts, j).kind) && !Is(ts, j, TElse)
    ensures Recovered(ts, s, EndOfStatement(ts, s.pos, t), STATEMENT_ENDS, ParseBranches(ts, s, e).0)
    ensures ParseBranches(ts, s, e).1 == NullStatement
  {
    hide ParseStatement, EndOfStatement, CompleteStatement, Moves, Consistent, Skip, First, STATEMENT_ENDS;
    StatementAccepted(ts, s, t);
    StatementStops(ts, EndOfStatement(ts, s.pos, t));
  }

  /** The first branch is not followed by `else`. */
  lemma ElseMissing(ts: seq<Token>, s: State, e: Expression, t: Statement)
    requires !Raised(s) && CompleteExpression(e) && CompleteStatement(t) && (s.code.NoError? || Flat(t))
    requires EndOfThen(ts, s.pos, e, t) >= 0
    requires var j := EndOfThen(ts, s.pos, e, t); EndsStatement(Cur(ts, j).kind) && !Is(ts, j, TElse)
    ensures Recovered(ts, s, EndOfThen(ts, s.pos, e, t), STATEMENT_ENDS, ParseStatement(ts, s).0)
    ensures ParseStatement(ts, s).1 == NullStatement
  {
    hide ParseExpression, ParseBranches, EndOfExpression, CompleteExpression, EndOfStatement, CompleteStatement, Moves,
      Consistent, Skip, First, STATEMENT_ENDS;
    var j := EndOfExpression(ts, s.pos + 1, e);
    ExpressionAccepted(ts, s.(pos := s.pos + 1), e);
    BranchUnmatched(ts, s.(pos := j + 1), e, t);
  }

  /** The value that is assigned begins with an error from which the parser recovers at the end of the statement. */
  lemma ValueBroken(ts: seq<Token>, s: State, id: Identifier, j: nat)
    requires !Raised(s) && CompleteReference(id) && id.parameters.NoParameters?
    requires EndOfReference(ts, s.pos, id) >= 0 && Is(ts, EndOfReference(ts, s.pos, id), TAssign)
    requires var s1 := s.(pos := EndOfReference(ts, s.pos, id) + 1);
      && !Is(ts, s1.pos, TAddOp) && Recovered(ts, s1, j, FACTOR_ENDS, ParseFactor(ts, s1).0)
      && Cur(ts, First(ts, j, FACTOR_ENDS)).kind in STATEMENT_ENDS
    ensures ParseStatement(ts, s).0 == State(First(ts, j, FACTOR_ENDS), Recovering, s.count + 1, s.fault)
  {
    hide ParseFactor, ParseExpression, EndOfSuffix, CompleteReference, Moves, Consistent, Skip, First, FACTOR_ENDS,
      ParseOptionalIndex, ParseOptionalParameters;
    var s1 := s.(pos := EndOfReference(ts, s.pos, id) + 1);
    TargetAccepted(ts, s.(pos := s.pos + 1), id);
    BrokenExpression(ts, s1, j);
  }

  lemma BrokenExpression(ts: seq<Token>, s: State, j: nat)
    requires !Raised(s) && !Is(ts, s.pos, TAddOp) && Recovered(ts, s, j, FACTOR_ENDS, ParseFactor(ts, s).0)
    requires Cur(ts, First(ts, j, FACTOR_ENDS)).kind in STATEMENT_ENDS
    ensures ParseExpression(ts, s).0 == State(First(ts, j, FACTOR_ENDS), Recovering, s.count + 1, s.fault)
  {
    hide ParseFactor, ParseTerm, ParseSimpleExpression, Moves, Consistent, Skip, First, FACTOR_ENDS;
    TermStep(ts, s);
    SimpleStep(ts, s);
  }

  /** No compound statement begins at `s.pos`. */
  lemma BeginMissing(ts: seq<Token>, s: State)
    requires !Raised(s) && !Is(ts, s.pos, TBegin)
    ensures Recovered(ts, s, s.pos, BLOCK_ENDS, ParseCompoundStatement(ts, s).0)
    ensures ParseCompoundStatement(ts, s).1 == NullStatement
  {
    hide ParseOptionalStatements, Moves, Consistent, Skip, First, BLOCK_ENDS;
    BlockStops(ts, s.pos);
  }

  /** The statements of a compound statement are not followed by `end`. */
  lemma EndMissing(ts: seq<Token>, s: State, ss: seq<Statement>)
    requires s.code.NoError? && CompleteStatements(ss) && EndOfStatements(ts, After(ts, s.pos, TBegin), ss) >= 0
    requires var j := EndOfStatements(ts, After(ts, s.pos, TBegin), ss);
      && EndsStatement(Cur(ts, j).kind) && !Is(ts, j, TSemicolon) && !Is(ts, j, TEnd)
      && (ss == [] ==> !StartsStatement(Cur(ts, j).kind))
    ensures Recovered(ts, s, EndOfStatements(ts, s.pos + 1, ss), BLOCK_ENDS, ParseCompoundStatement(ts, s).0)
    ensures ParseCompoundStatement(ts, s).1 == NullStatement
  {
    hide ParseStatementList, ParseOptionalStatements, EndOfStatements, CompleteStatements, Moves, Consistent, Skip,
      First, BLOCK_ENDS;
    var s1 := s.(pos := s.pos + 1);
    OptionalStep(ts, s1);
    NoStatementsEnd(ts, s1.pos);
    if ss != [] {
      StatementsAccepted(ts, s1, ss);
    }
    BlockStops(ts, EndOfStatements(ts, s1.pos, ss));
  }

  lemma NoStatementsEnd(ts: seq<Token>, i: nat)
    ensures EndOfStatements(ts, i, []) == i
  {
  }
}
