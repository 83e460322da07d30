/** What the parser makes of whole programs with errors. */
module ErrorTheorems {
  import opened Ast
  import opened Tokens
  import opened Parsing
  import opened Grammar
  import opened ParserComplete
  import opened ParserRecovery
  import opened ErrorCounts
  import HeadRecovery

  // ----- the main list -----

  /** Statements with semicolons between them. */
  function EndOfPieces(ts: seq<Token>, i: int, ps: seq<Piece>): (j: int)
    ensures j == -1 || 0 <= i <= j
    decreases |ps|
  {
    if ps == [] then -1
    else
      var j := EndOfPiece(ts, i, ps[0]);
      if |ps| > 1 then EndOfPieces(ts, After(ts, j, TSemicolon), ps[1..]) else j
  }

  /** `begin`, the statements `ps`, `end` and a period; -1 when that does not stand at `i`. */
  function EndOfMain(ts: seq<Token>, i: int, ps: seq<Piece>): (j: int)
    ensures j == -1 || 0 <= i < j
  {
    After(ts, After(ts, EndOfPieces(ts, After(ts, i, TBegin), ps), TEnd), TPeriod)
  }

  /** A list that begins with a statement. */
  predicate MainList(ps: seq<Piece>) {
    ps != [] && !ps[0].WithoutStatement? && CompletePieces(ps)
  }

  /** Behind the first statement that lacks a token, no branch before an `else` contains a compound statement. */
  predicate Steady(ps: seq<Piece>) {
    ps == [] || if ps[0].Right? then Steady(ps[1..]) else CalmPieces(ps[1..])
  }

  predicate CalmPieces(ps: seq<Piece>) {
    forall p :: p in ps ==> CalmPiece(p)
  }

  function Later(ps: seq<Piece>): (items: seq<Item>)
    ensures |items| == |ps|
  {
    seq(|ps|, k requires 0 <= k < |ps| => Next(ps[k]))
  }

  lemma {:induction false} LaterAhead(ts: seq<Token>, i: nat, ps: seq<Piece>, e: nat)
    requires ps != [] && CompletePieces(ps) && EndOfPieces(ts, i, ps) == e && Is(ts, e, TEnd) && Is(ts, e + 1, TPeriod)
    ensures EndOfPiece(ts, i, ps[0]) >= 0 && Ahead(ts, EndOfPiece(ts, i, ps[0]), Later(ps[1..]), e)
    decreases |ps|
  {
    hide EndOfPiece, CompletePiece;
    var items := Later(ps[1..]);
    if |ps| > 1 {
      LaterAhead(ts, EndOfPiece(ts, i, ps[0]) + 1, ps[1..], e);
      assert items[0] == Next(ps[1]) && items[1..] == Later(ps[1..][1..]);
      assert items == [items[0]] + items[1..];
      assert ps[1] in ps;
    } else {
      assert items == [];
    }
  }

  lemma {:induction false} LaterErrors(ps: seq<Piece>)
    ensures ItemErrors(Later(ps)) == Errors(ps) && (CalmItems(Later(ps)) <==> CalmPieces(ps))
    decreases |ps|
  {
    hide CalmPiece;
    var items := Later(ps);
    if ps != [] {
      LaterErrors(ps[1..]);
      assert items[0] == Next(ps[0]) && items[1..] == Later(ps[1..]);
      assert items == [items[0]] + items[1..] && ps == [ps[0]] + ps[1..];
    }
  }

  /** What the list comes to: one error for each statement that lacks a token, and the end of the list or the period. */
  predicate ListResult(s: State, r: State, n: nat, steady: bool, e: nat) {
    && r.code.Recovering? && r.fault == s.fault
    && if steady then r.count == s.count + n && (r.pos == e || r.pos == e + 1) else r.count > s.count + 1
  }

  /** Behind a statement that lacked a token. */
  lemma RestRecovers(ts: seq<Token>, s: State, ps: seq<Piece>, e: nat)
    requires s.code.Recovering? && Consistent(s) && Ahead(ts, s.pos, Later(ps), e)
    ensures var r := ParseStatementListRest(ts, s).0;
      && r.code.Recovering? && r.fault == s.fault
      && if CalmPieces(ps) then r.count == s.count + Errors(ps) && (r.pos == e || r.pos == e + 1) else r.count > s.count
  {
    hide ParseStatementListRest, CalmPieces, CalmItems, Errors, ItemErrors, EndOfItems, CompleteItems, Later;
    var n := RestPasses(ts, s, Later(ps), e);
    var r := ParseStatementListRest(ts, s).0;
    LaterErrors(ps);
    LaterNexts(ps);
    RestSettles(ts, s);
    StaysRecovering(s, r);
    if Landed(ts, r, s.count, Later(ps), n, e) && AtEnd(Later(ps), n) {
      assert n == |Later(ps)|;
      assert Later(ps)[..n] == Later(ps) && Later(ps)[n..] == [];
      NothingAhead(ts, r.pos, e);
    }
  }

  lemma LaterNexts(ps: seq<Piece>)
    ensures forall k :: 0 <= k < |ps| ==> Later(ps)[k] == Next(ps[k])
  {
  }

  lemma NothingAhead(ts: seq<Token>, i: nat, e: nat)
    ensures Ahead(ts, i, [], e) ==> i == e
  {
  }

  lemma RestSettles(ts: seq<Token>, s: State)
    requires !Raised(s)
    ensures !Raised(ParseStatementListRest(ts, s).0)
  {
    hide ParseStatementList;
    if Is(ts, s.pos, TSemicolon) {
      ListSettles(ts, s.(pos := s.pos + 1));
    }
  }

  lemma {:induction false} ListRecovers(ts: seq<Token>, s: State, ps: seq<Piece>, e: nat)
    requires s.code.NoError? && Consistent(s) && ps != [] && CompletePieces(ps) && Errors(ps) > 0
    requires EndOfPieces(ts, s.pos, ps) == e && Is(ts, e, TEnd) && Is(ts, e + 1, TPeriod)
    ensures ListResult(s, ParseStatementList(ts, s).0, Errors(ps), Steady(ps), e)
    decreases |ps|
  {
    hide ParseStatement, ParseStatementList, EndOfPiece, CompletePiece, Ahead, CalmPieces, Moves;
    ListStep(ts, s);
    LaterAhead(ts, s.pos, ps, e);
    assert ps[0] in ps;
    var j := EndOfPiece(ts, s.pos, ps[0]);
    if ps[0].Right? {
      assert |ps| > 1 && Is(ts, j, TSemicolon);
      RightParsed(ts, s, ps[0]);
      ListRecovers(ts, s.(pos := j + 1), ps[1..], e);
    } else {
      PieceParsed(ts, s, ps[0]);
      RestRecovers(ts, ParseStatement(ts, s).0, ps[1..], e);
    }
  }

  lemma RightParsed(ts: seq<Token>, s: State, p: Piece)
    requires s.code.NoError? && p.Right? && CompletePiece(p) && EndOfPiece(ts, s.pos, p) >= 0
    requires Is(ts, EndOfPiece(ts, s.pos, p), TSemicolon)
    ensures ParseStatement(ts, s).0 == s.(pos := EndOfPiece(ts, s.pos, p))
  {
    hide ParseStatement, EndOfStatement, CompleteStatement;
    StatementAccepted(ts, s, p.t);
  }

  // ----- the main statement -----

  lemma FirstStarts(ts: seq<Token>, i: nat, p: Piece)
    requires !p.WithoutStatement? && EndOfPiece(ts, i, p) >= 0
    ensures StartsStatement(Cur(ts, i).kind)
  {
    hide First;
  }

  lemma MainBegins(ts: seq<Token>, i: int, ps: seq<Piece>)
    requires EndOfMain(ts, i, ps) >= 0
    ensures i >= 0 && Is(ts, i, TBegin) && Is(ts, EndOfMain(ts, i, ps) - 1, TPeriod)
  {
    hide EndOfPieces;
  }

  /** The main statement is given up when one of its statements lacks a token, but its end is found. */
  lemma MainRecovers(ts: seq<Token>, s: State, ps: seq<Piece>)
    requires s.code.NoError? && Consistent(s) && MainList(ps) && Errors(ps) > 0 && EndOfMain(ts, s.pos, ps) >= 0
    ensures var (r, t) := ParseCompoundStatement(ts, s);
      && (Steady(ps) ==>
            t == NullStatement && r == State(EndOfMain(ts, s.pos, ps) - 1, Recovering, s.count + Errors(ps), s.fault))
      && (!Steady(ps) ==> r.count > s.count + 1)
  {
    hide ParseStatementList, ParseOptionalStatements, EndOfPieces, CompletePieces, Errors, Steady, Moves, Skip,
      First;
    var s1 := s.(pos := s.pos + 1);
    var e := EndOfPieces(ts, s1.pos, ps);
    ListRecovers(ts, s1, ps, e);
    PiecesStart(ts, s1.pos, ps);
    OptionalStep(ts, s1);
    BlockStops(ts, ParseStatementList(ts, s1).0.pos);
    PeriodFirst(ts, e);
  }

  lemma PiecesStart(ts: seq<Token>, i: nat, ps: seq<Piece>)
    requires MainList(ps) && EndOfPieces(ts, i, ps) >= 0
    ensures StartsStatement(Cur(ts, i).kind)
  {
    hide EndOfPiece;
    FirstStarts(ts, i, ps[0]);
  }

  lemma PeriodFirst(ts: seq<Token>, e: nat)
    requires Is(ts, e, TEnd) && Is(ts, e + 1, TPeriod)
    ensures First(ts, e, BLOCK_ENDS) == e + 1 && First(ts, e + 1, BLOCK_ENDS) == e + 1
  {
  }

  /** While recovering from an earlier error, every branch before an `else` matters. */
  lemma MainStillRecovers(ts: seq<Token>, s: State, ps: seq<Piece>)
    requires s.code.Recovering? && Consistent(s) && MainList(ps) && EndOfMain(ts, s.pos, ps) >= 0
    ensures var (r, t) := ParseCompoundStatement(ts, s);
      && (CalmPieces(ps) ==>
            t == NullStatement && r == State(EndOfMain(ts, s.pos, ps) - 1, Recovering, s.count + Errors(ps), s.fault))
      && (!CalmPieces(ps) ==> r.count > s.count)
  {
    hide ParseStatementList, ParseOptionalStatements, EndOfPieces, CompletePieces, Errors, CalmPieces, Moves, Skip,
      First;
    var s1 := s.(pos := s.pos + 1);
    var e := EndOfPieces(ts, s1.pos, ps);
    ListStillRecovers(ts, s1, ps, e);
    PiecesStart(ts, s1.pos, ps);
    OptionalStep(ts, s1);
    BlockStops(ts, ParseStatementList(ts, s1).0.pos);
    PeriodFirst(ts, e);
  }

  lemma ListStillRecovers(ts: seq<Token>, s: State, ps: seq<Piece>, e: nat)
    requires s.code.Recovering? && Consistent(s) && ps != [] && CompletePieces(ps)
    requires EndOfPieces(ts, s.pos, ps) == e && Is(ts, e, TEnd) && Is(ts, e + 1, TPeriod)
    ensures var r := ParseStatementList(ts, s).0;
      && r.code.Recovering? && r.fault == s.fault
      && if CalmPieces(ps) then r.count == s.count + Errors(ps) && (r.pos == e || r.pos == e + 1) else r.count > s.count
  {
    hide ParseStatementList, EndOfPiece, EndOfPieces, CompletePiece, CalmPiece, CalmItems, ItemErrors, EndOfItems,
      CompleteItems, Later;
    var items := Later(ps[1..]);
    assert ps[0] in ps && ps == [ps[0]] + ps[1..];
    LaterAhead(ts, s.pos, ps, e);
    LaterErrors(ps[1..]);
    LaterNexts(ps[1..]);
    var n := ListPasses(ts, s, ps[0], items, e);
    var r := ParseStatementList(ts, s).0;
    ListSettles(ts, s);
    StaysRecovering(s, r);
    if Landed(ts, r, s.count + PieceErrors(ps[0]), items, n, e) && AtEnd(items, n) {
      assert n == |items|;
      assert items[..n] == items && items[n..] == [];
      NothingAhead(ts, r.pos, e);
    }
  }

  // ----- programs -----

  /** What becomes of a program whose main statements lack tokens. */
  predicate MainGivenUp(s: State, r: State, p: Program, end: nat, errors: nat, steady: bool, whole: Program) {
    && (steady ==> r == State(end, Recovering, s.count + errors, s.fault) && p == whole)
    && (!steady ==> r.count > s.count + 1)
  }

  /** The program from its main statement on. */
  lemma BlockStep(ts: seq<Token>, s: State, p: Program, s1: State, s2: State)
    requires p.Program? && !Raised(s1) && !Raised(s2)
    requires ParseDeclarations(ts, s) == (s1, p.variables)
    requires ParseSubprogramDeclarations(ts, s1) == (s2, p.functions)
    ensures var (s3, t) := ParseCompoundStatement(ts, s2);
      var (r, q) := ParseBlock(ts, s, p.programName, p.inputOutput);
      if Is(ts, s3.pos, TPeriod) then r == s3.(pos := s3.pos + 1) && q == p.(mainProgram := t)
      else r.count == s3.count + 1 && q == NullProgram
  {
    hide ParseDeclarations, ParseSubprogramDeclarations, ParseCompoundStatement, Moves, Consistent, Panic;
    CompoundSettles(ts, s2);
  }

  lemma BlockRecovers(ts: seq<Token>, s: State, p: Program, ps: seq<Piece>)
    requires s.code.NoError? && Consistent(s) && p.Program? && p.mainProgram.NullStatement?
    requires CompleteDeclarations(p.variables) && CompleteSubprograms(p.functions) && MainList(ps) && Errors(ps) > 0
    requires var j := EndOfDeclarations(ts, s.pos, ListOf(p.variables));
      EndOfMain(ts, EndOfSubprograms(ts, j, SubprogramList(p.functions)), ps) >= 0
    ensures var j := EndOfDeclarations(ts, s.pos, ListOf(p.variables));
      var m := EndOfMain(ts, EndOfSubprograms(ts, j, SubprogramList(p.functions)), ps);
      var (r, q) := ParseBlock(ts, s, p.programName, p.inputOutput);
      MainGivenUp(s, r, q, m, Errors(ps), Steady(ps), p)
  {
    hide ParseBlock, ParseDeclarations, ParseSubprogramDeclarations, ParseCompoundStatement, EndOfDeclarations,
      EndOfSubprograms, EndOfMain, CompleteDeclarations, CompleteSubprograms, MainList, Errors, Steady, Skip, Moves,
        Left;
    var j := EndOfDeclarations(ts, s.pos, ListOf(p.variables));
    var k := EndOfSubprograms(ts, j, SubprogramList(p.functions));
    MainBegins(ts, k, ps);
    DeclarationsAccepted(ts, s, p.variables);
    SubprogramsAccepted(ts, To(s, j), p.functions);
    MainRecovers(ts, To(s, k), ps);
    BlockStep(ts, s, p, To(s, j), To(s, k));
  }

  /** The place where the main statement begins. */
  function MainStart(ts: seq<Token>, p: Program): (k: int)
    requires p.Program?
  {
    var i := EndOfHeading(ts, 0, p.programName, p.inputOutput);
    EndOfSubprograms(ts, EndOfDeclarations(ts, i, ListOf(p.variables)), SubprogramList(p.functions))
  }

  /** A program spelled right up to its main statement, in which some statements lack a token: the parser counts one
      error for each of them, reads to the period, and returns the program without its main statement; unless behind
      the first of them a compound statement comes before an `else`, when it counts more than one. */
  lemma ProgramRecovers(ts: seq<Token>, p: Program, ps: seq<Piece>)
    requires p.Program? && p.mainProgram.NullStatement? && PlainName(p.programName) && PlainNames(p.inputOutput)
    requires CompleteDeclarations(p.variables) && CompleteSubprograms(p.functions) && MainList(ps) && Errors(ps) > 0
    requires EndOfMain(ts, MainStart(ts, p), ps) >= 0
    ensures var (r, q) := Parse(ts);
      MainGivenUp(START, r, q, EndOfMain(ts, MainStart(ts, p), ps), Errors(ps), Steady(ps), p)
  {
    hide ParseHeading, ParseBlock, EndOfHeading, EndOfDeclarations, EndOfSubprograms, EndOfPieces, PlainName,
      PlainNames,
      CompleteDeclarations, CompleteSubprograms, MainList, Errors, Steady;
    HeadingAccepted(ts, START, p.programName, p.inputOutput);
    BlockRecovers(ts, State(EndOfHeading(ts, 0, p.programName, p.inputOutput), NoError, 0, false), p, ps);
  }

  /** When one statement lacks a token, one error is counted exactly when nothing behind it makes a compound statement
      come before an `else`. */
  lemma OneErrorIff(ts: seq<Token>, p: Program, ps: seq<Piece>)
    requires p.Program? && p.mainProgram.NullStatement? && PlainName(p.programName) && PlainNames(p.inputOutput)
    requires CompleteDeclarations(p.variables) && CompleteSubprograms(p.functions) && MainList(ps) && Errors(ps) == 1
    requires EndOfMain(ts, MainStart(ts, p), ps) >= 0
    ensures Parse(ts).0.count == 1 <==> Steady(ps)
  {
    hide Parse, MainStart, EndOfMain, PlainNames, CompleteDeclarations, CompleteSubprograms, MainList, Errors, Steady;
    ProgramRecovers(ts, p, ps);
  }

  // ----- a subprogram without its semicolon -----

  lemma SubprogramsStep(ts: seq<Token>, s: State, sp: Subprogram)
    requires s.code.NoError? && CompleteSubprogram(sp) && EndOfSubprogram(ts, s.pos, sp) >= 0
    requires Is(ts, EndOfSubprogram(ts, s.pos, sp), TSemicolon)
    ensures var (r, rest) := ParseSubprogramDeclarations(ts, s.(pos := EndOfSubprogram(ts, s.pos, sp) + 1));
      ParseSubprogramDeclarations(ts, s) == (r, Subprograms([sp] + (if rest.Subprograms? then rest.list else [])))
  {
    hide ParseSubprogramDeclaration, EndOfSubprogram, CompleteSubprogram, Consistent, Panic, Missing, Moves;
    SubprogramAccepted(ts, s, sp);
  }

  lemma {:induction false} SubprogramLost(ts: seq<Token>, s: State, sps: seq<Subprogram>, sp: Subprogram)
    requires s.code.NoError? && CompleteSubprogram(sp) && forall x :: x in sps ==> CompleteSubprogram(x)
    requires EndOfSubprogram(ts, EndOfSubprograms(ts, s.pos, sps), sp) >= 0
    requires !Is(ts, EndOfSubprogram(ts, EndOfSubprograms(ts, s.pos, sps), sp), TSemicolon)
    ensures var (r, q) := ParseSubprogramDeclarations(ts, s);
      && Recovered(ts, s, EndOfSubprogram(ts, EndOfSubprograms(ts, s.pos, sps), sp), SUBPROGRAMS_ENDS, r)
      && q == if sps == [] then NoSubprograms else Subprograms(sps)
    decreases |sps|
  {
    hide ParseSubprogramDeclaration, ParseSubprogramDeclarations, EndOfSubprogram, CompleteSubprogram, Consistent,
      First,
      SUBPROGRAMS_ENDS;
    if sps == [] {
      HeadRecovery.SubprogramUnended(ts, s, sp);
    } else {
      var s1 := To(s, EndOfSubprogram(ts, s.pos, sps[0]) + 1);
      SubprogramsStep(ts, s, sps[0]);
      SubprogramLost(ts, s1, sps[1..], sp);
      assert [sps[0]] + sps[1..] == sps;
    }
  }

  lemma BlockAfterLost(ts: seq<Token>, s: State, p: Program, sp: Subprogram, ps: seq<Piece>)
    requires s.code.NoError? && Consistent(s) && p.Program? && p.mainProgram.NullStatement? && MainList(ps)
    requires CompleteDeclarations(p.variables) && CompleteSubprograms(p.functions) && CompleteSubprogram(sp)
    requires var j := EndOfSubprograms(ts, EndOfDeclarations(ts, s.pos, ListOf(p.variables)),
      SubprogramList(p.functions));
      && EndOfSubprogram(ts, j, sp) >= 0 && !Is(ts, EndOfSubprogram(ts, j, sp), TSemicolon)
      && EndOfMain(ts, First(ts, EndOfSubprogram(ts, j, sp), SUBPROGRAMS_ENDS), ps) >= 0
    ensures var j := EndOfSubprograms(ts, EndOfDeclarations(ts, s.pos, ListOf(p.variables)),
      SubprogramList(p.functions));
      var m := EndOfMain(ts, First(ts, EndOfSubprogram(ts, j, sp), SUBPROGRAMS_ENDS), ps);
      var (r, q) := ParseBlock(ts, s, p.programName, p.inputOutput);
      MainGivenUp(s, r, q, m, 1 + Errors(ps), CalmPieces(ps), p)
  {
    hide ParseBlock, ParseDeclarations, ParseSubprogramDeclarations, ParseCompoundStatement, EndOfDeclarations,
      EndOfSubprograms, EndOfSubprogram, EndOfPieces, CompleteDeclarations, CompleteSubprogram, MainList, Errors,
      CalmPieces, Skip, First, SUBPROGRAMS_ENDS, Moves;
    var i := EndOfDeclarations(ts, s.pos, ListOf(p.variables));
    var j := EndOfSubprogram(ts, EndOfSubprograms(ts, i, SubprogramList(p.functions)), sp);
    var s2 := State(First(ts, j, SUBPROGRAMS_ENDS), Recovering, s.count + 1, s.fault);
    MainBegins(ts, s2.pos, ps);
    SubprogramStarts(ts, i, SubprogramList(p.functions), sp);
    DeclarationsAccepted(ts, s, p.variables);
    SubprogramLost(ts, To(s, i), SubprogramList(p.functions), sp);
    MainStillRecovers(ts, s2, ps);
    BlockStep(ts, s, p, To(s, i), s2);
  }

  lemma SubprogramStarts(ts: seq<Token>, i: int, sps: seq<Subprogram>, sp: Subprogram)
    requires EndOfSubprogram(ts, EndOfSubprograms(ts, i, sps), sp) >= 0
    ensures i >= 0 && !Is(ts, i, TVar)
  {
    hide EndOfSubprogram;
  }

  /** A program in which the semicolon behind a subprogram is missing: that is one error, the subprogram is lost, and
      the main statement is found; those of its statements that lack a token count as well. */
  lemma ProgramAfterLost(ts: seq<Token>, p: Program, sp: Subprogram, ps: seq<Piece>)
    requires p.Program? && p.mainProgram.NullStatement? && PlainName(p.programName) && PlainNames(p.inputOutput)
    requires CompleteDeclarations(p.variables) && CompleteSubprograms(p.functions) && CompleteSubprogram(sp)
    requires MainList(ps) && EndOfSubprogram(ts, MainStart(ts, p), sp) >= 0
    requires var j := EndOfSubprogram(ts, MainStart(ts, p), sp);
      !Is(ts, j, TSemicolon) && EndOfMain(ts, First(ts, j, SUBPROGRAMS_ENDS), ps) >= 0
    ensures var m := EndOfMain(ts, First(ts, EndOfSubprogram(ts, MainStart(ts, p), sp), SUBPROGRAMS_ENDS), ps);
      var (r, q) := Parse(ts);
      MainGivenUp(START, r, q, m, 1 + Errors(ps), CalmPieces(ps), p)
  {
    hide ParseHeading, ParseBlock, EndOfHeading, EndOfDeclarations, EndOfSubprograms, EndOfSubprogram, EndOfPieces,
      PlainName, PlainNames, CompleteDeclarations, CompleteSubprograms, CompleteSubprogram, MainList, Errors,
        CalmPieces,
      First, SUBPROGRAMS_ENDS;
    HeadingAccepted(ts, START, p.programName, p.inputOutput);
    BlockAfterLost(ts, State(EndOfHeading(ts, 0, p.programName, p.inputOutput), NoError, 0, false), p, sp, ps);
  }

  // ----- an example of an error too many -----

  const X := Identifier("x", NullExpression, NoParameters)
  const VALUE_OF_X := AddOp(false, Term(IdFactor(X), Invalid, NullTerm), Invalid, NullExpression)
  const TWO_BRANCHES := If(VALUE_OF_X, Compound(NoStatements), AssignmentOrCall(X, NullExpression))

  /** `program x ( x ) ; begin while x ; if x then begin end else x end .` */
  function OneDoMissing(): seq<Token> {
    [Word(TProgram), IdToken("x"), Word(TLParen), IdToken("x"), Word(TRParen), Word(TSemicolon), Word(TBegin),
     Word(TWhile), IdToken("x"), Word(TSemicolon), Word(TIf), IdToken("x"), Word(TThen), Word(TBegin), Word(TEnd),
     Word(TElse), IdToken("x"), Word(TEnd), Word(TPeriod)]
  }

  lemma XSpelled(ts: seq<Token>, i: nat)
    requires i < |ts| && ts[i] == IdToken("x")
    ensures EndOfExpression(ts, i, VALUE_OF_X) == i + 1 && EndOfReference(ts, i, X) == i + 1
    ensures CompleteExpression(VALUE_OF_X) && CompleteReference(X)
  {
    assert EndOfReference(ts, i, X) == i + 1;
    assert EndOfFactor(ts, i, IdFactor(X)) == i + 1;
    assert EndOfTerm(ts, i, VALUE_OF_X.term) == i + 1;
    assert EndOfSum(ts, i, VALUE_OF_X) == i + 1;
  }

  lemma BranchesSpelled(ts: seq<Token>, i: nat)
    requires i + 6 < |ts| && ts[i] == Word(TIf) && ts[i + 1] == IdToken("x") && ts[i + 2] == Word(TThen)
    requires ts[i + 3] == Word(TBegin) && ts[i + 4] == Word(TEnd) && ts[i + 5] == Word(TElse)
      && ts[i + 6] == IdToken("x")
    ensures EndOfPiece(ts, i, Right(TWO_BRANCHES)) == i + 7 && CompletePiece(Right(TWO_BRANCHES))
    ensures !CalmPiece(Right(TWO_BRANCHES))
  {
    hide EndOfExpression, EndOfReference, CompleteExpression, CompleteReference;
    XSpelled(ts, i + 1);
    XSpelled(ts, i + 6);
    assert EndOfStatement(ts, i + 3, Compound(NoStatements)) == i + 5;
    assert EndOfStatement(ts, i + 6, AssignmentOrCall(X, NullExpression)) == i + 7;
  }

  lemma LoopWithoutDo(ts: seq<Token>, i: nat)
    requires i + 2 < |ts| && ts[i] == Word(TWhile) && ts[i + 1] == IdToken("x") && ts[i + 2] == Word(TSemicolon)
    ensures EndOfPiece(ts, i, WithoutDo(VALUE_OF_X)) == i + 2
  {
    hide EndOfExpression;
    XSpelled(ts, i + 1);
    assert First(ts, i + 2, STATEMENT_ENDS) == i + 2;
  }

  lemma TwoPieces(ts: seq<Token>, i: nat, ps: seq<Piece>)
    requires |ps| == 2 && CompletePieces(ps) && !ps[0].Right? && !ps[0].WithoutStatement? && ps[1].Right?
    requires Is(ts, i, TBegin) && EndOfPiece(ts, i + 1, ps[0]) == i + 3 && Is(ts, i + 3, TSemicolon)
    requires EndOfPiece(ts, i + 4, ps[1]) == i + 11 && Is(ts, i + 11, TEnd) && Is(ts, i + 12, TPeriod)
    ensures EndOfMain(ts, i, ps) == i + 13 && MainList(ps) && Errors(ps) == 1
  {
    hide EndOfPiece, CompletePiece, Cur;
    assert EndOfPieces(ts, i + 4, ps[1..]) == i + 11;
    assert EndOfPieces(ts, i + 1, ps) == i + 11;
    assert ps[1..][1..] == [] && Errors(ps[1..]) == 0;
  }

  lemma NotSteady(ps: seq<Piece>)
    requires |ps| > 1 && !ps[0].Right? && !CalmPiece(ps[1])
    ensures !Steady(ps)
  {
    hide CalmPiece;
    assert ps[1] in ps[1..];
  }

  lemma ConditionComplete()
    ensures CompletePiece(WithoutDo(VALUE_OF_X))
  {
    XSpelled([IdToken("x")], 0);
  }

  lemma ExampleHeading(ts: seq<Token>, p: Program)
    requires 6 < |ts| && ts[0] == Word(TProgram) && ts[1] == IdToken("x") && ts[2] == Word(TLParen)
    requires ts[3] == IdToken("x") && ts[4] == Word(TRParen) && ts[5] == Word(TSemicolon)
    requires p == Program(X, Identifiers([X]), NoDeclarations, NoSubprograms, NullStatement)
    ensures MainStart(ts, p) == 6
  {
    hide EndOfDeclarations, EndOfSubprograms;
    assert EndOfNames(ts, 3, [X]) == 4;
  }

  lemma NothingDeclared()
    ensures CompleteDeclarations(NoDeclarations) && CompleteSubprograms(NoSubprograms)
  {
  }

  /** On this input one `do` is missing, and the parser counts two errors. */
  lemma ErrorTooMany()
    ensures Parse(OneDoMissing()).0.count > 1
  {
    hide Parse, MainStart, EndOfMain, EndOfPiece, CompletePiece, CalmPiece, MainList, Errors, Steady,
      CompleteSubprograms,
      CompleteDeclarations;
    NothingDeclared();
    var ts := OneDoMissing();
    var p := Program(X, Identifiers([X]), NoDeclarations, NoSubprograms, NullStatement);
    var (first, second) := (WithoutDo(VALUE_OF_X), Right(TWO_BRANCHES));
    ExampleHeading(ts, p);
    LoopWithoutDo(ts, 7);
    BranchesSpelled(ts, 10);
    ConditionComplete();
    TwoPieces(ts, 6, [first, second]);
    NotSteady([first, second]);
    ProgramRecovers(ts, p, [first, second]);
  }
}
