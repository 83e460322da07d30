/** Recovery from errors in declarations, heads of subprograms and headings. */
module HeadRecovery {
  import opened Ast
  import opened Tokens
  import opened Parsing
  import opened Grammar
  import opened ParserComplete
  import opened ParserRecovery

  // ----- names, types, variables -----

  const NAMES_ENDS := {TColon, TSemicolon, TRParen, TEof}

  lemma {:induction false} NamesStop(ts: seq<Token>, i: nat)
    requires !(i < |ts| && Is(ts, i, TEof))
    ensures Skip(ts, i, IDENTIFIER_LIST_FOLLOW) == First(ts, i, NAMES_ENDS)
    decreases |ts| - i
  {
    if i < |ts| && Cur(ts, i).kind !in NAMES_ENDS {
      if !Is(ts, i + 1, TEof) {
        NamesStop(ts, i + 1);
      }
    }
  }

  /** No name begins a list of names. */
  lemma NamesMissing(ts: seq<Token>, s: State)
    requires !Raised(s) && !Is(ts, s.pos, TIdentifier) && !(s.pos < |ts| && Is(ts, s.pos, TEof))
    ensures Recovered(ts, s, s.pos, NAMES_ENDS, ParseIdentifierList(ts, s).0)
    ensures ParseIdentifierList(ts, s).1 == NoIdentifiers
  {
    hide Moves, Consistent, Skip, First, NAMES_ENDS;
    NamesStop(ts, s.pos);
  }

  /** `array` is not followed by a bracket. */
  lemma BracketMissing(ts: seq<Token>, s: State)
    requires !Raised(s) && Is(ts, s.pos, TArray) && !Is(ts, s.pos + 1, TLBracket)
    ensures Recovered(ts, s, s.pos + 1, TYPE_ENDS, ParseType(ts, s).0) && ParseType(ts, s).1 == NullType
  {
    hide ParseElement, ParseStandardType, Moves, Consistent, Skip, First, TYPE_ENDS;
    TypeStops(ts, s.pos + 1);
  }

  /** Variables are not followed by a colon. */
  lemma ColonMissing(ts: seq<Token>, s: State, ids: seq<Identifier>)
    requires !Raised(s) && PlainNames(Identifiers(ids)) && EndOfNames(ts, s.pos, ids) >= 0
    requires var j := EndOfNames(ts, s.pos, ids); !Is(ts, j, TComma) && !Is(ts, j, TColon)
    ensures var (r, ds, ok) := ParseVariables(ts, s);
      !ok && ds == [] && Recovered(ts, s, EndOfNames(ts, s.pos, ids), VARIABLES_ENDS, r)
  {
    hide ParseIdentifierList, ParseType, EndOfNames, PlainNames, Moves, Consistent, Skip, First, VARIABLES_ENDS;
    NamesAccepted(ts, s, ids);
    VariablesStops(ts, EndOfNames(ts, s.pos, ids));
  }

  lemma NoType(ts: seq<Token>, s: State)
    requires var k := Cur(ts, s.pos).kind; !k.TArray? && !k.TInteger? && !k.TReal?
    ensures ParseType(ts, s) == (Report(s, ExpectedStandardType), NullType)
  {
    hide ParseElement;
  }

  /** The colon is not followed by a type. */
  lemma TypeMissing(ts: seq<Token>, s: State, ids: seq<Identifier>)
    requires !Raised(s) && PlainNames(Identifiers(ids)) && After(ts, EndOfNames(ts, s.pos, ids), TColon) >= 0
    requires var k := Cur(ts, EndOfNames(ts, s.pos, ids) + 1).kind; !k.TArray? && !k.TInteger? && !k.TReal?
    ensures var (r, ds, ok) := ParseVariables(ts, s);
      !ok && ds == [] && Recovered(ts, s, EndOfNames(ts, s.pos, ids) + 1, VARIABLES_ENDS, r)
  {
    hide ParseIdentifierList, ParseType, EndOfNames, PlainNames, Moves, Consistent, Skip, First, VARIABLES_ENDS;
    NamesAccepted(ts, s, ids);
    NoType(ts, s.(pos := EndOfNames(ts, s.pos, ids) + 1));
    VariablesStops(ts, EndOfNames(ts, s.pos, ids) + 1);
  }

  /** The type is not followed by a semicolon. */
  lemma VariablesUnended(ts: seq<Token>, s: State, ds: seq<Declaration>)
    requires !Raised(s) && CompleteDeclarations(Declarations(ds)) && EndOfGroup(ts, s.pos, ds) >= 0
    requires !Is(ts, EndOfGroup(ts, s.pos, ds), TSemicolon)
    ensures var (r, declared, ok) := ParseVariables(ts, s);
      !ok && declared == [] && Recovered(ts, s, EndOfGroup(ts, s.pos, ds), VARIABLES_ENDS, r)
  {
    hide ParseIdentifierList, ParseType, EndOfGroup, NamesAt, Names, Declare, CompleteDeclarations, Moves, Consistent,
      Skip, First, VARIABLES_ENDS, Cur;
    var j, t := GroupAccepted(ts, s, ds);
    VariablesStops(ts, EndOfGroup(ts, s.pos, ds));
  }

  // ----- heads -----

  /** No name follows `function` or `procedure`. */
  lemma HeadUnnamed(ts: seq<Token>, s: State)
    requires !Raised(s) && (Is(ts, s.pos, TFunction) || Is(ts, s.pos, TProcedure)) && !Is(ts, s.pos + 1, TIdentifier)
    ensures Recovered(ts, s, s.pos + 1, HEAD_ENDS, ParseSubprogramHead(ts, s).0)
  {
    hide ParseArguments, ParseReturnType, Moves, Consistent, Skip, First, HEAD_ENDS;
    HeadStops(ts, s.pos + 1);
  }

  lemma ArgumentsUnended(ts: seq<Token>, s: State, ds: seq<Declaration>)
    requires !Raised(s) && Is(ts, s.pos, TLParen) && CompleteDeclarations(Declarations(ds))
    requires EndOfArgumentList(ts, s.pos + 1, ds) >= 0
    requires var j := EndOfArgumentList(ts, s.pos + 1, ds); !Is(ts, j, TSemicolon) && !Is(ts, j, TRParen)
    ensures var j := EndOfArgumentList(ts, s.pos + 1, ds);
      ParseArguments(ts, s) == (Report(s.(pos := j), ExpectedRParen), NoDeclarations)
  {
    hide ParseArgumentList, EndOfArgumentList, CompleteDeclarations, Moves, Consistent;
    ArgumentListAccepted(ts, s.(pos := s.pos + 1), ds);
  }

  /** The arguments are not followed by a closing parenthesis. */
  lemma HeadUnclosed(ts: seq<Token>, s: State, ds: seq<Declaration>)
    requires !Raised(s) && (Is(ts, s.pos, TFunction) || Is(ts, s.pos, TProcedure)) && Is(ts, s.pos + 1, TIdentifier)
    requires Is(ts, s.pos + 2, TLParen) && CompleteDeclarations(Declarations(ds))
    requires EndOfArgumentList(ts, s.pos + 3, ds) >= 0
    requires var j := EndOfArgumentList(ts, s.pos + 3, ds); !Is(ts, j, TSemicolon) && !Is(ts, j, TRParen)
    ensures Recovered(ts, s, EndOfArgumentList(ts, s.pos + 3, ds), HEAD_ENDS, ParseSubprogramHead(ts, s).0)
  {
    hide ParseArguments, ParseReturnType, EndOfArgumentList, CompleteDeclarations, Moves, Consistent, Skip, First,
      HEAD_ENDS;
    ArgumentsUnended(ts, s.(pos := s.pos + 2), ds);
    HeadStops(ts, EndOfArgumentList(ts, s.pos + 3, ds));
  }

  /** The name of a function and its arguments are not followed by a colon and a standard type. */
  lemma ResultMissing(ts: seq<Token>, s: State, name: Identifier, arguments: Declarations)
    requires !Raised(s) && PlainName(name) && CompleteDeclarations(arguments)
    requires EndOfName(ts, s.pos, true, name, arguments) >= 0
    requires var j := EndOfName(ts, s.pos, true, name, arguments);
      !Is(ts, j, TLParen) && !(Is(ts, j, TColon) && (Is(ts, j + 1, TInteger) || Is(ts, j + 1, TReal)))
    ensures var j := EndOfName(ts, s.pos, true, name, arguments);
      Recovered(ts, s, if Is(ts, j, TColon) then j + 1 else j, HEAD_ENDS, ParseSubprogramHead(ts, s).0)
  {
    hide ParseSubprogramName, EndOfName, PlainName, CompleteDeclarations, Moves, Consistent, Skip, First, HEAD_ENDS;
    var j := EndOfName(ts, s.pos, true, name, arguments);
    NamePartAccepted(ts, s, true, name, arguments);
    HeadStops(ts, if Is(ts, j, TColon) then j + 1 else j);
  }

  /** The head is not followed by a semicolon. */
  lemma HeadUnended(ts: seq<Token>, s: State, sp: Subprogram)
    requires !Raised(s) && CompleteSubprogram(sp)
    requires var j := EndOfName(ts, s.pos, sp.isFunction, sp.name, sp.arguments);
      var k := EndOfResult(ts, j, sp.isFunction, sp.returnType);
      k >= 0 && !Is(ts, j, TLParen) && !Is(ts, k, TSemicolon)
    ensures var j := EndOfName(ts, s.pos, sp.isFunction, sp.name, sp.arguments);
      Recovered(ts, s, EndOfResult(ts, j, sp.isFunction, sp.returnType), HEAD_ENDS, ParseSubprogramHead(ts, s).0)
  {
    hide ParseSubprogramName, ParseReturnType, EndOfName, PlainName, CompleteType, CompleteDeclarations,
      CompleteStatement, Moves, Consistent, Skip, First, HEAD_ENDS;
    var j := EndOfName(ts, s.pos, sp.isFunction, sp.name, sp.arguments);
    NamePartAccepted(ts, s, sp.isFunction, sp.name, sp.arguments);
    if sp.isFunction {
      ReturnTypeAccepted(ts, To(s, j), EMPTY_SUBPROGRAM.(name := sp.name, arguments := sp.arguments), sp.returnType);
    }
    HeadStops(ts, EndOfResult(ts, j, sp.isFunction, sp.returnType));
  }

  // ----- programs -----

  /** A subprogram is not followed by a semicolon. */
  lemma SubprogramUnended(ts: seq<Token>, s: State, sp: Subprogram)
    requires s.code.NoError? && CompleteSubprogram(sp) && EndOfSubprogram(ts, s.pos, sp) >= 0
    requires !Is(ts, EndOfSubprogram(ts, s.pos, sp), TSemicolon)
    ensures var (r, sps) := ParseSubprogramDeclarations(ts, s);
      Recovered(ts, s, EndOfSubprogram(ts, s.pos, sp), SUBPROGRAMS_ENDS, r) && sps == NoSubprograms
  {
    hide ParseSubprogramDeclaration, EndOfSubprogram, CompleteSubprogram, Moves, Consistent, Skip, First,
      SUBPROGRAMS_ENDS;
    SubprogramAccepted(ts, s, sp);
    SubprogramsStops(ts, EndOfSubprogram(ts, s.pos, sp));
  }

  /** How many tokens of `program name (` stand at `i`. */
  function HeadingBegun(ts: seq<Token>, i: nat): (n: nat)
    ensures n <= 3
  {
    if !Is(ts, i, TProgram) then 0 else if !Is(ts, i + 1, TIdentifier) then 1 else if !Is(ts, i + 2, TLParen) then 2
    else 3
  }

  /** The heading up to where it goes wrong. */
  lemma HeadingStart(ts: seq<Token>, s: State)
    requires !Raised(s) && HeadingBegun(ts, s.pos) < 3
    ensures var (n, (r, _, _, ok)) := (HeadingBegun(ts, s.pos), ParseHeading(ts, s));
      !ok && r == if n == 0 then Missing(ts, s, ExpectedProgram, PROGRAM_FOLLOW)
        else if n == 1 then Missing(ts, s.(pos := s.pos + 1), ExpectedIdentifier, PROGRAM_FOLLOW)
        else Missing(ts, s.(pos := s.pos + 2), ExpectedLParen, PROGRAM_FOLLOW)
  {
    hide ParseIdentifierList, Moves, Consistent, Panic, Cur;
  }

  lemma HeadingGivenUp(ts: seq<Token>, s: State)
    requires !Raised(s) && HeadingBegun(ts, s.pos) < 3
    ensures Recovered(ts, s, s.pos + HeadingBegun(ts, s.pos), PROGRAM_ENDS, ParseHeading(ts, s).0)
    ensures !ParseHeading(ts, s).3
  {
    hide ParseHeading, HeadingBegun, Moves, Consistent, Skip, First, PROGRAM_ENDS;
    HeadingStart(ts, s);
    ProgramStops(ts, s.pos + HeadingBegun(ts, s.pos));
  }

  /** The heading does not begin as it should: nothing behind it is looked at. */
  lemma HeadingMissing(ts: seq<Token>, s: State)
    requires !Raised(s) && HeadingBegun(ts, s.pos) < 3
    ensures var (r, p) := ParseProgram(ts, s);
      p.NullProgram? && Recovered(ts, s, s.pos + HeadingBegun(ts, s.pos), PROGRAM_ENDS, r)
  {
    hide ParseHeading, ParseBlock, Moves, Consistent, First;
    HeadingGivenUp(ts, s);
  }

  /** The heading from its list of names on. */
  lemma HeadingNames(ts: seq<Token>, s: State)
    requires !Raised(s) && HeadingBegun(ts, s.pos) == 3
    ensures var (s4, files) := ParseIdentifierList(ts, s.(pos := s.pos + 3));
      var (r, _, _, ok) := ParseHeading(ts, s);
      !Raised(s4) ==>
        if !Is(ts, s4.pos, TRParen) then !ok && r == Missing(ts, s4, ExpectedRParen, PROGRAM_FOLLOW)
        else if !Is(ts, s4.pos + 1, TSemicolon) then
          !ok && r == Missing(ts, s4.(pos := s4.pos + 1), ExpectedSemicolon, PROGRAM_FOLLOW)
        else ok && r == s4.(pos := s4.pos + 2)
  {
    hide ParseIdentifierList, Moves, Consistent, Panic, Missing, Report, Cur;
  }

  lemma HeadingLeft(ts: seq<Token>, s: State, ids: seq<Identifier>)
    requires !Raised(s) && HeadingBegun(ts, s.pos) == 3 && PlainNames(Identifiers(ids))
    requires EndOfNames(ts, s.pos + 3, ids) >= 0 && !Is(ts, EndOfNames(ts, s.pos + 3, ids), TComma)
    requires var j := EndOfNames(ts, s.pos + 3, ids); !(Is(ts, j, TRParen) && Is(ts, j + 1, TSemicolon))
    ensures var j := EndOfNames(ts, s.pos + 3, ids);
      Recovered(ts, s, if Is(ts, j, TRParen) then j + 1 else j, PROGRAM_ENDS, ParseHeading(ts, s).0)
    ensures !ParseHeading(ts, s).3
  {
    hide ParseIdentifierList, ParseHeading, HeadingBegun, EndOfNames, PlainNames, Moves, Consistent, Skip, First,
      PROGRAM_ENDS;
    var j := EndOfNames(ts, s.pos + 3, ids);
    NamesAccepted(ts, s.(pos := s.pos + 3), ids);
    HeadingNames(ts, s);
    ProgramStops(ts, if Is(ts, j, TRParen) then j + 1 else j);
  }

  /** Nor does it end as it should. */
  lemma HeadingUnended(ts: seq<Token>, s: State, ids: seq<Identifier>)
    requires !Raised(s) && HeadingBegun(ts, s.pos) == 3 && PlainNames(Identifiers(ids))
    requires EndOfNames(ts, s.pos + 3, ids) >= 0 && !Is(ts, EndOfNames(ts, s.pos + 3, ids), TComma)
    requires var j := EndOfNames(ts, s.pos + 3, ids); !(Is(ts, j, TRParen) && Is(ts, j + 1, TSemicolon))
    ensures var j := EndOfNames(ts, s.pos + 3, ids);
      var (r, p) := ParseProgram(ts, s);
      p.NullProgram? && Recovered(ts, s, if Is(ts, j, TRParen) then j + 1 else j, PROGRAM_ENDS, r)
  {
    hide ParseHeading, ParseBlock, HeadingBegun, EndOfNames, PlainNames, Moves, Consistent, First;
    HeadingLeft(ts, s, ids);
  }

  /** The main statement is not followed by a period. */
  lemma PeriodMissing(ts: seq<Token>, s: State, p: Program)
    requires s.code.NoError? && CompleteProgram(p)
    requires EndOfMainStatement(ts, s.pos, p) >= 0 && !Is(ts, EndOfMainStatement(ts, s.pos, p), TPeriod)
    ensures var (r, q) := ParseProgram(ts, s);
      q.NullProgram? && Recovered(ts, s, EndOfMainStatement(ts, s.pos, p), PROGRAM_ENDS, r)
  {
    hide ParseHeading, ParseBlock, EndOfHeading, EndOfDeclarations, EndOfSubprograms, EndOfStatement, PlainNames,
      PlainName,
      CompleteDeclarations, CompleteSubprograms, CompleteStatement, Moves, Consistent, Skip, First, PROGRAM_ENDS;
    HeadingAccepted(ts, s, p.programName, p.inputOutput);
    BlockUnended(ts, To(s, EndOfHeading(ts, s.pos, p.programName, p.inputOutput)), p);
  }

  /** Where the main statement ends. */
  function EndOfMainStatement(ts: seq<Token>, i: int, p: Program): int
    requires p.Program?
  {
    EndOfBody(ts, EndOfHeading(ts, i, p.programName, p.inputOutput), p)
  }

  function EndOfBody(ts: seq<Token>, i: int, p: Program): (j: int)
    requires p.Program?
    ensures j == -1 || 0 <= i < j
  {
    var j := EndOfDeclarations(ts, i, ListOf(p.variables));
    EndOfStatement(ts, EndOfSubprograms(ts, j, SubprogramList(p.functions)), p.mainProgram)
  }

  lemma BlockUnended(ts: seq<Token>, s: State, p: Program)
    requires s.code.NoError? && CompleteProgram(p)
    requires EndOfBody(ts, s.pos, p) >= 0 && !Is(ts, EndOfBody(ts, s.pos, p), TPeriod)
    ensures var (r, q) := ParseBlock(ts, s, p.programName, p.inputOutput);
      q.NullProgram? && Recovered(ts, s, EndOfBody(ts, s.pos, p), PROGRAM_ENDS, r)
  {
    hide ParseDeclarations, ParseSubprogramDeclarations, ParseCompoundStatement, EndOfDeclarations, EndOfSubprograms,
      EndOfStatement, PlainNames, PlainName, CompleteDeclarations, CompleteSubprograms, CompleteStatement, Moves,
      Consistent, Skip, First, PROGRAM_ENDS;
    var j := EndOfDeclarations(ts, s.pos, ListOf(p.variables));
    var k := EndOfSubprograms(ts, j, SubprogramList(p.functions));
    DeclarationsAccepted(ts, s, p.variables);
    SubprogramsAccepted(ts, To(s, j), p.functions);
    CompoundAccepted(ts, To(s, k), p.mainProgram);
    ProgramStops(ts, EndOfBody(ts, s.pos, p));
  }
}
