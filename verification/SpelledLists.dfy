/** In a spelled program no list of names is missing, so it meets the condition under which the parser goes
    through no null list. */
module SpelledLists {
  import opened Ast
  import opened Tokens
  import opened Parsing
  import opened Grammar
  import opened ParserComplete
  import opened ParserFaults
  import opened Printer

  /** No list is missing from `i` up to `j`. */
  ghost predicate Present(ts: seq<Token>, i: int, j: int) {
    forall k: nat :: i <= k < j ==> ListPresent(ts, k)
  }

  lemma Plain(ts: seq<Token>)
    ensures forall k: nat :: ListPresent(ts, k) || Is(ts, k, TVar) || Is(ts, k, TFunction) || Is(ts, k, TProcedure)
  {
    hide NullVariables, SomeNullArguments, HeadLists;
  }

  // ----- expressions -----

  lemma {:induction false} ExpressionPresent(ts: seq<Token>, i: int, e: Expression)
    ensures Present(ts, i, EndOfExpression(ts, i, e))
    decreases e, 2
  {
    hide ListPresent, EndOfSimple, Cur;
    Plain(ts);
    match e
    case NullExpression =>
    case RelOp(lhs, op, rhs) =>
      SimplePresent(ts, i, lhs);
      SimplePresent(ts, AfterOp(ts, EndOfSimple(ts, i, lhs), TRelOp, op), rhs);
    case AddOp(_, _, _, _) => SimplePresent(ts, i, e);
  }

  lemma {:induction false} SimplePresent(ts: seq<Token>, i: int, e: Expression)
    ensures Present(ts, i, EndOfSimple(ts, i, e))
    decreases e, 1
  {
    hide ListPresent, EndOfSum, Cur;
    Plain(ts);
    if e.AddOp? {
      SumPresent(ts, AfterSign(ts, i, e.negated), e);
    }
  }

  lemma {:induction false} SumPresent(ts: seq<Token>, i: int, e: Expression)
    ensures Present(ts, i, EndOfSum(ts, i, e))
    decreases e, 0
  {
    hide ListPresent, EndOfTerm, Cur;
    Plain(ts);
    if e.AddOp? {
      TermPresent(ts, i, e.term);
      if !e.rest.NullExpression? {
        SumPresent(ts, AfterOp(ts, EndOfTerm(ts, i, e.term), TAddOp, e.addOp), e.rest);
      }
    }
  }

  lemma {:induction false} TermPresent(ts: seq<Token>, i: int, t: Term)
    ensures Present(ts, i, EndOfTerm(ts, i, t))
    decreases t
  {
    hide ListPresent, EndOfFactor, Cur;
    Plain(ts);
    if t.Term? {
      FactorPresent(ts, i, t.factor);
      if !t.rest.NullTerm? {
        TermPresent(ts, AfterOp(ts, EndOfFactor(ts, i, t.factor), TMulOp, t.mulOp), t.rest);
      }
    }
  }

  lemma {:induction false} FactorPresent(ts: seq<Token>, i: int, f: Factor)
    ensures Present(ts, i, EndOfFactor(ts, i, f))
    decreases f
  {
    hide ListPresent, EndOfExpression, EndOfReference, Cur;
    Plain(ts);
    match f
    case NullFactor =>
    case NumberFactor(_) =>
    case NotFactor(factor) => FactorPresent(ts, After(ts, i, TNot), factor);
    case ParenFactor(e) => ExpressionPresent(ts, After(ts, i, TLParen), e);
    case IdFactor(id) => ReferencePresent(ts, i, id);
  }

  lemma {:induction false} ReferencePresent(ts: seq<Token>, i: int, id: Identifier)
    ensures Present(ts, i, EndOfReference(ts, i, id))
    decreases id, 1
  {
    hide ListPresent, EndOfSuffix, Cur;
    Plain(ts);
    if id.Identifier? {
      SuffixPresent(ts, AfterName(ts, i, id.name), id);
    }
  }

  lemma {:induction false} SuffixPresent(ts: seq<Token>, i: int, id: Identifier)
    requires id.Identifier?
    ensures Present(ts, i, EndOfSuffix(ts, i, id))
    decreases id, 0
  {
    hide ListPresent, EndOfArguments, EndOfExpression, Cur;
    Plain(ts);
    if id.parameters.Parameters? {
      ArgumentsPresent(ts, After(ts, i, TLParen), id.parameters.list);
    } else if !id.index.NullExpression? {
      ExpressionPresent(ts, After(ts, i, TLBracket), id.index);
    }
  }

  lemma {:induction false} ArgumentsPresent(ts: seq<Token>, i: int, es: seq<Expression>)
    ensures Present(ts, i, EndOfArguments(ts, i, es))
    decreases es
  {
    hide ListPresent, EndOfExpression, Cur;
    Plain(ts);
    if es != [] {
      ExpressionPresent(ts, i, es[0]);
      if |es| > 1 {
        ArgumentsPresent(ts, After(ts, EndOfExpression(ts, i, es[0]), TComma), es[1..]);
      }
    }
  }

  // ----- statements -----

  lemma {:induction false} StatementPresent(ts: seq<Token>, i: int, s: Statement)
    ensures Present(ts, i, EndOfStatement(ts, i, s))
    decreases s, 1
  {
    hide ListPresent, EndOfExpression, EndOfReference, EndOfStatements, Cur;
    Plain(ts);
    match s
    case NullStatement =>
    case AssignmentOrCall(id, value) =>
      ReferencePresent(ts, i, id);
      ExpressionPresent(ts, After(ts, EndOfReference(ts, i, id), TAssign), value);
    case Compound(statements) =>
      if statements.Statements? {
        StatementsPresent(ts, After(ts, i, TBegin), statements.list);
      }
    case If(_, _, _) => IfPresent(ts, i, s);
    case While(e, doPart) =>
      ExpressionPresent(ts, After(ts, i, TWhile), e);
      StatementPresent(ts, After(ts, EndOfExpression(ts, After(ts, i, TWhile), e), TDo), doPart);
  }

  lemma {:induction false} IfPresent(ts: seq<Token>, i: int, s: Statement)
    requires s.If?
    ensures Present(ts, i, EndOfStatement(ts, i, s))
    decreases s, 0
  {
    hide ListPresent, EndOfExpression, Cur;
    Plain(ts);
    var j := After(ts, EndOfExpression(ts, After(ts, i, TIf), s.expression), TThen);
    ExpressionPresent(ts, After(ts, i, TIf), s.expression);
    StatementPresent(ts, j, s.thenPart);
    StatementPresent(ts, After(ts, EndOfStatement(ts, j, s.thenPart), TElse), s.elsePart);
  }

  lemma {:induction false} StatementsPresent(ts: seq<Token>, i: int, ss: seq<Statement>)
    ensures Present(ts, i, EndOfStatements(ts, i, ss))
    decreases ss
  {
    hide ListPresent, EndOfStatement, Cur;
    Plain(ts);
    if ss != [] {
      StatementPresent(ts, i, ss[0]);
      if |ss| > 1 {
        StatementsPresent(ts, After(ts, EndOfStatement(ts, i, ss[0]), TSemicolon), ss[1..]);
      }
    }
  }

  // ----- declarations -----

  lemma {:induction false} NamesListPresent(ts: seq<Token>, i: int, ids: seq<Identifier>)
    ensures Present(ts, i, EndOfNames(ts, i, ids))
    decreases |ids|
  {
    hide ListPresent, Cur;
    Plain(ts);
    if ids != [] && ids[0].Identifier? && |ids| > 1 {
      NamesListPresent(ts, After(ts, AfterName(ts, i, ids[0].name), TComma), ids[1..]);
    }
  }

  lemma ArrayPresent(ts: seq<Token>, i: int, t: Type)
    requires t.Type? && t.isArray
    ensures Present(ts, i, EndOfType(ts, i, t))
  {
    hide ListPresent, Is, Cur, After, AfterNumber;
    if EndOfType(ts, i, t) >= 0 {
      NothingRead(ts, i, TArray);
      NothingRead(ts, i + 1, TLBracket);
      NothingRead(ts, i + 2, TNumber);
      NothingRead(ts, i + 3, TRange);
      NothingRead(ts, i + 4, TNumber);
      NothingRead(ts, i + 5, TRBracket);
      NothingRead(ts, i + 6, TOf);
      NothingRead(ts, i + 7, if t.standardType.Integer? then TInteger else TReal);
    }
  }

  lemma NothingRead(ts: seq<Token>, i: nat, k: Kind)
    requires Is(ts, i, k) && !k.TVar? && !k.TFunction? && !k.TProcedure?
    ensures ListPresent(ts, i)
  {
    Plain(ts);
  }

  lemma TypePresent(ts: seq<Token>, i: int, t: Type)
    ensures Present(ts, i, EndOfType(ts, i, t))
  {
    hide ListPresent, Cur;
    if t.Type? && t.isArray {
      ArrayPresent(ts, i, t);
    } else {
      Plain(ts);
    }
  }

  lemma GroupPresent(ts: seq<Token>, i: int, ds: seq<Declaration>)
    ensures Present(ts, i, EndOfGroup(ts, i, ds))
  {
    hide ListPresent, EndOfNames, EndOfType, NamesAt, Cur;
    Plain(ts);
    var n := NamesAt(ts, i);
    if 0 < n <= |ds| {
      var j := EndOfNames(ts, i, Names(ds[..n]));
      NamesListPresent(ts, i, Names(ds[..n]));
      TypePresent(ts, After(ts, j, TColon), ds[0].kind);
    }
  }

  /** Behind a `var` stands a name. */
  lemma VarPresent(ts: seq<Token>, i: nat)
    requires Is(ts, i, TVar) && NamesAt(ts, i + 1) > 0
    ensures ListPresent(ts, i)
  {
    hide GroupRead;
  }

  lemma {:induction false} DeclarationsPresent(ts: seq<Token>, i: int, ds: seq<Declaration>)
    ensures Present(ts, i, EndOfDeclarations(ts, i, ds))
    decreases |ds|
  {
    hide ListPresent, EndOfGroup, NamesAt, Cur;
    Plain(ts);
    if ds != [] {
      var j := After(ts, EndOfGroup(ts, After(ts, i, TVar), ds), TSemicolon);
      if j >= 0 {
        VarPresent(ts, i);
        GroupPresent(ts, i + 1, ds);
        DeclarationsPresent(ts, j, ds[NamesAt(ts, i + 1)..]);
      }
    }
  }

  lemma {:induction false} ArgumentListPresent(ts: seq<Token>, i: int, ds: seq<Declaration>)
    ensures Present(ts, i, EndOfArgumentList(ts, i, ds))
    decreases |ds|
  {
    hide ListPresent, EndOfGroup, NamesAt, Cur;
    Plain(ts);
    var j := EndOfGroup(ts, i, ds);
    GroupPresent(ts, i, ds);
    if j >= 0 && NamesAt(ts, i) != |ds| {
      ArgumentListPresent(ts, After(ts, j, TSemicolon), ds[NamesAt(ts, i)..]);
    }
  }

  // ----- subprograms and programs -----

  /** In the head of a spelled subprogram no list is missing. */
  lemma HeadStartPresent(ts: seq<Token>, i: nat, sp: Subprogram)
    requires CompleteSubprogram(sp) && EndOfHead(ts, i, sp) >= 0
    ensures ListPresent(ts, i)
  {
    hide EndOfArgumentList, ParseArgumentList, ArgumentLists, CompleteStatement, SomeNullArguments, NullVariables;
    NothingNull(ts);
    if sp.arguments.Declarations? {
      var s := State(i + 3, NoError, 0, false);
      ArgumentListAccepted(ts, s, sp.arguments.list);
      ArgumentListFaults(ts, s);
    }
  }

  lemma HeadPresent(ts: seq<Token>, i: int, sp: Subprogram)
    requires CompleteSubprogram(sp)
    ensures Present(ts, i, EndOfHead(ts, i, sp))
  {
    hide ListPresent, EndOfName, CompleteDeclarations, CompleteStatement, CompleteType, Cur;
    Plain(ts);
    if EndOfHead(ts, i, sp) >= 0 {
      HeadStartPresent(ts, i, sp);
      NamePartPresent(ts, i, sp.isFunction, sp.name, sp.arguments);
    }
  }

  lemma NamePartPresent(ts: seq<Token>, i: nat, isFunction: bool, name: Identifier, arguments: Declarations)
    ensures Present(ts, i + 1, EndOfName(ts, i, isFunction, name, arguments))
  {
    hide ListPresent, EndOfArgumentList, Cur;
    Plain(ts);
    if name.Identifier? && arguments.Declarations? {
      ArgumentListPresent(ts, i + 3, arguments.list);
    }
  }

  lemma SubprogramPresent(ts: seq<Token>, i: int, sp: Subprogram)
    requires CompleteSubprogram(sp)
    ensures Present(ts, i, EndOfSubprogram(ts, i, sp))
  {
    hide ListPresent, EndOfHead, EndOfDeclarations, EndOfStatement, Cur;
    var j := EndOfHead(ts, i, sp);
    HeadPresent(ts, i, sp);
    DeclarationsPresent(ts, j, ListOf(sp.declarations));
    StatementPresent(ts, EndOfDeclarations(ts, j, ListOf(sp.declarations)), sp.body);
  }

  lemma {:induction false} SubprogramsPresent(ts: seq<Token>, i: int, sps: seq<Subprogram>)
    requires forall sp :: sp in sps ==> CompleteSubprogram(sp)
    ensures Present(ts, i, EndOfSubprograms(ts, i, sps))
    decreases |sps|
  {
    hide ListPresent, EndOfSubprogram, CompleteSubprogram, Cur;
    Plain(ts);
    if sps != [] {
      SubprogramPresent(ts, i, sps[0]);
      SubprogramsPresent(ts, After(ts, EndOfSubprogram(ts, i, sps[0]), TSemicolon), sps[1..]);
    }
  }

  lemma HeadingPresent(ts: seq<Token>, i: int, name: Identifier, files: Identifiers)
    ensures Present(ts, i, EndOfHeading(ts, i, name, files))
  {
    hide ListPresent, EndOfNames, Cur;
    Plain(ts);
    if name.Identifier? && files.Identifiers? {
      NamesListPresent(ts, After(ts, AfterName(ts, After(ts, i, TProgram), name.name), TLParen), files.list);
    }
  }

  /** From the first token of a spelled program to its last no list is missing. */
  lemma ProgramPresent(ts: seq<Token>, p: Program)
    requires CompleteProgram(p)
    ensures Present(ts, 0, EndOfProgram(ts, 0, p))
  {
    hide ListPresent, EndOfHeading, EndOfDeclarations, EndOfSubprograms, EndOfStatement, CompleteSubprogram,
      CompleteDeclarations, CompleteStatement, PlainNames, Cur;
    Plain(ts);
    var i := EndOfHeading(ts, 0, p.programName, p.inputOutput);
    var j := EndOfDeclarations(ts, i, ListOf(p.variables));
    HeadingPresent(ts, 0, p.programName, p.inputOutput);
    DeclarationsPresent(ts, i, ListOf(p.variables));
    SubprogramsPresent(ts, j, SubprogramList(p.functions));
    StatementPresent(ts, EndOfSubprograms(ts, j, SubprogramList(p.functions)), p.mainProgram);
  }

  /** Every spelled program, and every printed one, meets the condition under which parsing is safe. */
  lemma SpelledSafe(ts: seq<Token>, p: Program)
    requires CompleteProgram(p)
    ensures EndOfProgram(ts, 0, p) == |ts| ==> ListsPresent(ts)
    ensures ListsPresent(PrintProgram(p))
  {
    hide EndOfProgram, PrintProgram, ListPresent, CompleteProgram;
    ProgramPresent(ts, p);
    ProgramPresent(PrintProgram(p), p);
    ProgramSpelled(PrintProgram(p), p);
  }

  // ----- the first place where something is wrong -----

  /** Behind a spelled subprogram the question whether a null list is gone through begins anew. */
  lemma SubprogramPassed(ts: seq<Token>, s: State, sp: Subprogram)
    requires s.code.NoError? && !s.fault && CompleteSubprogram(sp) && EndOfSubprogram(ts, s.pos, sp) >= 0
    requires Is(ts, EndOfSubprogram(ts, s.pos, sp), TSemicolon)
    ensures SomeNullSubprogramList(ts, s) <==>
      SomeNullSubprogramList(ts, s.(pos := EndOfSubprogram(ts, s.pos, sp) + 1))
  {
    hide ListPresent, SomeNullSubprogramList, SomeNullArguments, SomeNullVariables, HeadLists, VariableLists, EndOfHead,
      EndOfDeclarations, EndOfStatement, CompleteDeclarations, CompleteStatement, ParseSubprogramHead,
      ParseSubprogramDeclaration, ParseDeclarations, VariablesEnd;
    SubprogramAccepted(ts, s, sp);
    FirstSubprogramLists(ts, s);
    NoneInHead(ts, s.pos, sp);
    NoneInVariables(ts, s, sp);
  }

  lemma NoneInHead(ts: seq<Token>, i: nat, sp: Subprogram)
    requires CompleteSubprogram(sp) && EndOfHead(ts, i, sp) >= 0
    ensures !SomeNullArguments(ts, HeadLists(ts, i))
  {
    hide SomeNullArguments, HeadLists, EndOfArgumentList, NullVariables, CompleteSubprogram;
    HeadStartPresent(ts, i, sp);
  }

  lemma NoneInVariables(ts: seq<Token>, s: State, sp: Subprogram)
    requires s.code.NoError? && !s.fault && CompleteSubprogram(sp) && EndOfSubprogram(ts, s.pos, sp) >= 0
    ensures !SomeNullVariables(ts, VariableLists(ts, ParseSubprogramHead(ts, s).0.pos))
  {
    hide SomeNullVariables, VariableLists, EndOfHead, EndOfDeclarations, EndOfStatement, CompleteDeclarations,
      CompleteStatement, ParseSubprogramHead, ParseDeclarations, VariablesEnd;
    var h := s.(pos := EndOfHead(ts, s.pos, sp));
    HeadAccepted(ts, s, sp);
    DeclarationsAccepted(ts, h, sp.declarations);
    DeclarationFaults(ts, h);
  }

  lemma {:induction false} SubprogramsPassed(ts: seq<Token>, s: State, sps: seq<Subprogram>)
    requires s.code.NoError? && !s.fault && EndOfSubprograms(ts, s.pos, sps) >= 0
    requires forall sp :: sp in sps ==> CompleteSubprogram(sp)
    ensures SomeNullSubprogramList(ts, s) <==>
      SomeNullSubprogramList(ts, s.(pos := EndOfSubprograms(ts, s.pos, sps)))
    decreases |sps|
  {
    hide SomeNullSubprogramList, EndOfSubprogram, CompleteSubprogram, Cur;
    if sps != [] {
      SubprogramPassed(ts, s, sps[0]);
      SubprogramsPassed(ts, s.(pos := EndOfSubprogram(ts, s.pos, sps[0]) + 1), sps[1..]);
    }
  }

  /** The head of `sp` is spelled at `k`, and a list of names is missing among the variables behind it. */
  predicate VariablesMissing(ts: seq<Token>, k: nat, sp: Subprogram) {
    && CompleteSubprogram(sp) && EndOfHead(ts, k, sp) >= 0
    && SomeNullVariables(ts, VariableLists(ts, EndOfHead(ts, k, sp)))
  }

  lemma NextSubprogram(ts: seq<Token>, s: State)
    requires s.code.NoError? && !s.fault
    ensures !StartsSubprogram(Cur(ts, s.pos).kind) ==> !SomeNullSubprogramList(ts, s)
    ensures StartsSubprogram(Cur(ts, s.pos).kind) && SomeNullArguments(ts, HeadLists(ts, s.pos)) ==>
      SomeNullSubprogramList(ts, s)
    ensures forall sp :: VariablesMissing(ts, s.pos, sp) ==> SomeNullSubprogramList(ts, s)
  {
    hide SomeNullSubprogramList, SomeNullArguments, SomeNullVariables, VariableLists, HeadLists, ParseSubprogramHead,
      ParseSubprogramDeclaration, VariablesMissing;
    NoSubprogramFollows(ts, s);
    if StartsSubprogram(Cur(ts, s.pos).kind) {
      FirstSubprogramLists(ts, s);
    }
    forall sp | VariablesMissing(ts, s.pos, sp) ensures SomeNullSubprogramList(ts, s) {
      HeadThenMissing(ts, s, sp);
    }
  }

  lemma HeadThenMissing(ts: seq<Token>, s: State, sp: Subprogram)
    requires s.code.NoError? && !s.fault && VariablesMissing(ts, s.pos, sp)
    ensures SomeNullSubprogramList(ts, s)
  {
    hide SomeNullSubprogramList, SomeNullArguments, SomeNullVariables, VariableLists, HeadLists, ParseSubprogramHead,
      ParseSubprogramDeclaration, CompleteDeclarations, CompleteStatement, EndOfName;
    HeadAccepted(ts, s, sp);
    FirstSubprogramLists(ts, s);
  }

  /** Behind a spelled heading and spelled variables, only subprograms matter. */
  lemma SpelledStart(ts: seq<Token>, name: Identifier, files: Identifiers, ds: Declarations)
    requires PlainName(name) && PlainNames(files) && EndOfHeading(ts, 0, name, files) >= 0 && CompleteDeclarations(ds)
    requires var j := EndOfDeclarations(ts, EndOfHeading(ts, 0, name, files), ListOf(ds)); j >= 0 && !Is(ts, j, TVar)
    ensures Parse(ts).0.fault <==> SomeNullSubprogramList(ts,
      State(EndOfDeclarations(ts, EndOfHeading(ts, 0, name, files), ListOf(ds)), NoError, 0, false))
  {
    hide EndOfHeading, EndOfDeclarations, ParseHeading, ParseDeclarations, ParseBlock, VariableLists, VariablesEnd,
      SomeNullVariables, SomeNullSubprogramList, PlainNames, CompleteDeclarations;
    var s := State(EndOfHeading(ts, 0, name, files), NoError, 0, false);
    HeadingAccepted(ts, START, name, files);
    DeclarationsAccepted(ts, s, ds);
    DeclarationFaults(ts, s);
    BlockFaults(ts, s, name, files);
  }

  /** Behind a heading, variables and subprograms that are spelled right, tokens alone decide: no null list is
      gone through when no further subprogram begins at that place, and one is when the head that begins there
      lacks a list of names, or is spelled right and its variables lack one. */
  lemma FirstWrongPlace(ts: seq<Token>, name: Identifier, files: Identifiers, ds: Declarations, sps: seq<Subprogram>)
    requires PlainName(name) && PlainNames(files) && EndOfHeading(ts, 0, name, files) >= 0
    requires CompleteDeclarations(ds) && forall sp :: sp in sps ==> CompleteSubprogram(sp)
    requires var j := EndOfDeclarations(ts, EndOfHeading(ts, 0, name, files), ListOf(ds));
      j >= 0 && !Is(ts, j, TVar) && EndOfSubprograms(ts, j, sps) >= 0
    ensures var k := EndOfSubprograms(ts, EndOfDeclarations(ts, EndOfHeading(ts, 0, name, files), ListOf(ds)), sps);
      && (!StartsSubprogram(Cur(ts, k).kind) ==> !Parse(ts).0.fault)
      && (StartsSubprogram(Cur(ts, k).kind) && SomeNullArguments(ts, HeadLists(ts, k)) ==> Parse(ts).0.fault)
      && (forall sp :: VariablesMissing(ts, k, sp) ==> Parse(ts).0.fault)
  {
    hide *;
    var j := EndOfDeclarations(ts, EndOfHeading(ts, 0, name, files), ListOf(ds));
    var k := EndOfSubprograms(ts, j, sps);
    SpelledStart(ts, name, files, ds);
    SubprogramsPassed(ts, State(j, NoError, 0, false), sps);
    NextSubprogram(ts, State(k, NoError, 0, false));
  }
}
