/** The plain printed form of a syntax tree. */
module Printer {
  import opened Ast
  import opened Tokens
  import opened Parsing
  import opened Grammar
  import opened ParserComplete

  function PrintIndex(e: Expression): seq<Token>
    requires e.NullExpression? || CompleteExpression(e)
    decreases e, 3
  {
    if e.NullExpression? then [] else [Word(TLBracket)] + PrintExpression(e) + [Word(TRBracket)]
  }

  function PrintSuffix(id: Identifier): seq<Token>
    requires CompleteReference(id)
    decreases id, 0
  {
    if id.parameters.Parameters? then [Word(TLParen)] + PrintArguments(id.parameters.list) + [Word(TRParen)]
    else PrintIndex(id.index)
  }

  function PrintReference(id: Identifier): seq<Token>
    requires CompleteReference(id)
    decreases id, 1
  {
    [IdToken(id.name)] + PrintSuffix(id)
  }

  function PrintFactor(f: Factor): seq<Token>
    requires CompleteFactor(f)
    decreases f
  {
    match f
    case NumberFactor(number) => [NumberToken(number)]
    case NotFactor(factor) => [Word(TNot)] + PrintFactor(factor)
    case ParenFactor(e) => [Word(TLParen)] + PrintExpression(e) + [Word(TRParen)]
    case IdFactor(id) => PrintReference(id)
  }

  function PrintTerm(t: Term): seq<Token>
    requires CompleteTerm(t)
    decreases t
  {
    PrintFactor(t.factor) + if t.rest.NullTerm? then [] else [OpToken(TMulOp, t.mulOp)] + PrintTerm(t.rest)
  }

  function PrintSum(e: Expression): seq<Token>
    requires CompleteSum(e)
    decreases e, 0
  {
    PrintTerm(e.term) + if e.rest.NullExpression? then [] else [OpToken(TAddOp, e.addOp)] + PrintSum(e.rest)
  }

  function PrintSimple(e: Expression): seq<Token>
    requires CompleteSum(e)
    decreases e, 1
  {
    (if e.negated then [OpToken(TAddOp, Subtract)] else []) + PrintSum(e)
  }

  function PrintExpression(e: Expression): seq<Token>
    requires CompleteExpression(e)
    decreases e, 2
  {
    match e
    case RelOp(lhs, op, rhs) => PrintSimple(lhs) + [OpToken(TRelOp, op)] + PrintSimple(rhs)
    case AddOp(_, _, _, _) => PrintSimple(e)
  }

  function PrintArguments(es: seq<Expression>): seq<Token>
    requires CompleteExpressions(es)
    decreases es
  {
    if es == [] then []
    else PrintExpression(es[0]) + if |es| > 1 then [Word(TComma)] + PrintArguments(es[1..]) else []
  }

  function PrintStatement(s: Statement): seq<Token>
    requires CompleteStatement(s)
    decreases s
  {
    match s
    case AssignmentOrCall(id, value) =>
      PrintReference(id) + if value.NullExpression? then [] else [Word(TAssign)] + PrintExpression(value)
    case Compound(statements) =>
      [Word(TBegin)] + (if statements.Statements? then PrintStatements(statements.list) else []) + [Word(TEnd)]
    case If(e, thenPart, elsePart) =>
      [Word(TIf)] + PrintExpression(e) + [Word(TThen)] + PrintStatement(thenPart) + [Word(TElse)]
        + PrintStatement(elsePart)
    case While(e, doPart) => [Word(TWhile)] + PrintExpression(e) + [Word(TDo)] + PrintStatement(doPart)
  }

  function PrintStatements(ss: seq<Statement>): seq<Token>
    requires CompleteStatements(ss)
    decreases ss
  {
    if ss == [] then []
    else PrintStatement(ss[0]) + if |ss| > 1 then [Word(TSemicolon)] + PrintStatements(ss[1..]) else []
  }

  function PrintNames(ids: seq<Identifier>): seq<Token>
    requires forall id :: id in ids ==> PlainName(id)
    decreases |ids|
  {
    if ids == [] then []
    else
      assert ids[0] in ids && PlainName(ids[0]);
      [IdToken(ids[0].name)] + if |ids| > 1 then [Word(TComma)] + PrintNames(ids[1..]) else []
  }

  function PrintStandardType(n: NumberType): seq<Token> {
    [Word(if n.Integer? then TInteger else TReal)]
  }

  function PrintType(t: Type): seq<Token>
    requires CompleteType(t)
  {
    (if t.isArray then
       [Word(TArray), Word(TLBracket), NumberToken(t.startsAt), Word(TRange), NumberToken(t.endsAt), Word(TRBracket),
         Word(TOf)]
     else []) + PrintStandardType(t.standardType)
  }

  /** One name and its type. */
  function PrintDeclaration(d: Declaration): seq<Token>
    requires PlainName(d.id) && CompleteType(d.kind)
  {
    [IdToken(d.id.name), Word(TColon)] + PrintType(d.kind)
  }

  predicate AllDeclared(ds: seq<Declaration>) {
    forall d :: d in ds ==> PlainName(d.id) && CompleteType(d.kind)
  }

  function PrintDeclarations(ds: seq<Declaration>): seq<Token>
    requires AllDeclared(ds)
    decreases |ds|
  {
    if ds == [] then []
    else [Word(TVar)] + PrintDeclaration(ds[0]) + [Word(TSemicolon)] + PrintDeclarations(ds[1..])
  }

  function PrintArgumentList(ds: seq<Declaration>): seq<Token>
    requires AllDeclared(ds)
    decreases |ds|
  {
    if ds == [] then []
    else PrintDeclaration(ds[0]) + if |ds| > 1 then [Word(TSemicolon)] + PrintArgumentList(ds[1..]) else []
  }

  function PrintHeadArguments(ds: Declarations): seq<Token>
    requires CompleteDeclarations(ds)
  {
    if ds.Declarations? then [Word(TLParen)] + PrintArgumentList(ds.list) + [Word(TRParen)] else []
  }

  function PrintResult(sp: Subprogram): seq<Token>
    requires CompleteSubprogram(sp)
  {
    if sp.isFunction then [Word(TColon)] + PrintStandardType(sp.returnType.standardType) else []
  }

  function PrintHead(sp: Subprogram): seq<Token>
    requires CompleteSubprogram(sp)
  {
    [Word(if sp.isFunction then TFunction else TProcedure), IdToken(sp.name.name)] + PrintHeadArguments(sp.arguments)
    + PrintResult(sp) + [Word(TSemicolon)]
  }

  function PrintSubprogram(sp: Subprogram): seq<Token>
    requires CompleteSubprogram(sp)
  {
    PrintHead(sp) + PrintDeclarations(ListOf(sp.declarations)) + PrintStatement(sp.body)
  }

  function PrintSubprograms(sps: seq<Subprogram>): seq<Token>
    requires forall sp :: sp in sps ==> CompleteSubprogram(sp)
    decreases |sps|
  {
    if sps == [] then []
    else
      assert sps[0] in sps;
      PrintSubprogram(sps[0]) + [Word(TSemicolon)] + PrintSubprograms(sps[1..])
  }

  function PrintProgram(p: Program): seq<Token>
    requires CompleteProgram(p)
  {
    [Word(TProgram), IdToken(p.programName.name), Word(TLParen)] + PrintNames(p.inputOutput.list)
    + [Word(TRParen), Word(TSemicolon)] + PrintDeclarations(ListOf(p.variables))
    + PrintSubprograms(SubprogramList(p.functions)) + PrintStatement(p.mainProgram) + [Word(TPeriod)]
  }

  // ----- the printed form spells the tree -----

  /** The tokens `w` stand in `ts` from `i` on. */
  predicate Stands(ts: seq<Token>, i: nat, w: seq<Token>) {
    i + |w| <= |ts| && ts[i..i + |w|] == w
  }

  lemma StandsApart(ts: seq<Token>, i: nat, a: seq<Token>, b: seq<Token>)
    requires Stands(ts, i, a + b)
    ensures Stands(ts, i, a) && Stands(ts, i + |a|, b)
  {
    assert ts[i..i + |a + b|][..|a|] == a && ts[i..i + |a + b|][|a|..] == b;
  }

  lemma StandsOne(ts: seq<Token>, i: nat, t: Token)
    requires Stands(ts, i, [t])
    ensures Cur(ts, i) == t
  {
    assert ts[i..i + 1][0] == t;
  }

  lemma StandsFirst(ts: seq<Token>, i: nat, t: Token, b: seq<Token>)
    requires Stands(ts, i, [t] + b)
    ensures Cur(ts, i) == t && Stands(ts, i + 1, b)
  {
    StandsApart(ts, i, [t], b);
    StandsOne(ts, i, t);
  }

  /** `a` and one token after it. */
  lemma StandsLast(ts: seq<Token>, i: nat, a: seq<Token>, t: Token)
    requires Stands(ts, i, a + [t])
    ensures Stands(ts, i, a) && Cur(ts, i + |a|) == t
  {
    StandsApart(ts, i, a, [t]);
    StandsOne(ts, i + |a|, t);
  }

  lemma {:induction false} FactorSpelled(ts: seq<Token>, i: nat, f: Factor)
    requires CompleteFactor(f) && Stands(ts, i, PrintFactor(f))
    ensures EndOfFactor(ts, i, f) == i + |PrintFactor(f)|
    decreases f
  {
    hide PrintReference, PrintExpression, EndOfExpression, EndOfReference, CompleteExpression, CompleteReference,
      CompleteExpressions, Stands, Cur;
    match f
    case NumberFactor(number) =>
      StandsOne(ts, i, NumberToken(number));
    case NotFactor(factor) =>
      StandsFirst(ts, i, Word(TNot), PrintFactor(factor));
      FactorSpelled(ts, i + 1, factor);
    case ParenFactor(e) =>
      StandsLast(ts, i, [Word(TLParen)] + PrintExpression(e), Word(TRParen));
      StandsFirst(ts, i, Word(TLParen), PrintExpression(e));
      ExpressionSpelled(ts, i + 1, e);
    case IdFactor(id) =>
      ReferenceSpelled(ts, i, id);
  }

  lemma {:induction false} ReferenceSpelled(ts: seq<Token>, i: nat, id: Identifier)
    requires CompleteReference(id) && Stands(ts, i, PrintReference(id))
    ensures EndOfReference(ts, i, id) == i + |PrintReference(id)|
    decreases id, 1
  {
    hide PrintSuffix, EndOfSuffix, CompleteExpression, CompleteExpressions, Stands, Cur;
    StandsFirst(ts, i, IdToken(id.name), PrintSuffix(id));
    SuffixSpelled(ts, i + 1, id);
  }

  lemma {:induction false} SuffixSpelled(ts: seq<Token>, i: nat, id: Identifier)
    requires CompleteReference(id) && Stands(ts, i, PrintSuffix(id))
    ensures EndOfSuffix(ts, i, id) == i + |PrintSuffix(id)|
    decreases id, 0
  {
    hide PrintExpression, PrintArguments, EndOfExpression, EndOfArguments, CompleteExpression, CompleteExpressions,
      Stands, Cur;
    if id.parameters.Parameters? {
      var es := id.parameters.list;
      StandsLast(ts, i, [Word(TLParen)] + PrintArguments(es), Word(TRParen));
      StandsFirst(ts, i, Word(TLParen), PrintArguments(es));
      ArgumentsSpelled(ts, i + 1, es);
    } else if !id.index.NullExpression? {
      IndexSpelled(ts, i, id.index);
    }
  }

  lemma {:induction false} IndexSpelled(ts: seq<Token>, i: nat, e: Expression)
    requires !e.NullExpression? && CompleteExpression(e) && Stands(ts, i, PrintIndex(e))
    ensures EndOfIndex(ts, i, e) == i + |PrintIndex(e)|
    decreases e, 3
  {
    hide PrintExpression, EndOfExpression, CompleteExpression, Stands, Cur;
    StandsLast(ts, i, [Word(TLBracket)] + PrintExpression(e), Word(TRBracket));
    StandsFirst(ts, i, Word(TLBracket), PrintExpression(e));
    ExpressionSpelled(ts, i + 1, e);
  }

  lemma {:induction false} TermSpelled(ts: seq<Token>, i: nat, t: Term)
    requires CompleteTerm(t) && Stands(ts, i, PrintTerm(t))
    ensures EndOfTerm(ts, i, t) == i + |PrintTerm(t)|
    decreases t
  {
    hide PrintFactor, EndOfFactor, CompleteExpression, CompleteFactor, CompleteReference, CompleteExpressions, Stands,
      Cur;
    var w := PrintFactor(t.factor);
    StandsApart(ts, i, w, if t.rest.NullTerm? then [] else [OpToken(TMulOp, t.mulOp)] + PrintTerm(t.rest));
    FactorSpelled(ts, i, t.factor);
    if !t.rest.NullTerm? {
      StandsFirst(ts, i + |w|, OpToken(TMulOp, t.mulOp), PrintTerm(t.rest));
      TermSpelled(ts, i + |w| + 1, t.rest);
    }
  }

  lemma {:induction false} SumSpelled(ts: seq<Token>, i: nat, e: Expression)
    requires CompleteSum(e) && Stands(ts, i, PrintSum(e))
    ensures EndOfSum(ts, i, e) == i + |PrintSum(e)|
    decreases e, 0
  {
    hide PrintTerm, EndOfTerm, CompleteExpression, CompleteTerm, CompleteFactor, CompleteReference,
      CompleteExpressions, Stands, Cur;
    var w := PrintTerm(e.term);
    StandsApart(ts, i, w, if e.rest.NullExpression? then [] else [OpToken(TAddOp, e.addOp)] + PrintSum(e.rest));
    TermSpelled(ts, i, e.term);
    if !e.rest.NullExpression? {
      StandsFirst(ts, i + |w|, OpToken(TAddOp, e.addOp), PrintSum(e.rest));
      SumSpelled(ts, i + |w| + 1, e.rest);
    }
  }

  lemma {:induction false} SimpleSpelled(ts: seq<Token>, i: nat, e: Expression)
    requires CompleteSum(e) && Stands(ts, i, PrintSimple(e))
    ensures EndOfSimple(ts, i, e) == i + |PrintSimple(e)|
    decreases e, 1
  {
    hide PrintSum, EndOfSum, CompleteExpression, CompleteTerm, CompleteFactor, CompleteReference, CompleteExpressions,
      Stands, Cur;
    if e.negated {
      StandsFirst(ts, i, OpToken(TAddOp, Subtract), PrintSum(e));
      SumSpelled(ts, i + 1, e);
    } else {
      assert PrintSimple(e) == PrintSum(e);
      SumSpelled(ts, i, e);
    }
  }

  lemma {:induction false} ExpressionSpelled(ts: seq<Token>, i: nat, e: Expression)
    requires CompleteExpression(e) && Stands(ts, i, PrintExpression(e))
    ensures EndOfExpression(ts, i, e) == i + |PrintExpression(e)|
    decreases e, 2
  {
    hide PrintSimple, EndOfSimple, CompleteSum, Stands, Cur;
    if e.RelOp? {
      var w := PrintSimple(e.lhs);
      StandsApart(ts, i, w + [OpToken(TRelOp, e.relOp)], PrintSimple(e.rhs));
      StandsLast(ts, i, w, OpToken(TRelOp, e.relOp));
      SimpleSpelled(ts, i, e.lhs);
      SimpleSpelled(ts, i + |w| + 1, e.rhs);
    } else {
      SimpleSpelled(ts, i, e);
    }
  }

  lemma {:induction false} ArgumentsSpelled(ts: seq<Token>, i: nat, es: seq<Expression>)
    requires CompleteExpressions(es) && Stands(ts, i, PrintArguments(es)) && !Is(ts, i + |PrintArguments(es)|, TComma)
    ensures EndOfArguments(ts, i, es) == i + |PrintArguments(es)|
    decreases es
  {
    hide PrintExpression, EndOfExpression, CompleteExpression, Stands, Cur;
    if es != [] {
      var w := PrintExpression(es[0]);
      StandsApart(ts, i, w, if |es| > 1 then [Word(TComma)] + PrintArguments(es[1..]) else []);
      ExpressionSpelled(ts, i, es[0]);
      if |es| > 1 {
        StandsFirst(ts, i + |w|, Word(TComma), PrintArguments(es[1..]));
        ArgumentsSpelled(ts, i + |w| + 1, es[1..]);
      }
    }
  }

  lemma {:induction false} StatementSpelled(ts: seq<Token>, i: nat, s: Statement)
    requires CompleteStatement(s) && Stands(ts, i, PrintStatement(s))
    ensures EndOfStatement(ts, i, s) == i + |PrintStatement(s)|
    decreases s, 1
  {
    hide PrintReference, PrintExpression, PrintStatements, EndOfExpression, EndOfReference, EndOfStatements,
      CompleteExpression, CompleteReference, CompleteExpressions, CompleteStatements, Stands, Cur;
    match s
    case AssignmentOrCall(id, value) =>
      var w := PrintReference(id);
      StandsApart(ts, i, w, if value.NullExpression? then [] else [Word(TAssign)] + PrintExpression(value));
      ReferenceSpelled(ts, i, id);
      if !value.NullExpression? {
        StandsFirst(ts, i + |w|, Word(TAssign), PrintExpression(value));
        ExpressionSpelled(ts, i + |w| + 1, value);
      }
    case Compound(statements) =>
      var w := if statements.Statements? then PrintStatements(statements.list) else [];
      StandsLast(ts, i, [Word(TBegin)] + w, Word(TEnd));
      StandsFirst(ts, i, Word(TBegin), w);
      if statements.Statements? {
        StatementsSpelled(ts, i + 1, statements.list);
      }
    case If(_, _, _) => IfSpelled(ts, i, s);
    case While(_, _) => WhileSpelled(ts, i, s);
  }

  lemma {:induction false} IfSpelled(ts: seq<Token>, i: nat, s: Statement)
    requires s.If? && CompleteStatement(s) && Stands(ts, i, PrintStatement(s))
    ensures EndOfStatement(ts, i, s) == i + |PrintStatement(s)|
    decreases s, 0
  {
    hide PrintReference, PrintExpression, PrintStatements, EndOfExpression, EndOfReference, EndOfStatements,
      CompleteExpression, CompleteReference, CompleteExpressions, CompleteStatements, Stands, Cur;
    var (e, t) := (PrintExpression(s.expression), PrintStatement(s.thenPart));
    var upToElse := [Word(TIf)] + e + [Word(TThen)] + t + [Word(TElse)];
    StandsApart(ts, i, upToElse, PrintStatement(s.elsePart));
    StandsLast(ts, i, [Word(TIf)] + e + [Word(TThen)] + t, Word(TElse));
    StandsApart(ts, i, [Word(TIf)] + e + [Word(TThen)], t);
    StandsLast(ts, i, [Word(TIf)] + e, Word(TThen));
    StandsFirst(ts, i, Word(TIf), e);
    ExpressionSpelled(ts, i + 1, s.expression);
    StatementSpelled(ts, i + 1 + |e| + 1, s.thenPart);
    StatementSpelled(ts, i + |upToElse|, s.elsePart);
  }

  lemma {:induction false} WhileSpelled(ts: seq<Token>, i: nat, s: Statement)
    requires s.While? && CompleteStatement(s) && Stands(ts, i, PrintStatement(s))
    ensures EndOfStatement(ts, i, s) == i + |PrintStatement(s)|
    decreases s, 0
  {
    hide PrintReference, PrintExpression, PrintStatements, EndOfExpression, EndOfReference, EndOfStatements,
      CompleteExpression, CompleteReference, CompleteExpressions, CompleteStatements, Stands, Cur;
    var e := PrintExpression(s.expression);
    StandsApart(ts, i, [Word(TWhile)] + e + [Word(TDo)], PrintStatement(s.doPart));
    StandsLast(ts, i, [Word(TWhile)] + e, Word(TDo));
    StandsFirst(ts, i, Word(TWhile), e);
    ExpressionSpelled(ts, i + 1, s.expression);
    StatementSpelled(ts, i + 1 + |e| + 1, s.doPart);
  }

  lemma {:induction false} StatementsSpelled(ts: seq<Token>, i: nat, ss: seq<Statement>)
    requires CompleteStatements(ss) && Stands(ts, i, PrintStatements(ss))
    ensures EndOfStatements(ts, i, ss) == i + |PrintStatements(ss)|
    decreases ss
  {
    hide PrintStatement, EndOfStatement, CompleteExpression, CompleteReference, CompleteExpressions,
      CompleteStatement, Stands, Cur;
    if ss != [] {
      var w := PrintStatement(ss[0]);
      StandsApart(ts, i, w, if |ss| > 1 then [Word(TSemicolon)] + PrintStatements(ss[1..]) else []);
      StatementSpelled(ts, i, ss[0]);
      if |ss| > 1 {
        StandsFirst(ts, i + |w|, Word(TSemicolon), PrintStatements(ss[1..]));
        StatementsSpelled(ts, i + |w| + 1, ss[1..]);
      }
    }
  }

  lemma {:induction false} NamesSpelled(ts: seq<Token>, i: nat, ids: seq<Identifier>)
    requires ids != [] && (forall id :: id in ids ==> PlainName(id)) && Stands(ts, i, PrintNames(ids))
    ensures EndOfNames(ts, i, ids) == i + |PrintNames(ids)|
    decreases |ids|
  {
    hide After, AfterName, Stands, Cur;
    assert ids[0] in ids;
    StandsFirst(ts, i, IdToken(ids[0].name), if |ids| > 1 then [Word(TComma)] + PrintNames(ids[1..]) else []);
    if |ids| > 1 {
      StandsFirst(ts, i + 1, Word(TComma), PrintNames(ids[1..]));
      NamesSpelled(ts, i + 2, ids[1..]);
    }
  }

  lemma StandardTypeSpelled(ts: seq<Token>, i: nat, n: NumberType)
    requires Stands(ts, i, PrintStandardType(n))
    ensures EndOfStandardType(ts, i, n) == i + 1 == i + |PrintStandardType(n)|
  {
    StandsOne(ts, i, Word(if n.Integer? then TInteger else TReal));
  }

  lemma TypeSpelled(ts: seq<Token>, i: nat, t: Type)
    requires CompleteType(t) && Stands(ts, i, PrintType(t))
    ensures EndOfType(ts, i, t) == i + |PrintType(t)|
  {
    hide After, PrintStandardType, EndOfStandardType, Stands, Cur;
    if t.isArray {
      var w := [Word(TArray), Word(TLBracket), NumberToken(t.startsAt), Word(TRange), NumberToken(t.endsAt),
        Word(TRBracket), Word(TOf)];
      StandsApart(ts, i, w, PrintStandardType(t.standardType));
      StandsAll(ts, i, w);
      assert Cur(ts, i) == w[0] && Cur(ts, i + 1) == w[1] && Cur(ts, i + 2) == w[2] && Cur(ts, i + 3) == w[3];
      assert Cur(ts, i + 4) == w[4] && Cur(ts, i + 5) == w[5] && Cur(ts, i + 6) == w[6];
      StandardTypeSpelled(ts, i + 7, t.standardType);
    } else {
      assert PrintType(t) == PrintStandardType(t.standardType);
      StandardTypeSpelled(ts, i, t.standardType);
    }
  }

  /** A declaration printed on its own is a group of one. */
  lemma DeclarationSpelled(ts: seq<Token>, i: nat, ds: seq<Declaration>)
    requires ds != [] && PlainName(ds[0].id) && CompleteType(ds[0].kind) && Stands(ts, i, PrintDeclaration(ds[0]))
    ensures EndOfGroup(ts, i, ds) == i + |PrintDeclaration(ds[0])| && NamesAt(ts, i) == 1
  {
    hide After, AfterName, PrintType, EndOfType, CompleteType, Stands, Cur;
    var d := ds[0];
    assert PrintDeclaration(d) == [IdToken(d.id.name)] + ([Word(TColon)] + PrintType(d.kind));
    StandsFirst(ts, i, IdToken(d.id.name), [Word(TColon)] + PrintType(d.kind));
    StandsFirst(ts, i + 1, Word(TColon), PrintType(d.kind));
    TypeSpelled(ts, i + 2, d.kind);
    assert Names(ds[..1]) == [d.id];
  }

  lemma {:induction false} DeclarationsSpelled(ts: seq<Token>, i: nat, ds: seq<Declaration>)
    requires AllDeclared(ds) && Stands(ts, i, PrintDeclarations(ds))
    ensures EndOfDeclarations(ts, i, ds) == i + |PrintDeclarations(ds)|
    decreases |ds|
  {
    hide After, PrintDeclaration, NamesAt, EndOfGroup, CompleteType, PlainName, Stands, Cur;
    if ds != [] {
      assert ds[0] in ds;
      var w := PrintDeclaration(ds[0]);
      StandsApart(ts, i, [Word(TVar)] + w + [Word(TSemicolon)], PrintDeclarations(ds[1..]));
      StandsLast(ts, i, [Word(TVar)] + w, Word(TSemicolon));
      StandsFirst(ts, i, Word(TVar), w);
      DeclarationSpelled(ts, i + 1, ds);
      DeclarationsSpelled(ts, i + 1 + |w| + 1, ds[1..]);
    }
  }

  lemma {:induction false} ArgumentListSpelled(ts: seq<Token>, i: nat, ds: seq<Declaration>)
    requires ds != [] && AllDeclared(ds) && Stands(ts, i, PrintArgumentList(ds))
    ensures EndOfArgumentList(ts, i, ds) == i + |PrintArgumentList(ds)|
    decreases |ds|
  {
    hide After, PrintDeclaration, NamesAt, EndOfGroup, CompleteType, PlainName, Stands, Cur;
    assert ds[0] in ds;
    var w := PrintDeclaration(ds[0]);
    StandsApart(ts, i, w, if |ds| > 1 then [Word(TSemicolon)] + PrintArgumentList(ds[1..]) else []);
    DeclarationSpelled(ts, i, ds);
    if |ds| > 1 {
      StandsFirst(ts, i + |w|, Word(TSemicolon), PrintArgumentList(ds[1..]));
      ArgumentListSpelled(ts, i + |w| + 1, ds[1..]);
    }
  }

  lemma HeadArgumentsSpelled(ts: seq<Token>, i: nat, ds: Declarations)
    requires CompleteDeclarations(ds) && Stands(ts, i, PrintHeadArguments(ds))
    ensures (if ds.Declarations? then After(ts, EndOfArgumentList(ts, After(ts, i, TLParen), ds.list), TRParen)
      else i as int)
         == i + |PrintHeadArguments(ds)|
  {
    hide After, PrintArgumentList, CompleteType, PlainName, EndOfArgumentList, Stands, Cur;
    if ds.Declarations? {
      var w := PrintArgumentList(ds.list);
      StandsLast(ts, i, [Word(TLParen)] + w, Word(TRParen));
      StandsFirst(ts, i, Word(TLParen), w);
      ArgumentListSpelled(ts, i + 1, ds.list);
    }
  }

  lemma HeadParts(sp: Subprogram)
    requires CompleteSubprogram(sp)
    ensures sp.Subprogram? && sp.name.Identifier? && CompleteDeclarations(sp.arguments)
    ensures sp.isFunction ==> sp.returnType.Type?
  {
  }

  lemma HeadStartSpelled(ts: seq<Token>, i: nat, k: Kind, name: string)
    requires k != TEof && Stands(ts, i, [Word(k), IdToken(name)])
    ensures AfterName(ts, After(ts, i, k), name) == i + 2
  {
    hide Stands, Cur;
    var start := [Word(k), IdToken(name)];
    StandsAll(ts, i, start);
    assert Cur(ts, i) == start[0] && Cur(ts, i + 1) == start[1];
  }

  lemma ResultSpelled(ts: seq<Token>, i: nat, sp: Subprogram)
    requires CompleteSubprogram(sp) && Stands(ts, i, PrintResult(sp))
    ensures sp.Subprogram? && EndOfResult(ts, i, sp.isFunction, sp.returnType) == i + |PrintResult(sp)|
  {
    hide PrintStandardType, EndOfStandardType, CompleteDeclarations, CompleteStatement, Stands, Cur;
    HeadParts(sp);
    if sp.isFunction {
      StandsFirst(ts, i, Word(TColon), PrintStandardType(sp.returnType.standardType));
      StandardTypeSpelled(ts, i + 1, sp.returnType.standardType);
    }
  }

  lemma NamePartSpelled(ts: seq<Token>, i: nat, isFunction: bool, name: Identifier, arguments: Declarations)
    requires name.Identifier? && CompleteDeclarations(arguments)
    requires Stands(ts, i, [Word(if isFunction then TFunction else TProcedure), IdToken(name.name)]
      + PrintHeadArguments(arguments))
    ensures EndOfName(ts, i, isFunction, name, arguments) == i + 2 + |PrintHeadArguments(arguments)|
  {
    hide PrintHeadArguments, After, AfterName, EndOfArgumentList, CompleteDeclarations, Stands, Cur;
    var k := if isFunction then TFunction else TProcedure;
    StandsApart(ts, i, [Word(k), IdToken(name.name)], PrintHeadArguments(arguments));
    HeadStartSpelled(ts, i, k, name.name);
    HeadArgumentsSpelled(ts, i + 2, arguments);
  }

  lemma HeadSpelled(ts: seq<Token>, i: nat, sp: Subprogram)
    requires CompleteSubprogram(sp) && Stands(ts, i, PrintHead(sp))
    ensures EndOfHead(ts, i, sp) == i + |PrintHead(sp)|
  {
    hide PrintResult, PrintHeadArguments, EndOfResult, EndOfName, CompleteDeclarations, CompleteSubprogram, Stands, Cur;
    HeadParts(sp);
    var start := [Word(if sp.isFunction then TFunction else TProcedure), IdToken(sp.name.name)];
    var (arguments, result) := (PrintHeadArguments(sp.arguments), PrintResult(sp));
    StandsLast(ts, i, start + arguments + result, Word(TSemicolon));
    StandsApart(ts, i, start + arguments, result);
    NamePartSpelled(ts, i, sp.isFunction, sp.name, sp.arguments);
    ResultSpelled(ts, i + 2 + |arguments|, sp);
  }

  lemma SubprogramSpelled(ts: seq<Token>, i: nat, sp: Subprogram)
    requires CompleteSubprogram(sp) && Stands(ts, i, PrintSubprogram(sp))
    ensures EndOfSubprogram(ts, i, sp) == i + |PrintSubprogram(sp)|
  {
    hide PrintDeclarations, PrintHead, PrintStatement, CompleteType, PlainName, EndOfDeclarations, EndOfHead,
      EndOfStatement, CompleteStatement, Stands, Cur;
    var (head, ds) := (PrintHead(sp), PrintDeclarations(ListOf(sp.declarations)));
    StandsApart(ts, i, head + ds, PrintStatement(sp.body));
    StandsApart(ts, i, head, ds);
    HeadSpelled(ts, i, sp);
    DeclarationsSpelled(ts, i + |head|, ListOf(sp.declarations));
    StatementSpelled(ts, i + |head + ds|, sp.body);
  }

  lemma {:induction false} SubprogramsSpelled(ts: seq<Token>, i: nat, sps: seq<Subprogram>)
    requires (forall sp :: sp in sps ==> CompleteSubprogram(sp)) && Stands(ts, i, PrintSubprograms(sps))
    ensures EndOfSubprograms(ts, i, sps) == i + |PrintSubprograms(sps)|
    decreases |sps|
  {
    hide After, PrintSubprogram, CompleteType, PlainName, EndOfSubprogram, CompleteDeclarations, CompleteSubprogram,
      CompleteStatement, Stands, Cur;
    if sps != [] {
      assert sps[0] in sps;
      var w := PrintSubprogram(sps[0]);
      StandsApart(ts, i, w + [Word(TSemicolon)], PrintSubprograms(sps[1..]));
      StandsLast(ts, i, w, Word(TSemicolon));
      SubprogramSpelled(ts, i, sps[0]);
      SubprogramsSpelled(ts, i + |w| + 1, sps[1..]);
    }
  }

  lemma ProgramSpelled(ts: seq<Token>, p: Program)
    requires CompleteProgram(p) && PrintProgram(p) <= ts
    ensures EndOfProgram(ts, 0, p) == |PrintProgram(p)|
  {
    hide PrintNames, After, PrintDeclarations, PrintSubprograms, PrintStatement, CompleteType, EndOfDeclarations,
      EndOfSubprograms, EndOfStatement, EndOfHeading, CompleteSubprogram, CompleteStatement, Cur;
    var start := [Word(TProgram), IdToken(p.programName.name), Word(TLParen)];
    var (files, close) := (PrintNames(p.inputOutput.list), [Word(TRParen), Word(TSemicolon)]);
    var (ds, sps) := (PrintDeclarations(ListOf(p.variables)), PrintSubprograms(SubprogramList(p.functions)));
    var main := PrintStatement(p.mainProgram);
    assert Stands(ts, 0, PrintProgram(p)) by { assert ts[0..|PrintProgram(p)|] == PrintProgram(p); }
    StandsLast(ts, 0, start + files + close + ds + sps + main, Word(TPeriod));
    StandsApart(ts, 0, start + files + close + ds + sps, main);
    StandsApart(ts, 0, start + files + close + ds, sps);
    StandsApart(ts, 0, start + files + close, ds);
    HeadingSpelled(ts, p.programName, p.inputOutput);
    DeclarationsSpelled(ts, |start + files + close|, ListOf(p.variables));
    SubprogramsSpelled(ts, |start + files + close + ds|, SubprogramList(p.functions));
    StatementSpelled(ts, |start + files + close + ds + sps|, p.mainProgram);
  }

  lemma HeadingSpelled(ts: seq<Token>, name: Identifier, files: Identifiers)
    requires PlainName(name) && PlainNames(files)
    requires Stands(ts, 0, [Word(TProgram), IdToken(name.name), Word(TLParen)] + PrintNames(files.list)
      + [Word(TRParen), Word(TSemicolon)])
    ensures EndOfHeading(ts, 0, name, files) == 3 + |PrintNames(files.list)| + 2
  {
    hide PrintNames, After, AfterName, EndOfNames, PlainName, Stands, Cur;
    NotNull(name, files);
    var start := [Word(TProgram), IdToken(name.name), Word(TLParen)];
    var w := PrintNames(files.list);
    var close := [Word(TRParen), Word(TSemicolon)];
    StandsApart(ts, 0, start + w, close);
    StandsApart(ts, 0, start, w);
    NamesSpelled(ts, 3, files.list);
    OpenSpelled(ts, name);
    CloseSpelled(ts, 3 + |w|);
  }

  lemma OpenSpelled(ts: seq<Token>, name: Identifier)
    requires name.Identifier? && Stands(ts, 0, [Word(TProgram), IdToken(name.name), Word(TLParen)])
    ensures After(ts, AfterName(ts, After(ts, 0, TProgram), name.name), TLParen) == 3
  {
    hide Stands, Cur;
    var start := [Word(TProgram), IdToken(name.name), Word(TLParen)];
    StandsAll(ts, 0, start);
    assert Cur(ts, 0) == start[0] && Cur(ts, 1) == start[1] && Cur(ts, 2) == start[2];
  }

  lemma CloseSpelled(ts: seq<Token>, i: nat)
    requires Stands(ts, i, [Word(TRParen), Word(TSemicolon)])
    ensures After(ts, After(ts, i, TRParen), TSemicolon) == i + 2
  {
    hide Stands, Cur;
    var close := [Word(TRParen), Word(TSemicolon)];
    StandsAll(ts, i, close);
    assert Cur(ts, i) == close[0] && Cur(ts, i + 1) == close[1];
  }

  lemma NotNull(name: Identifier, files: Identifiers)
    requires PlainName(name) && PlainNames(files)
    ensures name.Identifier? && files.Identifiers?
  {
  }

  lemma StandsAll(ts: seq<Token>, i: nat, w: seq<Token>)
    requires Stands(ts, i, w)
    ensures forall k: nat :: k < |w| ==> Cur(ts, i + k) == w[k]
  {
    forall k: nat | k < |w| ensures Cur(ts, i + k) == w[k] {
      assert ts[i..i + |w|][k] == w[k];
    }
  }

  // ----- the round trip -----

  /** Printing a program and parsing it, whatever follows, gives the same program without errors. */
  lemma ParsePrint(p: Program, more: seq<Token>)
    requires CompleteProgram(p)
    ensures Parse(PrintProgram(p) + more) == (State(|PrintProgram(p)|, NoError, 0, false), p)
  {
    var ts := PrintProgram(p) + more;
    ProgramSpelled(ts, p);
    ProgramAccepted(ts, START, p);
  }

  /** No two programs share a printed form, and none is the beginning of another. */
  lemma PrintInjective(p: Program, q: Program)
    requires CompleteProgram(p) && CompleteProgram(q) && PrintProgram(p) <= PrintProgram(q)
    ensures p == q
  {
    var more := PrintProgram(q)[|PrintProgram(p)|..];
    assert PrintProgram(p) + more == PrintProgram(q) + [];
    ParsePrint(p, more);
    ParsePrint(q, []);
  }
}
