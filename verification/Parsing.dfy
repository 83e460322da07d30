/** The parser as functions from state to state: the position in the input, the error code, the number of
    errors, and whether a null list was dereferenced on the way. */
module Parsing {
  import opened Ast
  import opened Tokens

  datatype ErrorCode =
    | Recovering
    | NoError
    | ExpectedAssignment | ExpectedColon | ExpectedDo | ExpectedBegin | ExpectedElse | ExpectedEnd
    | ExpectedIdentifier | ExpectedLBracket | ExpectedLParen | ExpectedNumber | ExpectedOf | ExpectedPeriod
    | ExpectedProgram | ExpectedRange | ExpectedRBracket | ExpectedRParen | ExpectedSemicolon
    | ExpectedStandardType | ExpectedStatement | ExpectedSubprogramHead | ExpectedThen

  datatype State = State(pos: nat, code: ErrorCode, count: nat, fault: bool)

  /** `m_errorCode > ErrorCodes::NoError`: recovering does not count. */
  predicate Raised(s: State) {
    !s.code.Recovering? && !s.code.NoError?
  }

  /** An error is signalled exactly when one has been counted, and only after an error can a null list be met. */
  predicate Consistent(s: State) {
    && (s.code.NoError? <==> s.count == 0)
    && !s.code.ExpectedStatement?
    && (s.fault ==> s.count > 0)
  }

  /** What every parsing step keeps. */
  predicate Moves(s: State, r: State) {
    s.pos <= r.pos && s.count <= r.count && (s.fault ==> r.fault) && (Consistent(s) ==> Consistent(r))
  }

  /** How much of the input is left: every recursive cycle of the parser makes this smaller. */
  function Left(ts: seq<Token>, s: State): nat {
    if s.pos < |ts| then |ts| - s.pos else 0
  }

  // ----- matching, reporting, recovering -----

  function Match(ts: seq<Token>, s: State, k: Kind): (r: (State, bool))
    requires k != TEof
    ensures Moves(s, r.0) && (r.1 <==> Is(ts, s.pos, k)) && (r.1 ==> s.pos < |ts| && r.0 == s.(pos := s.pos + 1))
    ensures !r.1 ==> r.0 == s
  {
    if Is(ts, s.pos, k) then (s.(pos := s.pos + 1), true) else (s, false)
  }

  function Report(s: State, code: ErrorCode): (r: State)
    requires !code.NoError? && !code.Recovering? && !code.ExpectedStatement?
    ensures Moves(s, r) && Raised(r) && r.count == s.count + 1 && r.fault == s.fault
  {
    s.(code := code, count := s.count + 1)
  }

  /** Where skipping stops: at a synchronising token, or at end-of-file once it has moved. */
  function Skip(ts: seq<Token>, pos: nat, follow: seq<Kind>): (r: nat)
    ensures pos <= r
    ensures Cur(ts, r).kind in follow || Is(ts, r, TEof)
    ensures forall i :: pos <= i < r ==> Cur(ts, i).kind !in follow
    decreases |ts| - pos
  {
    if Cur(ts, pos).kind in follow then pos
    else if Is(ts, Following(ts, pos), TEof) then Following(ts, pos)
    else Skip(ts, Following(ts, pos), follow)
  }

  function Panic(ts: seq<Token>, s: State, follow: seq<Kind>): (r: State)
    requires Consistent(s) ==> s.count > 0
    ensures Moves(s, r) && r.code == Recovering && r.count == s.count && r.fault == s.fault
  {
    s.(pos := Skip(ts, s.pos, follow), code := Recovering)
  }

  const COMPOUND_STATEMENT_FOLLOW := [TEof, TPeriod, TSemicolon]
  const DECLARATIONS_FOLLOW := [TVar, TProcedure, TFunction, TBegin, TEof]
  /** The size given in the source leaves out the last entry. */
  const FACTOR_FOLLOW := [TDo, TEnd, TEof, TMulOp, TPeriod, TSemicolon, TRelOp, TRParen][..7]
  const IDENTIFIER_LIST_FOLLOW := [TColon, TSemicolon, TRParen]
  const OPTIONAL_INDEX_FOLLOW := [TAssign, TEnd, TEof, TMulOp, TPeriod, TSemicolon]
  const OPTIONAL_STATEMENTS_FOLLOW := [TEnd, TEof, TPeriod, TSemicolon]
  const PROGRAM_FOLLOW := [TEof]
  /** The size given in the source leaves out the last entry. */
  const SIMPLE_EXPRESSION_FOLLOW := [TEnd, TEof, TDo, TPeriod, TSemicolon, TRelOp, TRParen][..6]
  const STATEMENT_FOLLOW := [TEnd, TEof, TPeriod, TSemicolon]
  const STATEMENT_LIST_FOLLOW := [TEnd, TEof, TPeriod, TSemicolon]
  const SUBPROGRAM_DECLARATION_FOLLOW := [TBegin, TEof, TPeriod, TSemicolon]
  const SUBPROGRAM_DECLARATIONS_FOLLOW := [TBegin, TEof, TPeriod]
  const SUBPROGRAM_HEAD_FOLLOW := [TBegin, TEof, TPeriod, TVar]
  const TERM_FOLLOW := [TEnd, TEof, TMulOp, TPeriod, TSemicolon, TRelOp, TRParen]
  const TYPE_FOLLOW := [TBegin, TFunction, TEof, TProcedure, TSemicolon]

  /** Report a missing token and skip. */
  function Missing(ts: seq<Token>, s: State, code: ErrorCode, follow: seq<Kind>): (r: State)
    requires !code.NoError? && !code.Recovering? && !code.ExpectedStatement?
    ensures Moves(s, r) && r.code == Recovering && r.count == s.count + 1 && r.fault == s.fault
  {
    Panic(ts, Report(s, code), follow)
  }

  // ----- identifiers, numbers, types -----

  function ParseIdentifier(ts: seq<Token>, s: State): (r: (State, Identifier))
    ensures Moves(s, r.0) && r.0.fault == s.fault && (r.1.NullIdentifier? ==> Raised(r.0))
  {
    var (s1, ok) := Match(ts, s, TIdentifier);
    if !ok then (Report(s1, ExpectedIdentifier), NullIdentifier)
    else (s1, Identifier(Cur(ts, s.pos).text, NullExpression, NoParameters))
  }

  function ParseNumber(ts: seq<Token>, s: State): (r: (State, Number))
    ensures Moves(s, r.0) && r.0.fault == s.fault
  {
    var (s1, ok) := Match(ts, s, TNumber);
    if !ok then (Report(s1, ExpectedNumber), NullNumber)
    else (s1, Number(Cur(ts, s.pos).text, Cur(ts, s.pos).number))
  }

  function ParseIdentifierList(ts: seq<Token>, s: State): (r: (State, Identifiers))
    ensures Moves(s, r.0) && r.0.fault == s.fault && (r.1.NoIdentifiers? && Consistent(s) ==> r.0.count > 0)
    decreases Left(ts, s), 1
  {
    var (s1, id) := ParseIdentifier(ts, s);
    if Raised(s1) then (Panic(ts, s1, IDENTIFIER_LIST_FOLLOW), NoIdentifiers)
    else
      var (s2, rest) := ParseIdentifierListRest(ts, s1);
      (s2, Identifiers([id] + (if rest.Identifiers? then rest.list else [])))
  }

  function ParseIdentifierListRest(ts: seq<Token>, s: State): (r: (State, Identifiers))
    ensures Moves(s, r.0) && r.0.fault == s.fault
    decreases Left(ts, s), 0
  {
    var (s1, ok) := Match(ts, s, TComma);
    if ok then ParseIdentifierList(ts, s1) else (s1, NoIdentifiers)
  }

  function ParseStandardType(ts: seq<Token>, s: State): (r: (State, Type))
    ensures Moves(s, r.0) && r.0.fault == s.fault && (r.1.NullType? ==> Raised(r.0))
  {
    if Is(ts, s.pos, TInteger) then (Match(ts, s, TInteger).0, Type(Integer, false, NullNumber, NullNumber))
    else if Is(ts, s.pos, TReal) then (Match(ts, s, TReal).0, Type(Real, false, NullNumber, NullNumber))
    else (Report(s, ExpectedStandardType), NullType)
  }

  function ParseType(ts: seq<Token>, s: State): (r: (State, Type))
    ensures Moves(s, r.0) && r.0.fault == s.fault
  {
    var (s1, isArray) := Match(ts, s, TArray);
    if !isArray then ParseStandardType(ts, s1)
    else
      var (s2, ok2) := Match(ts, s1, TLBracket);
      if !ok2 then (Missing(ts, s2, ExpectedLBracket, TYPE_FOLLOW), NullType)
      else
        var (s3, from) := ParseNumber(ts, s2);
        if Raised(s3) then (Panic(ts, s3, TYPE_FOLLOW), NullType)
        else
          var (s4, ok4) := Match(ts, s3, TRange);
          if !ok4 then (Missing(ts, s4, ExpectedRange, TYPE_FOLLOW), NullType)
          else
            var (s5, to) := ParseNumber(ts, s4);
            if Raised(s5) then (Panic(ts, s5, TYPE_FOLLOW), NullType)
            else
              ParseElement(ts, s5, from, to)
  }

  /** The rest of an array type, after its bounds. */
  function ParseElement(ts: seq<Token>, s: State, from: Number, to: Number): (r: (State, Type))
    ensures Moves(s, r.0) && r.0.fault == s.fault
  {
    var (s1, ok1) := Match(ts, s, TRBracket);
    if !ok1 then (Missing(ts, s1, ExpectedRBracket, TYPE_FOLLOW), NullType)
    else
      var (s2, ok2) := Match(ts, s1, TOf);
      if !ok2 then (Missing(ts, s2, ExpectedOf, TYPE_FOLLOW), NullType)
      else
        var (s3, element) := ParseStandardType(ts, s2);
        if Raised(s3) then (Panic(ts, s3, TYPE_FOLLOW), NullType)
        else (s3, Type(element.standardType, true, from, to))
  }

  // ----- declarations -----

  /** One declaration for each identifier; going through a null list is a fault. */
  function Declare(ids: seq<Identifier>, t: Type): (r: seq<Declaration>)
    ensures |r| == |ids| && forall i :: 0 <= i < |r| ==> r[i] == Declaration(ids[i], t)
  {
    seq(|ids|, i requires 0 <= i < |ids| => Declaration(ids[i], t))
  }

  function DeclareAll(s: State, ids: Identifiers, t: Type): (r: (State, seq<Declaration>))
    ensures r.0.pos == s.pos && r.0.count == s.count && (s.fault ==> r.0.fault)
    ensures Consistent(s) && (ids.NoIdentifiers? ==> s.count > 0) ==> Consistent(r.0)
  {
    if ids.Identifiers? then (s, Declare(ids.list, t)) else (s.(fault := true), [])
  }

  function ParseArgumentList(ts: seq<Token>, s: State): (r: (State, Declarations))
    ensures Moves(s, r.0)
    decreases Left(ts, s), 1
  {
    var (s1, ids) := ParseIdentifierList(ts, s);
    if Raised(s1) then (s1, NoDeclarations)
    else
      var (s2, ok2) := Match(ts, s1, TColon);
      if !ok2 then (Report(s2, ExpectedColon), NoDeclarations)
      else
        var (s3, kind) := ParseType(ts, s2);
        if Raised(s3) then (s3, NoDeclarations)
        else
          var (s4, declared) := DeclareAll(s3, ids, kind);
          var (s5, rest) := ParseArgumentListRest(ts, s4);
          (s5, Declarations(declared + (if rest.Declarations? then rest.list else [])))
  }

  function ParseArgumentListRest(ts: seq<Token>, s: State): (r: (State, Declarations))
    ensures Moves(s, r.0)
    decreases Left(ts, s), 0
  {
    var (s1, ok) := Match(ts, s, TSemicolon);
    if ok then ParseArgumentList(ts, s1) else (s1, NoDeclarations)
  }

  /** The variables of one type, after `var`; the flag says that the declaration is complete. */
  function ParseVariables(ts: seq<Token>, s: State): (r: (State, seq<Declaration>, bool))
    ensures Moves(s, r.0) && (!r.2 ==> r.0.code == Recovering)
  {
    hide ParseType, ParseIdentifierList, Skip, Panic;
    var (s1, ids) := ParseIdentifierList(ts, s);
    if Raised(s1) then (Panic(ts, s1, DECLARATIONS_FOLLOW), [], false)
    else
      var (s2, ok2) := Match(ts, s1, TColon);
      if !ok2 then (Missing(ts, s2, ExpectedColon, DECLARATIONS_FOLLOW), [], false)
      else
        var (s3, kind) := ParseType(ts, s2);
        if Raised(s3) then (Panic(ts, s3, DECLARATIONS_FOLLOW), [], false)
        else
          var (s4, ok4) := Match(ts, s3, TSemicolon);
          if !ok4 then (Missing(ts, s4, ExpectedSemicolon, DECLARATIONS_FOLLOW), [], false)
          else
            var (s5, declared) := DeclareAll(s4, ids, kind);
            (s5, declared, true)
  }

  function ParseDeclarations(ts: seq<Token>, s: State): (r: (State, Declarations))
    ensures Moves(s, r.0)
    decreases Left(ts, s)
  {
    var (s0, declares) := Match(ts, s, TVar);
    if !declares then (s0, NoDeclarations)
    else
      var (s1, declared, ok) := ParseVariables(ts, s0);
      if !ok then (s1, NoDeclarations)
      else
        var (s2, rest) := ParseDeclarations(ts, s1);
        (s2, Declarations(declared + (if rest.Declarations? then rest.list else [])))
  }

  lemma DeclarationsStep(ts: seq<Token>, s: State)
    requires Is(ts, s.pos, TVar)
    ensures var (s1, declared, ok) := ParseVariables(ts, s.(pos := s.pos + 1));
      var (s2, rest) := ParseDeclarations(ts, s1);
      ParseDeclarations(ts, s)
      == if !ok then (s1, NoDeclarations) else (s2, Declarations(declared
        + (if rest.Declarations? then rest.list else [])))
  {
    hide ParseVariables;
  }

  // ----- expressions -----

  function ParseExpression(ts: seq<Token>, s: State): (r: (State, Expression))
    ensures Moves(s, r.0) && r.0.fault == s.fault
    decreases Left(ts, s), 5
  {
    var (s1, lhs) := ParseSimpleExpression(ts, s);
    var (s2, op, rhs) := ParseRelation(ts, s1);
    (s2, if rhs.NullExpression? then lhs else RelOp(lhs, op, rhs))
  }

  function ParseRelation(ts: seq<Token>, s: State): (r: (State, Operator, Expression))
    ensures Moves(s, r.0) && r.0.fault == s.fault
    decreases Left(ts, s), 0
  {
    var (s1, ok) := Match(ts, s, TRelOp);
    if ok then
      var (s2, rhs) := ParseSimpleExpression(ts, s1);
      (s2, Cur(ts, s.pos).op, rhs)
    else (s1, Invalid, NullExpression)
  }

  function ParseSimpleExpression(ts: seq<Token>, s: State): (r: (State, Expression))
    ensures Moves(s, r.0) && r.0.fault == s.fault
    decreases Left(ts, s), 4
  {
    var sign := Cur(ts, s.pos);
    var (s1, signed) := if !sign.op.Or? then Match(ts, s, TAddOp) else (s, false);
    var (s2, term) := ParseTerm(ts, s1);
    if Raised(s2) then (Panic(ts, s2, SIMPLE_EXPRESSION_FOLLOW), NullExpression)
    else
      var (s3, op, rest) := ParseSum(ts, s2);
      if Raised(s3) then (Panic(ts, s3, SIMPLE_EXPRESSION_FOLLOW), NullExpression)
      else (s3, AddOp(signed && sign.op.Subtract?, term, op, rest))
  }

  /** The operator and the rest of a sum, null when there is none. */
  function ParseSum(ts: seq<Token>, s: State): (r: (State, Operator, Expression))
    ensures Moves(s, r.0) && r.0.fault == s.fault
    decreases Left(ts, s), 0
  {
    var (s1, ok) := Match(ts, s, TAddOp);
    if !ok then (s1, Invalid, NullExpression)
    else
      var (s2, term) := ParseTerm(ts, s1);
      if Raised(s2) then (s2, Cur(ts, s.pos).op, NullExpression)
      else
        var (s3, op, rest) := ParseSum(ts, s2);
        (s3, Cur(ts, s.pos).op, AddOp(false, term, op, rest))
  }

  function ParseTerm(ts: seq<Token>, s: State): (r: (State, Term))
    ensures Moves(s, r.0) && r.0.fault == s.fault
    decreases Left(ts, s), 3
  {
    var (s1, factor) := ParseFactor(ts, s);
    if Raised(s1) then (Panic(ts, s1, TERM_FOLLOW), NullTerm)
    else
      var (s2, op, rest) := ParseProduct(ts, s1);
      (s2, Term(factor, op, rest))
  }

  function ParseProduct(ts: seq<Token>, s: State): (r: (State, Operator, Term))
    ensures Moves(s, r.0) && r.0.fault == s.fault
    decreases Left(ts, s), 0
  {
    var (s1, ok) := Match(ts, s, TMulOp);
    if ok then
      var (s2, rest) := ParseTerm(ts, s1);
      (s2, Cur(ts, s.pos).op, rest)
    else (s1, Invalid, NullTerm)
  }

  function ParseFactor(ts: seq<Token>, s: State): (r: (State, Factor))
    ensures Moves(s, r.0) && r.0.fault == s.fault
    decreases Left(ts, s), 2
  {
    if Is(ts, s.pos, TNumber) then
      var (s1, number) := ParseNumber(ts, s);
      if Raised(s1) then (Panic(ts, s1, FACTOR_FOLLOW), NullFactor) else (s1, NumberFactor(number))
    else if Is(ts, s.pos, TLParen) then
      var (s1, _) := Match(ts, s, TLParen);
      var (s2, e) := ParseExpression(ts, s1);
      if Raised(s2) then (Panic(ts, s2, FACTOR_FOLLOW), NullFactor)
      else
        var (s3, ok) := Match(ts, s2, TRParen);
        if !ok then (Missing(ts, s3, ExpectedRParen, FACTOR_FOLLOW), NullFactor) else (s3, ParenFactor(e))
    else if Is(ts, s.pos, TNot) then
      var (s1, _) := Match(ts, s, TNot);
      var (s2, f) := ParseFactor(ts, s1);
      if Raised(s2) then (Panic(ts, s2, FACTOR_FOLLOW), NullFactor) else (s2, NotFactor(f))
    else
      var (s1, id) := ParseIdentifier(ts, s);
      if Raised(s1) then (Panic(ts, s1, FACTOR_FOLLOW), NullFactor)
      else
        var (s2, full) := ParseFactorRest(ts, s1, id);
        if Raised(s2) then (Panic(ts, s2, FACTOR_FOLLOW), NullFactor) else (s2, IdFactor(full))
  }

  /** Fills in the index or the parameters of the identifier. */
  function ParseFactorRest(ts: seq<Token>, s: State, id: Identifier): (r: (State, Identifier))
    requires id.Identifier?
    ensures Moves(s, r.0) && r.0.fault == s.fault
    decreases Left(ts, s), 1
  {
    if Is(ts, s.pos, TLBracket) then
      var (s1, index) := ParseOptionalIndex(ts, s);
      (s1, id.(index := index))
    else
      var (s1, open) := Match(ts, s, TLParen);
      if !open then (s1, id)
      else
        var (s2, parameters) := ParseExpressionList(ts, s1);
        if Raised(s2) then (Panic(ts, s2, FACTOR_FOLLOW), id.(parameters := parameters))
        else
          var (s3, ok) := Match(ts, s2, TRParen);
          if !ok then (Missing(ts, s3, ExpectedRParen, FACTOR_FOLLOW), id.(parameters := parameters))
          else (s3, id.(parameters := if parameters.NoParameters? then Parameters([]) else parameters))
  }

  function ParseExpressionList(ts: seq<Token>, s: State): (r: (State, Parameters))
    ensures Moves(s, r.0) && r.0.fault == s.fault
    decreases Left(ts, s), 6
  {
    if !StartsExpression(Cur(ts, s.pos).kind) then (s, NoParameters)
    else
      var (s1, e) := ParseExpression(ts, s);
      if Raised(s1) then (s1, NoParameters)
      else
        var (s2, rest) := ParseExpressionListRest(ts, s1);
        (s2, Parameters([e] + (if rest.Parameters? then rest.list else [])))
  }

  function ParseExpressionListRest(ts: seq<Token>, s: State): (r: (State, Parameters))
    ensures Moves(s, r.0) && r.0.fault == s.fault
    decreases Left(ts, s), 0
  {
    var (s1, ok) := Match(ts, s, TComma);
    if ok then ParseExpressionList(ts, s1) else (s1, NoParameters)
  }

  function ParseOptionalIndex(ts: seq<Token>, s: State): (r: (State, Expression))
    ensures Moves(s, r.0) && r.0.fault == s.fault
    decreases Left(ts, s), 0
  {
    var (s1, open) := Match(ts, s, TLBracket);
    if !open then (s1, NullExpression)
    else
      var (s2, index) := ParseExpression(ts, s1);
      if Raised(s2) then (Panic(ts, s2, OPTIONAL_INDEX_FOLLOW), NullExpression)
      else
        var (s3, ok) := Match(ts, s2, TRBracket);
        if !ok then (Missing(ts, s3, ExpectedRBracket, OPTIONAL_INDEX_FOLLOW), NullExpression) else (s3, index)
  }

  function ParseOptionalParameters(ts: seq<Token>, s: State): (r: (State, Parameters))
    ensures Moves(s, r.0) && r.0.fault == s.fault
  {
    var (s1, open) := Match(ts, s, TLParen);
    if !open then (s1, NoParameters)
    else
      var (s2, parameters) := ParseExpressionList(ts, s1);
      if Raised(s2) then (s2, NoParameters)
      else
        var (s3, ok) := Match(ts, s2, TRParen);
        if !ok then (Report(s3, ExpectedRParen), NoParameters)
        else (s3, if parameters.NoParameters? then Parameters([]) else parameters)
  }

  // ----- statements -----

  function ParseCompoundStatement(ts: seq<Token>, s: State): (r: (State, Statement))
    ensures Moves(s, r.0) && r.0.fault == s.fault
    decreases Left(ts, s), 1
  {
    var (s1, begin) := Match(ts, s, TBegin);
    if !begin then (Missing(ts, s1, ExpectedBegin, COMPOUND_STATEMENT_FOLLOW), NullStatement)
    else
      var (s2, statements) := ParseOptionalStatements(ts, s1);
      if !s2.code.NoError? && !s2.code.ExpectedStatement? then
        (Panic(ts, s2, COMPOUND_STATEMENT_FOLLOW), NullStatement)
      else
        var (s3, end) := Match(ts, s2.(code := NoError), TEnd);
        if !end then (Missing(ts, s3, ExpectedEnd, COMPOUND_STATEMENT_FOLLOW), NullStatement)
        else (s3, Compound(statements))
  }

  function ParseOptionalStatements(ts: seq<Token>, s: State): (r: (State, Statements))
    ensures Moves(s, r.0) && r.0.fault == s.fault
    decreases Left(ts, s), 4
  {
    if !StartsStatement(Cur(ts, s.pos).kind) then (s, NoStatements)
    else
      var (s1, statements) := ParseStatementList(ts, s);
      if Raised(s1) then (Panic(ts, s1, OPTIONAL_STATEMENTS_FOLLOW), NoStatements) else (s1, statements)
  }

  function ParseStatementList(ts: seq<Token>, s: State): (r: (State, Statements))
    ensures Moves(s, r.0) && r.0.fault == s.fault
    decreases Left(ts, s), 3
  {
    var (s1, statement) := ParseStatement(ts, s);
    if Raised(s1) then (Panic(ts, s1, STATEMENT_LIST_FOLLOW), NoStatements)
    else
      var (s2, rest) := ParseStatementListRest(ts, s1);
      (s2, Statements([statement] + (if rest.Statements? then rest.list else [])))
  }

  function ParseStatementListRest(ts: seq<Token>, s: State): (r: (State, Statements))
    ensures Moves(s, r.0) && r.0.fault == s.fault
    decreases Left(ts, s), 0
  {
    var (s1, ok) := Match(ts, s, TSemicolon);
    if ok then ParseStatementList(ts, s1) else (s1, NoStatements)
  }

  function ParseStatement(ts: seq<Token>, s: State): (r: (State, Statement))
    ensures Moves(s, r.0) && r.0.fault == s.fault
    decreases Left(ts, s), 2
  {
    if Is(ts, s.pos, TBegin) then ParseCompoundStatement(ts, s)
    else if Is(ts, s.pos, TIf) then ParseIf(ts, s)
    else if Is(ts, s.pos, TWhile) then ParseWhile(ts, s)
    else
      var (s1, id) := ParseIdentifier(ts, s);
      if Raised(s1) then (Panic(ts, s1, STATEMENT_FOLLOW), NullStatement)
      else
        var (s2, statement) := ParseStatementRest(ts, s1, id);
        if Raised(s2) then (Panic(ts, s2, STATEMENT_FOLLOW), NullStatement) else (s2, statement)
  }

  function ParseIf(ts: seq<Token>, s: State): (r: (State, Statement))
    requires Is(ts, s.pos, TIf)
    ensures Moves(s, r.0) && r.0.fault == s.fault
    decreases Left(ts, s), 1
  {
    var (s1, _) := Match(ts, s, TIf);
    var (s2, e) := ParseExpression(ts, s1);
    if Raised(s2) then (Panic(ts, s2, STATEMENT_FOLLOW), NullStatement)
    else
      var (s3, ok3) := Match(ts, s2, TThen);
      if !ok3 then (Missing(ts, s3, ExpectedThen, STATEMENT_FOLLOW), NullStatement)
      else ParseBranches(ts, s3, e)
  }

  /** The branches of an `if`, after `then`. */
  function ParseBranches(ts: seq<Token>, s: State, e: Expression): (r: (State, Statement))
    ensures Moves(s, r.0) && r.0.fault == s.fault
    decreases Left(ts, s), 3
  {
    var (s1, thenPart) := ParseStatement(ts, s);
    if Raised(s1) then (Panic(ts, s1, STATEMENT_FOLLOW), NullStatement)
    else
      var (s2, ok) := Match(ts, s1, TElse);
      if !ok then (Missing(ts, s2, ExpectedElse, STATEMENT_FOLLOW), NullStatement)
      else
        var (s3, elsePart) := ParseStatement(ts, s2);
        if Raised(s3) then (Panic(ts, s3, STATEMENT_FOLLOW), NullStatement) else (s3, If(e, thenPart, elsePart))
  }

  function ParseWhile(ts: seq<Token>, s: State): (r: (State, Statement))
    requires Is(ts, s.pos, TWhile)
    ensures Moves(s, r.0) && r.0.fault == s.fault
    decreases Left(ts, s), 1
  {
    var (s1, _) := Match(ts, s, TWhile);
    var (s2, e) := ParseExpression(ts, s1);
    if Raised(s2) then (Panic(ts, s2, STATEMENT_FOLLOW), NullStatement)
    else
      var (s3, ok3) := Match(ts, s2, TDo);
      if !ok3 then (Missing(ts, s3, ExpectedDo, STATEMENT_FOLLOW), NullStatement)
      else
        var (s4, doPart) := ParseStatement(ts, s3);
        if Raised(s4) then (Panic(ts, s4, STATEMENT_FOLLOW), NullStatement)
        else (s4, While(e, doPart))
  }

  /** A call with parameters; or an optional index and an optional assignment. */
  function ParseStatementRest(ts: seq<Token>, s: State, id: Identifier): (r: (State, Statement))
    requires id.Identifier?
    ensures Moves(s, r.0) && r.0.fault == s.fault
  {
    var (s1, parameters) := ParseOptionalParameters(ts, s);
    if parameters.Parameters? then (s1, AssignmentOrCall(id.(parameters := parameters), NullExpression))
    else
      var (s2, index) := ParseOptionalIndex(ts, s1);
      var target := id.(index := index);
      var (s3, assign) := Match(ts, s2, TAssign);
      if !assign then (s3, AssignmentOrCall(target, NullExpression))
      else
        var (s4, value) := ParseExpression(ts, s3);
        if Raised(s4) then (Panic(ts, s4, STATEMENT_FOLLOW), AssignmentOrCall(target, NullExpression))
        else (s4, AssignmentOrCall(target, value))
  }

  // ----- subprograms and programs -----

  const EMPTY_SUBPROGRAM := Subprogram(false, NullIdentifier, NoDeclarations, NullType, NoDeclarations, NullStatement)

  function ParseArguments(ts: seq<Token>, s: State): (r: (State, Declarations))
    ensures Moves(s, r.0)
  {
    var (s1, open) := Match(ts, s, TLParen);
    if !open then (s1, NoDeclarations)
    else
      var (s2, arguments) := ParseArgumentList(ts, s1);
      var (s3, ok) := Match(ts, s2, TRParen);
      if !ok then (Report(s3, ExpectedRParen), NoDeclarations) else (s3, arguments)
  }

  /** The name and the arguments of a subprogram; the flag says that they are complete. */
  function ParseSubprogramName(ts: seq<Token>, s: State, isFunction: bool): (r: (State, Subprogram, bool))
    ensures Moves(s, r.0) && r.1.Subprogram? && (!r.2 ==> r.0.code == Recovering)
  {
    var (s1, ok1) := Match(ts, s, if isFunction then TFunction else TProcedure);
    if !ok1 then (Missing(ts, s1, ExpectedSubprogramHead, SUBPROGRAM_HEAD_FOLLOW), EMPTY_SUBPROGRAM, false)
    else
      var (s2, name) := ParseIdentifier(ts, s1);
      if Raised(s2) then (Panic(ts, s2, SUBPROGRAM_HEAD_FOLLOW), EMPTY_SUBPROGRAM, false)
      else
        var (s3, arguments) := ParseArguments(ts, s2);
        var sub := EMPTY_SUBPROGRAM.(name := name, arguments := arguments);
        if Raised(s3) then (Panic(ts, s3, SUBPROGRAM_HEAD_FOLLOW), sub, false) else (s3, sub, true)
  }

  function ParseSubprogramHead(ts: seq<Token>, s: State): (r: (State, Subprogram))
    ensures Moves(s, r.0) && r.1.Subprogram?
  {
    var isFunction := Is(ts, s.pos, TFunction);
    var (s3, sub, ok) := ParseSubprogramName(ts, s, isFunction);
    if !ok then (s3, sub)
    else
      var (s4, headed, failed) := if isFunction then ParseReturnType(ts, s3, sub) else (s3, sub, false);
      if failed then (s4, headed)
      else
        var (s5, ok5) := Match(ts, s4, TSemicolon);
        if !ok5 then (Missing(ts, s5, ExpectedSemicolon, SUBPROGRAM_HEAD_FOLLOW), headed) else (s5, headed)
  }

  /** The return type of a function; the flag says that the head was given up. */
  function ParseReturnType(ts: seq<Token>, s: State, sub: Subprogram): (r: (State, Subprogram, bool))
    requires sub.Subprogram?
    ensures Moves(s, r.0) && r.0.fault == s.fault && r.1.Subprogram? && (r.2 ==> r.0.code == Recovering)
  {
    var f := sub.(isFunction := true);
    var (s1, ok) := Match(ts, s, TColon);
    if !ok then (Missing(ts, s1, ExpectedColon, SUBPROGRAM_HEAD_FOLLOW), f, true)
    else
      var (s2, kind) := ParseStandardType(ts, s1);
      if Raised(s2) then (Panic(ts, s2, SUBPROGRAM_HEAD_FOLLOW), f, true)
      else (s2, f.(returnType := kind), false)
  }

  function ParseSubprogramDeclaration(ts: seq<Token>, s: State): (r: (State, Subprogram))
    ensures Moves(s, r.0)
  {
    var (s1, sub) := ParseSubprogramHead(ts, s);
    if Raised(s1) then (Panic(ts, s1, SUBPROGRAM_DECLARATION_FOLLOW), NullSubprogram)
    else
      var (s2, declarations) := ParseDeclarations(ts, s1);
      if Raised(s2) then (Panic(ts, s2, SUBPROGRAM_DECLARATION_FOLLOW), NullSubprogram)
      else
        var (s3, body) := ParseCompoundStatement(ts, s2);
        if Raised(s3) then (Panic(ts, s3, SUBPROGRAM_DECLARATION_FOLLOW), NullSubprogram)
        else (s3, sub.(declarations := declarations, body := body))
  }

  function ParseSubprogramDeclarations(ts: seq<Token>, s: State): (r: (State, Subprograms))
    ensures Moves(s, r.0)
    decreases Left(ts, s)
  {
    if !Is(ts, s.pos, TFunction) && !Is(ts, s.pos, TProcedure) then (s, NoSubprograms)
    else
      var (s1, sub) := ParseSubprogramDeclaration(ts, s);
      if Raised(s1) then (s1, NoSubprograms)
      else
        var (s2, ok) := Match(ts, s1, TSemicolon);
        if !ok then (Missing(ts, s2, ExpectedSemicolon, SUBPROGRAM_DECLARATIONS_FOLLOW), NoSubprograms)
        else
          var (s3, rest) := ParseSubprogramDeclarations(ts, s2);
          (s3, Subprograms([sub] + (if rest.Subprograms? then rest.list else [])))
  }

  /** The heading: the program's name and its files; the flag says that it is complete. */
  function ParseHeading(ts: seq<Token>, s: State): (r: (State, Identifier, Identifiers, bool))
    ensures Moves(s, r.0) && r.0.fault == s.fault && (r.3 ==> r.1.Identifier?) && (!r.3 ==> r.0.code == Recovering)
  {
    var (s1, ok1) := Match(ts, s, TProgram);
    if !ok1 then (Missing(ts, s1, ExpectedProgram, PROGRAM_FOLLOW), NullIdentifier, NoIdentifiers, false)
    else
      var (s2, name) := ParseIdentifier(ts, s1);
      if Raised(s2) then (Panic(ts, s2, PROGRAM_FOLLOW), name, NoIdentifiers, false)
      else
        var (s3, ok3) := Match(ts, s2, TLParen);
        if !ok3 then (Missing(ts, s3, ExpectedLParen, PROGRAM_FOLLOW), name, NoIdentifiers, false)
        else
          var (s4, files) := ParseIdentifierList(ts, s3);
          if Raised(s4) then (Panic(ts, s4, PROGRAM_FOLLOW), name, files, false)
          else
            var (s5, ok5) := Match(ts, s4, TRParen);
            if !ok5 then (Missing(ts, s5, ExpectedRParen, PROGRAM_FOLLOW), name, files, false)
            else
              var (s6, ok6) := Match(ts, s5, TSemicolon);
              if !ok6 then (Missing(ts, s6, ExpectedSemicolon, PROGRAM_FOLLOW), name, files, false)
              else (s6, name, files, true)
  }

  function ParseProgram(ts: seq<Token>, s: State): (r: (State, Program))
    ensures Moves(s, r.0)
  {
    var (s1, name, files, ok) := ParseHeading(ts, s);
    if ok then ParseBlock(ts, s1, name, files) else (s1, NullProgram)
  }

  /** The program after its heading. */
  function ParseBlock(ts: seq<Token>, s: State, name: Identifier, files: Identifiers): (r: (State, Program))
    ensures Moves(s, r.0)
  {
    var (s1, variables) := ParseDeclarations(ts, s);
    if Raised(s1) then (Panic(ts, s1, PROGRAM_FOLLOW), NullProgram)
    else
      var (s2, functions) := ParseSubprogramDeclarations(ts, s1);
      if Raised(s2) then (Panic(ts, s2, PROGRAM_FOLLOW), NullProgram)
      else
        var (s3, main) := ParseCompoundStatement(ts, s2);
        if Raised(s3) then (Panic(ts, s3, PROGRAM_FOLLOW), NullProgram)
        else
          var (s4, ok4) := Match(ts, s3, TPeriod);
          if !ok4 then (Missing(ts, s4, ExpectedPeriod, PROGRAM_FOLLOW), NullProgram)
          else (s4, Program(name, files, variables, functions, main))
  }

  const START := State(0, NoError, 0, false)

  function Parse(ts: seq<Token>): (r: (State, Program))
    ensures Consistent(r.0)
  {
    ParseProgram(ts, START)
  }
}
