/** The parser as the compiler has it: it moves over the input and keeps its error state in place. */
module ParserRun {
  import opened Ast
  import opened Tokens
  import P = Parsing
  import opened Grammar
  import opened ParserFaults
  import opened ParserTheorems

  class Parser {
    const tokens: seq<Token>
    var pos: nat
    var curToken: Token
    var errorCode: P.ErrorCode
    var errorCount: nat
    var fault: bool

    /** An error is signalled exactly when one has been counted. */
    ghost predicate Valid()
      reads this
    {
      P.Consistent(Snapshot()) && curToken == Cur(tokens, pos)
    }

    function Snapshot(): P.State
      reads this
    {
      P.State(pos, errorCode, errorCount, fault)
    }

    constructor (tokens: seq<Token>)
      ensures Valid() && this.tokens == tokens && Snapshot() == P.START
    {
      this.tokens := tokens;
      pos := 0;
      curToken := Cur(tokens, 0);
      errorCode := P.NoError;
      errorCount := 0;
      fault := false;
    }

    function Error(): (r: bool)
      requires Valid()
      reads this
      ensures r <==> ErrorCount() > 0
    {
      errorCode != P.NoError
    }

    function ErrorCount(): nat
      reads this
    {
      errorCount
    }

    /** `m_errorCode > ErrorCodes::NoError`. */
    function Raised(): bool
      reads this
    {
      P.Raised(Snapshot())
    }

    method NextToken()
      modifies this`pos, this`curToken
      ensures pos == Following(tokens, old(pos)) && curToken == Cur(tokens, pos)
    {
      pos := Following(tokens, pos);
      curToken := Cur(tokens, pos);
    }

    method Match(k: Kind) returns (ok: bool)
      requires Valid() && k != TEof
      modifies this
      ensures Valid() && (Snapshot(), ok) == P.Match(tokens, old(Snapshot()), k)
    {
      ok := curToken.kind == k;
      if ok {
        NextToken();
      }
    }

    /** Skips to a synchronising token or to the end of the input. */
    method Panic(follow: seq<Kind>)
      requires Valid() && errorCount > 0
      modifies this
      ensures Valid() && Snapshot() == P.Panic(tokens, old(Snapshot()), follow)
    {
      while curToken.kind !in follow
        invariant Valid() && Snapshot() == old(Snapshot()).(pos := pos)
        invariant P.Skip(tokens, pos, follow) == P.Skip(tokens, old(pos), follow)
        decreases P.Left(tokens, Snapshot())
      {
        NextToken();
        if curToken.kind == TEof {
          break;
        }
      }
      errorCode := P.Recovering;
    }

    method ReportError(code: P.ErrorCode)
      requires Valid() && !code.NoError? && !code.Recovering? && !code.ExpectedStatement?
      modifies this
      ensures Valid() && Snapshot() == P.Report(old(Snapshot()), code)
    {
      errorCode := code;
      errorCount := errorCount + 1;
    }

    method Missing(code: P.ErrorCode, follow: seq<Kind>)
      requires Valid() && !code.NoError? && !code.Recovering? && !code.ExpectedStatement?
      modifies this
      ensures Valid() && Snapshot() == P.Missing(tokens, old(Snapshot()), code, follow)
    {
      ReportError(code);
      Panic(follow);
    }

    method ParseIdentifier() returns (id: Identifier)
      requires Valid()
      modifies this
      ensures Valid() && (Snapshot(), id) == P.ParseIdentifier(tokens, old(Snapshot()))
    {
      var text := curToken.text;
      var ok := Match(TIdentifier);
      if !ok {
        ReportError(P.ExpectedIdentifier);
        return NullIdentifier;
      }
      id := Identifier(text, NullExpression, NoParameters);
    }

    method ParseNumber() returns (number: Number)
      requires Valid()
      modifies this
      ensures Valid() && (Snapshot(), number) == P.ParseNumber(tokens, old(Snapshot()))
    {
      var token := curToken;
      var ok := Match(TNumber);
      if !ok {
        ReportError(P.ExpectedNumber);
        return NullNumber;
      }
      number := Number(token.text, token.number);
    }

    method ParseIdentifierList() returns (ids: Identifiers)
      requires Valid()
      modifies this
      ensures Valid() && (Snapshot(), ids) == P.ParseIdentifierList(tokens, old(Snapshot()))
      decreases P.Left(tokens, Snapshot()), 1
    {
      var id := ParseIdentifier();
      if Raised() {
        Panic(P.IDENTIFIER_LIST_FOLLOW);
        return NoIdentifiers;
      }
      var rest := ParseIdentifierListRest();
      ids := Identifiers([id] + (if rest.Identifiers? then rest.list else []));
    }

    method ParseIdentifierListRest() returns (ids: Identifiers)
      requires Valid()
      modifies this
      ensures Valid() && (Snapshot(), ids) == P.ParseIdentifierListRest(tokens, old(Snapshot()))
      decreases P.Left(tokens, Snapshot()), 0
    {
      var ok := Match(TComma);
      if ok {
        ids := ParseIdentifierList();
      } else {
        ids := NoIdentifiers;
      }
    }

    method ParseStandardType() returns (t: Type)
      requires Valid()
      modifies this
      ensures Valid() && (Snapshot(), t) == P.ParseStandardType(tokens, old(Snapshot()))
    {
      if curToken.kind == TInteger {
        var _ := Match(TInteger);
        return Type(Integer, false, NullNumber, NullNumber);
      } else if curToken.kind == TReal {
        var _ := Match(TReal);
        return Type(Real, false, NullNumber, NullNumber);
      }
      ReportError(P.ExpectedStandardType);
      t := NullType;
    }

    method ParseType() returns (t: Type)
      requires Valid()
      modifies this
      ensures Valid() && (Snapshot(), t) == P.ParseType(tokens, old(Snapshot()))
    {
      var ok := Match(TArray);
      if !ok {
        t := ParseStandardType();
        return;
      }
      ok := Match(TLBracket);
      if !ok {
        Missing(P.ExpectedLBracket, P.TYPE_FOLLOW);
        return NullType;
      }
      var from := ParseNumber();
      if Raised() {
        Panic(P.TYPE_FOLLOW);
        return NullType;
      }
      ok := Match(TRange);
      if !ok {
        Missing(P.ExpectedRange, P.TYPE_FOLLOW);
        return NullType;
      }
      var upTo := ParseNumber();
      if Raised() {
        Panic(P.TYPE_FOLLOW);
        return NullType;
      }
      ok := Match(TRBracket);
      if !ok {
        Missing(P.ExpectedRBracket, P.TYPE_FOLLOW);
        return NullType;
      }
      ok := Match(TOf);
      if !ok {
        Missing(P.ExpectedOf, P.TYPE_FOLLOW);
        return NullType;
      }
      var element := ParseStandardType();
      if Raised() {
        Panic(P.TYPE_FOLLOW);
        return NullType;
      }
      t := Type(element.standardType, true, from, upTo);
    }

    /** One declaration for each identifier. The list may be null only after an error; going through it
        then is the fault. */
    method Declare(ids: Identifiers, kind: Type) returns (declared: seq<Declaration>)
      requires Valid() && (ids.NoIdentifiers? ==> errorCount > 0)
      modifies this
      ensures Valid() && (Snapshot(), declared) == P.DeclareAll(old(Snapshot()), ids, kind)
    {
      declared := [];
      if ids.NoIdentifiers? {
        fault := true;
        return;
      }
      for i := 0 to |ids.list|
        invariant declared == P.Declare(ids.list[..i], kind)
        invariant Valid() && Snapshot() == old(Snapshot())
      {
        declared := declared + [Declaration(ids.list[i], kind)];
      }
      assert ids.list[..|ids.list|] == ids.list;
    }

    method ParseArgumentList() returns (ds: Declarations)
      requires Valid()
      modifies this
      ensures Valid() && (Snapshot(), ds) == P.ParseArgumentList(tokens, old(Snapshot()))
      decreases P.Left(tokens, Snapshot()), 1
    {
      var ids := ParseIdentifierList();
      if Raised() {
        return NoDeclarations;
      }
      var ok := Match(TColon);
      if !ok {
        ReportError(P.ExpectedColon);
        return NoDeclarations;
      }
      var kind := ParseType();
      if Raised() {
        return NoDeclarations;
      }
      var declared := Declare(ids, kind);
      var rest := ParseArgumentListRest();
      ds := Declarations(declared + (if rest.Declarations? then rest.list else []));
    }

    method ParseArgumentListRest() returns (ds: Declarations)
      requires Valid()
      modifies this
      ensures Valid() && (Snapshot(), ds) == P.ParseArgumentListRest(tokens, old(Snapshot()))
      decreases P.Left(tokens, Snapshot()), 0
    {
      var ok := Match(TSemicolon);
      if ok {
        ds := ParseArgumentList();
      } else {
        ds := NoDeclarations;
      }
    }

    /** The variables of one type, after `var`. */
    method ParseVariables() returns (declared: seq<Declaration>, ok: bool)
      requires Valid()
      modifies this
      ensures Valid() && (Snapshot(), declared, ok) == P.ParseVariables(tokens, old(Snapshot()))
    {
      declared := [];
      var ids := ParseIdentifierList();
      if Raised() {
        Panic(P.DECLARATIONS_FOLLOW);
        return [], false;
      }
      ok := Match(TColon);
      if !ok {
        Missing(P.ExpectedColon, P.DECLARATIONS_FOLLOW);
        return;
      }
      var kind := ParseType();
      if Raised() {
        Panic(P.DECLARATIONS_FOLLOW);
        return [], false;
      }
      ok := Match(TSemicolon);
      if !ok {
        Missing(P.ExpectedSemicolon, P.DECLARATIONS_FOLLOW);
        return;
      }
      declared := Declare(ids, kind);
    }

    method ParseDeclarations() returns (ds: Declarations)
      requires Valid()
      modifies this
      ensures Valid() && (Snapshot(), ds) == P.ParseDeclarations(tokens, old(Snapshot()))
      decreases P.Left(tokens, Snapshot())
    {
      var declares := Match(TVar);
      if !declares {
        return NoDeclarations;
      }
      var declared, ok := ParseVariables();
      if !ok {
        return NoDeclarations;
      }
      var rest := ParseDeclarations();
      ds := Declarations(declared + (if rest.Declarations? then rest.list else []));
    }

    method ParseExpression() returns (e: Expression)
      requires Valid()
      modifies this
      ensures Valid() && (Snapshot(), e) == P.ParseExpression(tokens, old(Snapshot()))
      decreases P.Left(tokens, Snapshot()), 5
    {
      var lhs := ParseSimpleExpression();
      var op, rhs := ParseRelation();
      e := if rhs.NullExpression? then lhs else RelOp(lhs, op, rhs);
    }

    method ParseRelation() returns (op: Operator, rhs: Expression)
      requires Valid()
      modifies this
      ensures Valid() && (Snapshot(), op, rhs) == P.ParseRelation(tokens, old(Snapshot()))
      decreases P.Left(tokens, Snapshot()), 0
    {
      op := curToken.op;
      var ok := Match(TRelOp);
      if !ok {
        return Invalid, NullExpression;
      }
      rhs := ParseSimpleExpression();
    }

    method ParseSimpleExpression() returns (e: Expression)
      requires Valid()
      modifies this
      ensures Valid() && (Snapshot(), e) == P.ParseSimpleExpression(tokens, old(Snapshot()))
      decreases P.Left(tokens, Snapshot()), 4
    {
      var sign := curToken;
      var signed := false;
      if sign.op != Or {
        signed := Match(TAddOp);
      }
      var term := ParseTerm();
      if Raised() {
        Panic(P.SIMPLE_EXPRESSION_FOLLOW);
        return NullExpression;
      }
      var op, rest := ParseSum();
      if Raised() {
        Panic(P.SIMPLE_EXPRESSION_FOLLOW);
        return NullExpression;
      }
      e := AddOp(signed && sign.op.Subtract?, term, op, rest);
    }

    method ParseSum() returns (op: Operator, rest: Expression)
      requires Valid()
      modifies this
      ensures Valid() && (Snapshot(), op, rest) == P.ParseSum(tokens, old(Snapshot()))
      decreases P.Left(tokens, Snapshot()), 0
    {
      op := curToken.op;
      var ok := Match(TAddOp);
      if !ok {
        return Invalid, NullExpression;
      }
      var term := ParseTerm();
      if Raised() {
        return op, NullExpression;
      }
      var innerOp, inner := ParseSum();
      rest := AddOp(false, term, innerOp, inner);
    }

    method ParseTerm() returns (t: Term)
      requires Valid()
      modifies this
      ensures Valid() && (Snapshot(), t) == P.ParseTerm(tokens, old(Snapshot()))
      decreases P.Left(tokens, Snapshot()), 3
    {
      var factor := ParseFactor();
      if Raised() {
        Panic(P.TERM_FOLLOW);
        return NullTerm;
      }
      var op, rest := ParseProduct();
      t := Term(factor, op, rest);
    }

    method ParseProduct() returns (op: Operator, rest: Term)
      requires Valid()
      modifies this
      ensures Valid() && (Snapshot(), op, rest) == P.ParseProduct(tokens, old(Snapshot()))
      decreases P.Left(tokens, Snapshot()), 0
    {
      op := curToken.op;
      var ok := Match(TMulOp);
      if !ok {
        return Invalid, NullTerm;
      }
      rest := ParseTerm();
    }

    method ParseFactor() returns (f: Factor)
      requires Valid()
      modifies this
      ensures Valid() && (Snapshot(), f) == P.ParseFactor(tokens, old(Snapshot()))
      decreases P.Left(tokens, Snapshot()), 2
    {
      if curToken.kind == TNumber {
        var number := ParseNumber();
        if Raised() {
          Panic(P.FACTOR_FOLLOW);
          return NullFactor;
        }
        return NumberFactor(number);
      } else if curToken.kind == TLParen {
        var _ := Match(TLParen);
        var e := ParseExpression();
        if Raised() {
          Panic(P.FACTOR_FOLLOW);
          return NullFactor;
        }
        var ok := Match(TRParen);
        if !ok {
          Missing(P.ExpectedRParen, P.FACTOR_FOLLOW);
          return NullFactor;
        }
        return ParenFactor(e);
      } else if curToken.kind == TNot {
        var _ := Match(TNot);
        f := ParseFactor();
        if Raised() {
          Panic(P.FACTOR_FOLLOW);
          return NullFactor;
        }
        return NotFactor(f);
      }
      var id := ParseIdentifier();
      if Raised() {
        Panic(P.FACTOR_FOLLOW);
        return NullFactor;
      }
      id := ParseFactorRest(id);
      if Raised() {
        Panic(P.FACTOR_FOLLOW);
        return NullFactor;
      }
      f := IdFactor(id);
    }

    method ParseFactorRest(id: Identifier) returns (full: Identifier)
      requires Valid() && id.Identifier?
      modifies this
      ensures Valid() && (Snapshot(), full) == P.ParseFactorRest(tokens, old(Snapshot()), id)
      decreases P.Left(tokens, Snapshot()), 1
    {
      full := id;
      if curToken.kind == TLBracket {
        var index := ParseOptionalIndex();
        full := full.(index := index);
        return;
      }
      var open := Match(TLParen);
      if !open {
        return;
      }
      var parameters := ParseExpressionList();
      full := full.(parameters := parameters);
      if Raised() {
        Panic(P.FACTOR_FOLLOW);
        return;
      }
      var ok := Match(TRParen);
      if !ok {
        Missing(P.ExpectedRParen, P.FACTOR_FOLLOW);
        return;
      }
      if parameters.NoParameters? {
        full := full.(parameters := Parameters([]));
      }
    }

    method ParseExpressionList() returns (ps: Parameters)
      requires Valid()
      modifies this
      ensures Valid() && (Snapshot(), ps) == P.ParseExpressionList(tokens, old(Snapshot()))
      decreases P.Left(tokens, Snapshot()), 6
    {
      if !StartsExpression(curToken.kind) {
        return NoParameters;
      }
      var e := ParseExpression();
      if Raised() {
        return NoParameters;
      }
      var rest := ParseExpressionListRest();
      ps := Parameters([e] + (if rest.Parameters? then rest.list else []));
    }

    method ParseExpressionListRest() returns (ps: Parameters)
      requires Valid()
      modifies this
      ensures Valid() && (Snapshot(), ps) == P.ParseExpressionListRest(tokens, old(Snapshot()))
      decreases P.Left(tokens, Snapshot()), 0
    {
      var ok := Match(TComma);
      if ok {
        ps := ParseExpressionList();
      } else {
        ps := NoParameters;
      }
    }

    method ParseOptionalIndex() returns (index: Expression)
      requires Valid()
      modifies this
      ensures Valid() && (Snapshot(), index) == P.ParseOptionalIndex(tokens, old(Snapshot()))
      decreases P.Left(tokens, Snapshot()), 0
    {
      var open := Match(TLBracket);
      if !open {
        return NullExpression;
      }
      index := ParseExpression();
      if Raised() {
        Panic(P.OPTIONAL_INDEX_FOLLOW);
        return NullExpression;
      }
      var ok := Match(TRBracket);
      if !ok {
        Missing(P.ExpectedRBracket, P.OPTIONAL_INDEX_FOLLOW);
        return NullExpression;
      }
    }

    method ParseOptionalParameters() returns (ps: Parameters)
      requires Valid()
      modifies this
      ensures Valid() && (Snapshot(), ps) == P.ParseOptionalParameters(tokens, old(Snapshot()))
    {
      var open := Match(TLParen);
      if !open {
        return NoParameters;
      }
      ps := ParseExpressionList();
      if Raised() {
        return NoParameters;
      }
      var ok := Match(TRParen);
      if !ok {
        ReportError(P.ExpectedRParen);
        return NoParameters;
      }
      if ps.NoParameters? {
        ps := Parameters([]);
      }
    }

    method ParseCompoundStatement() returns (s: Statement)
      requires Valid()
      modifies this
      ensures Valid() && (Snapshot(), s) == P.ParseCompoundStatement(tokens, old(Snapshot()))
      decreases P.Left(tokens, Snapshot()), 1
    {
      var begins := Match(TBegin);
      if !begins {
        Missing(P.ExpectedBegin, P.COMPOUND_STATEMENT_FOLLOW);
        return NullStatement;
      }
      var statements := ParseOptionalStatements();
      if errorCode != P.NoError && errorCode != P.ExpectedStatement {
        Panic(P.COMPOUND_STATEMENT_FOLLOW);
        return NullStatement;
      }
      errorCode := P.NoError;
      var ends := Match(TEnd);
      if !ends {
        Missing(P.ExpectedEnd, P.COMPOUND_STATEMENT_FOLLOW);
        return NullStatement;
      }
      s := Compound(statements);
    }

    method ParseOptionalStatements() returns (ss: Statements)
      requires Valid()
      modifies this
      ensures Valid() && (Snapshot(), ss) == P.ParseOptionalStatements(tokens, old(Snapshot()))
      decreases P.Left(tokens, Snapshot()), 4
    {
      if !StartsStatement(curToken.kind) {
        return NoStatements;
      }
      ss := ParseStatementList();
      if Raised() {
        Panic(P.OPTIONAL_STATEMENTS_FOLLOW);
        return NoStatements;
      }
    }

    method ParseStatementList() returns (ss: Statements)
      requires Valid()
      modifies this
      ensures Valid() && (Snapshot(), ss) == P.ParseStatementList(tokens, old(Snapshot()))
      decreases P.Left(tokens, Snapshot()), 3
    {
      var statement := ParseStatement();
      if Raised() {
        Panic(P.STATEMENT_LIST_FOLLOW);
        return NoStatements;
      }
      var rest := ParseStatementListRest();
      ss := Statements([statement] + (if rest.Statements? then rest.list else []));
    }

    method ParseStatementListRest() returns (ss: Statements)
      requires Valid()
      modifies this
      ensures Valid() && (Snapshot(), ss) == P.ParseStatementListRest(tokens, old(Snapshot()))
      decreases P.Left(tokens, Snapshot()), 0
    {
      var ok := Match(TSemicolon);
      if ok {
        ss := ParseStatementList();
      } else {
        ss := NoStatements;
      }
    }

    method ParseStatement() returns (s: Statement)
      requires Valid()
      modifies this
      ensures Valid() && (Snapshot(), s) == P.ParseStatement(tokens, old(Snapshot()))
      decreases P.Left(tokens, Snapshot()), 2
    {
      if curToken.kind == TBegin {
        s := ParseCompoundStatement();
        return;
      } else if curToken.kind == TIf {
        s := ParseIf();
        return;
      } else if curToken.kind == TWhile {
        s := ParseWhile();
        return;
      }
      var id := ParseIdentifier();
      if Raised() {
        Panic(P.STATEMENT_FOLLOW);
        return NullStatement;
      }
      s := ParseStatementRest(id);
      if Raised() {
        Panic(P.STATEMENT_FOLLOW);
        return NullStatement;
      }
    }

    method ParseIf() returns (s: Statement)
      requires Valid() && curToken.kind == TIf
      modifies this
      ensures Valid() && (Snapshot(), s) == P.ParseIf(tokens, old(Snapshot()))
      decreases P.Left(tokens, Snapshot()), 1
    {
      var _ := Match(TIf);
      var e := ParseExpression();
      if Raised() {
        Panic(P.STATEMENT_FOLLOW);
        return NullStatement;
      }
      var ok := Match(TThen);
      if !ok {
        Missing(P.ExpectedThen, P.STATEMENT_FOLLOW);
        return NullStatement;
      }
      s := ParseBranches(e);
    }

    /** The branches of an `if`, after `then`. */
    method ParseBranches(e: Expression) returns (s: Statement)
      requires Valid()
      modifies this
      ensures Valid() && (Snapshot(), s) == P.ParseBranches(tokens, old(Snapshot()), e)
      decreases P.Left(tokens, Snapshot()), 3
    {
      var thenPart := ParseStatement();
      if Raised() {
        Panic(P.STATEMENT_FOLLOW);
        return NullStatement;
      }
      var ok := Match(TElse);
      if !ok {
        Missing(P.ExpectedElse, P.STATEMENT_FOLLOW);
        return NullStatement;
      }
      var elsePart := ParseStatement();
      if Raised() {
        Panic(P.STATEMENT_FOLLOW);
        return NullStatement;
      }
      s := If(e, thenPart, elsePart);
    }

    method ParseWhile() returns (s: Statement)
      requires Valid() && curToken.kind == TWhile
      modifies this
      ensures Valid() && (Snapshot(), s) == P.ParseWhile(tokens, old(Snapshot()))
      decreases P.Left(tokens, Snapshot()), 1
    {
      var _ := Match(TWhile);
      var e := ParseExpression();
      if Raised() {
        Panic(P.STATEMENT_FOLLOW);
        return NullStatement;
      }
      var ok := Match(TDo);
      if !ok {
        Missing(P.ExpectedDo, P.STATEMENT_FOLLOW);
        return NullStatement;
      }
      var doPart := ParseStatement();
      if Raised() {
        Panic(P.STATEMENT_FOLLOW);
        return NullStatement;
      }
      s := While(e, doPart);
    }

    method ParseStatementRest(id: Identifier) returns (s: Statement)
      requires Valid() && id.Identifier?
      modifies this
      ensures Valid() && (Snapshot(), s) == P.ParseStatementRest(tokens, old(Snapshot()), id)
    {
      var parameters := ParseOptionalParameters();
      if parameters.Parameters? {
        return AssignmentOrCall(id.(parameters := parameters), NullExpression);
      }
      var index := ParseOptionalIndex();
      s := AssignmentOrCall(id.(index := index), NullExpression);
      var assign := Match(TAssign);
      if assign {
        var value := ParseExpression();
        if Raised() {
          Panic(P.STATEMENT_FOLLOW);
          return;
        }
        s := s.(value := value);
      }
    }

    method ParseArguments() returns (ds: Declarations)
      requires Valid()
      modifies this
      ensures Valid() && (Snapshot(), ds) == P.ParseArguments(tokens, old(Snapshot()))
    {
      var open := Match(TLParen);
      if !open {
        return NoDeclarations;
      }
      ds := ParseArgumentList();
      var ok := Match(TRParen);
      if !ok {
        ReportError(P.ExpectedRParen);
        return NoDeclarations;
      }
    }

    /** The name and the arguments of a subprogram. */
    method ParseSubprogramName(isFunction: bool) returns (sub: Subprogram, ok: bool)
      requires Valid()
      modifies this
      ensures Valid() && (Snapshot(), sub, ok) == P.ParseSubprogramName(tokens, old(Snapshot()), isFunction)
    {
      sub := P.EMPTY_SUBPROGRAM;
      ok := Match(if isFunction then TFunction else TProcedure);
      if !ok {
        Missing(P.ExpectedSubprogramHead, P.SUBPROGRAM_HEAD_FOLLOW);
        return;
      }
      var name := ParseIdentifier();
      if Raised() {
        Panic(P.SUBPROGRAM_HEAD_FOLLOW);
        return sub, false;
      }
      var arguments := ParseArguments();
      sub := sub.(name := name, arguments := arguments);
      if Raised() {
        Panic(P.SUBPROGRAM_HEAD_FOLLOW);
        ok := false;
      }
    }

    method ParseSubprogramHead() returns (sub: Subprogram)
      requires Valid()
      modifies this
      ensures Valid() && (Snapshot(), sub) == P.ParseSubprogramHead(tokens, old(Snapshot()))
    {
      var isFunction := curToken.kind == TFunction;
      var ok;
      sub, ok := ParseSubprogramName(isFunction);
      if !ok {
        return;
      }
      if isFunction {
        var failed;
        sub, failed := ParseReturnType(sub);
        if failed {
          return;
        }
      }
      ok := Match(TSemicolon);
      if !ok {
        Missing(P.ExpectedSemicolon, P.SUBPROGRAM_HEAD_FOLLOW);
      }
    }

    method ParseReturnType(sub: Subprogram) returns (f: Subprogram, failed: bool)
      requires Valid() && sub.Subprogram?
      modifies this
      ensures Valid() && (Snapshot(), f, failed) == P.ParseReturnType(tokens, old(Snapshot()), sub)
    {
      f, failed := sub.(isFunction := true), false;
      var ok := Match(TColon);
      if !ok {
        Missing(P.ExpectedColon, P.SUBPROGRAM_HEAD_FOLLOW);
        return f, true;
      }
      var kind := ParseStandardType();
      if Raised() {
        Panic(P.SUBPROGRAM_HEAD_FOLLOW);
        return f, true;
      }
      f := f.(returnType := kind);
    }

    method ParseSubprogramDeclaration() returns (sub: Subprogram)
      requires Valid()
      modifies this
      ensures Valid() && (Snapshot(), sub) == P.ParseSubprogramDeclaration(tokens, old(Snapshot()))
    {
      sub := ParseSubprogramHead();
      if Raised() {
        Panic(P.SUBPROGRAM_DECLARATION_FOLLOW);
        return NullSubprogram;
      }
      var declarations := ParseDeclarations();
      if Raised() {
        Panic(P.SUBPROGRAM_DECLARATION_FOLLOW);
        return NullSubprogram;
      }
      var body := ParseCompoundStatement();
      if Raised() {
        Panic(P.SUBPROGRAM_DECLARATION_FOLLOW);
        return NullSubprogram;
      }
      sub := sub.(declarations := declarations, body := body);
    }

    method ParseSubprogramDeclarations() returns (subs: Subprograms)
      requires Valid()
      modifies this
      ensures Valid() && (Snapshot(), subs) == P.ParseSubprogramDeclarations(tokens, old(Snapshot()))
      decreases P.Left(tokens, Snapshot())
    {
      if curToken.kind != TFunction && curToken.kind != TProcedure {
        return NoSubprograms;
      }
      var sub := ParseSubprogramDeclaration();
      if Raised() {
        return NoSubprograms;
      }
      var ok := Match(TSemicolon);
      if !ok {
        Missing(P.ExpectedSemicolon, P.SUBPROGRAM_DECLARATIONS_FOLLOW);
        return NoSubprograms;
      }
      var rest := ParseSubprogramDeclarations();
      subs := Subprograms([sub] + (if rest.Subprograms? then rest.list else []));
    }

    method ParseHeading() returns (name: Identifier, files: Identifiers, ok: bool)
      requires Valid()
      modifies this
      ensures Valid() && (Snapshot(), name, files, ok) == P.ParseHeading(tokens, old(Snapshot()))
    {
      name, files := NullIdentifier, NoIdentifiers;
      ok := Match(TProgram);
      if !ok {
        Missing(P.ExpectedProgram, P.PROGRAM_FOLLOW);
        return;
      }
      name := ParseIdentifier();
      if Raised() {
        Panic(P.PROGRAM_FOLLOW);
        return name, files, false;
      }
      ok := Match(TLParen);
      if !ok {
        Missing(P.ExpectedLParen, P.PROGRAM_FOLLOW);
        return;
      }
      files := ParseIdentifierList();
      if Raised() {
        Panic(P.PROGRAM_FOLLOW);
        return name, files, false;
      }
      ok := Match(TRParen);
      if !ok {
        Missing(P.ExpectedRParen, P.PROGRAM_FOLLOW);
        return;
      }
      ok := Match(TSemicolon);
      if !ok {
        Missing(P.ExpectedSemicolon, P.PROGRAM_FOLLOW);
      }
    }

    method ParseBlock(name: Identifier, files: Identifiers) returns (program: Program)
      requires Valid()
      modifies this
      ensures Valid() && (Snapshot(), program) == P.ParseBlock(tokens, old(Snapshot()), name, files)
    {
      var variables := ParseDeclarations();
      if Raised() {
        Panic(P.PROGRAM_FOLLOW);
        return NullProgram;
      }
      var functions := ParseSubprogramDeclarations();
      if Raised() {
        Panic(P.PROGRAM_FOLLOW);
        return NullProgram;
      }
      var main := ParseCompoundStatement();
      if Raised() {
        Panic(P.PROGRAM_FOLLOW);
        return NullProgram;
      }
      var ok := Match(TPeriod);
      if !ok {
        Missing(P.ExpectedPeriod, P.PROGRAM_FOLLOW);
        return NullProgram;
      }
      program := Program(name, files, variables, functions, main);
    }

    method ParseProgram() returns (program: Program)
      requires Valid()
      modifies this
      ensures Valid() && (Snapshot(), program) == P.ParseProgram(tokens, old(Snapshot()))
    {
      var name, files, ok := ParseHeading();
      if !ok {
        return NullProgram;
      }
      program := ParseBlock(name, files);
    }

    /** A whole run, from the first token: it ends without errors exactly on the spellings of the program it
        returns, and goes through a null list exactly when it reads one. */
    method Parse() returns (program: Program)
      requires Valid() && Snapshot() == P.START
      modifies this
      ensures Valid() && (Snapshot(), program) == P.Parse(tokens)
      ensures AllScanned(tokens) ==>
        forall p :: errorCount == 0 && program == p <==> CompleteProgram(p) && EndOfProgram(tokens, 0, p) >= 0
      ensures AllScanned(tokens) && errorCount == 0 ==> EndOfProgram(tokens, 0, program) == pos
      ensures fault <==> exists r :: Reads(tokens, r) && NullList(tokens, r)
      ensures ListsPresent(tokens) ==> !fault
    {
      hide P.ParseProgram, P.Parse, CompleteProgram, EndOfProgram, Reads, NullList, ListsPresent, AllScanned;
      program := ParseProgram();
      ParseIsParseProgram(tokens);
      if AllScanned(tokens) {
        forall p ensures errorCount == 0 && program == p <==> CompleteProgram(p) && EndOfProgram(tokens, 0, p) >= 0 {
          ParserExact(tokens, p);
        }
        ParserSoundness(tokens);
      }
      NullListIff(tokens);
      if ListsPresent(tokens) {
        Safe(tokens);
      }
    }
  }

  lemma ParseIsParseProgram(tokens: seq<Token>)
    ensures P.Parse(tokens) == P.ParseProgram(tokens, P.START)
  {
  }
}
