/** How many errors the parser counts: one for each statement of the main list that lacks a token, as long as nothing
    behind the first of them makes a compound statement come before an `else`. */
module ErrorCounts {
  import opened Ast
  import opened Tokens
  import opened Parsing
  import opened Grammar
  import opened ParserComplete
  import opened ParserRecovery

  // ----- statements that lack a token -----

  /** A statement of the main list: spelled right, or right up to a place where one token is missing. */
  datatype Piece =
    | Right(t: Statement)
    | WithoutStatement
    | WithoutThen(e: Expression)
    | WithoutDo(e: Expression)
    | WithoutElse(e: Expression, t: Statement)
    | WithoutValue(id: Identifier)
    | WithoutParenthesis(id: Identifier, e: Expression)

  predicate CompletePiece(p: Piece) {
    match p
    case Right(t) => CompleteStatement(t)
    case WithoutStatement => true
    case WithoutThen(e) => CompleteExpression(e)
    case WithoutDo(e) => CompleteExpression(e)
    case WithoutElse(e, t) => CompleteExpression(e) && CompleteStatement(t)
    case WithoutValue(id) => CompleteReference(id) && id.parameters.NoParameters?
    case WithoutParenthesis(id, e) => CompleteReference(id) && id.parameters.NoParameters? && CompleteExpression(e)
  }

  predicate CompletePieces(ps: seq<Piece>) {
    forall p :: p in ps ==> CompletePiece(p)
  }

  /** Where the missing token should stand; -1 when the statement is not spelled up to there, or nothing is missing. */
  function Gap(ts: seq<Token>, i: int, p: Piece): (j: int)
    ensures j == -1 || 0 <= i <= j
  {
    match p
    case Right(_) => -1
    case WithoutStatement => if i >= 0 && !StartsStatement(Cur(ts, i).kind) then i else -1
    case WithoutThen(e) =>
      var j := EndOfExpression(ts, After(ts, i, TIf), e);
      if j >= 0 && EndsExpression(Cur(ts, j).kind) && !Is(ts, j, TThen) then j else -1
    case WithoutDo(e) =>
      var j := EndOfExpression(ts, After(ts, i, TWhile), e);
      if j >= 0 && EndsExpression(Cur(ts, j).kind) && !Is(ts, j, TDo) then j else -1
    case WithoutElse(e, t) =>
      var j := EndOfThen(ts, i, e, t);
      if j >= 0 && EndsStatement(Cur(ts, j).kind) && !Is(ts, j, TElse) then j else -1
    case WithoutValue(id) =>
      var j := After(ts, EndOfReference(ts, i, id), TAssign);
      if j >= 0 && !StartsExpression(Cur(ts, j).kind) then j else -1
    case WithoutParenthesis(id, e) =>
      var j := EndOfExpression(ts, After(ts, After(ts, EndOfReference(ts, i, id), TAssign), TLParen), e);
      if j >= 0 && EndsExpression(Cur(ts, j).kind) && !Is(ts, j, TRParen) then j else -1
  }

  /** What lacks a token goes on to the first token that can end a statement; when the gap is in a value, no operator,
      relation or `do` may come before. */
  function EndOfPiece(ts: seq<Token>, i: int, p: Piece): (j: int)
    ensures j == -1 || 0 <= i <= j
  {
    if p.Right? then EndOfStatement(ts, i, p.t)
    else if Gap(ts, i, p) < 0 then -1
    else if p.WithoutValue? || p.WithoutParenthesis? then
      var j := First(ts, Gap(ts, i, p), FACTOR_ENDS);
      if Cur(ts, j).kind in STATEMENT_ENDS then j else -1
    else First(ts, Gap(ts, i, p), STATEMENT_ENDS)
  }

  function Errors(ps: seq<Piece>): nat {
    if ps == [] then 0 else (if ps[0].Right? then 0 else 1) + Errors(ps[1..])
  }

  /** No branch before an `else` contains a compound statement. */
  predicate Calm(s: Statement) {
    match s
    case Compound(statements) => statements.Statements? ==> CalmAll(statements.list)
    case If(_, thenPart, elsePart) => Flat(thenPart) && Calm(elsePart)
    case While(_, doPart) => Calm(doPart)
    case _ => true
  }

  predicate CalmAll(ss: seq<Statement>) {
    ss == [] || (Calm(ss[0]) && CalmAll(ss[1..]))
  }

  predicate CalmPiece(p: Piece) {
    match p
    case Right(t) => Calm(t)
    case WithoutElse(_, t) => Flat(t)
    case _ => true
  }

  lemma ValueMissing(ts: seq<Token>, s: State, p: Piece)
    requires !Raised(s) && CompletePiece(p) && p.WithoutValue? && EndOfPiece(ts, s.pos, p) >= 0
    ensures ParseStatement(ts, s).0 == State(EndOfPiece(ts, s.pos, p), Recovering, s.count + 1, s.fault)
  {
    hide ParseStatement, ParseFactor, EndOfReference, CompleteReference, First, STATEMENT_ENDS, FACTOR_ENDS, Moves,
      Consistent, EndOfThen;
    var j := EndOfReference(ts, s.pos, p.id) + 1;
    FactorMissing(ts, s.(pos := j));
    ValueBroken(ts, s, p.id, j);
  }

  lemma ValueUnclosed(ts: seq<Token>, s: State, p: Piece)
    requires !Raised(s) && CompletePiece(p) && p.WithoutParenthesis? && EndOfPiece(ts, s.pos, p) >= 0
    ensures ParseStatement(ts, s).0 == State(EndOfPiece(ts, s.pos, p), Recovering, s.count + 1, s.fault)
  {
    hide ParseStatement, ParseFactor, EndOfExpression, EndOfReference, CompleteExpression, CompleteReference, First,
      STATEMENT_ENDS, FACTOR_ENDS, EndsExpression, Moves, Consistent, EndOfThen;
    var j := EndOfReference(ts, s.pos, p.id) + 1;
    FactorUnclosed(ts, s.(pos := j), p.e);
    ValueBroken(ts, s, p.id, EndOfExpression(ts, j + 1, p.e));
  }

  /** A statement that lacks a token counts as one error, and the next statement is found. */
  lemma PieceParsed(ts: seq<Token>, s: State, p: Piece)
    requires !Raised(s) && !p.Right? && CompletePiece(p) && (s.code.NoError? || CalmPiece(p))
    requires EndOfPiece(ts, s.pos, p) >= 0
    ensures ParseStatement(ts, s).0 == State(EndOfPiece(ts, s.pos, p), Recovering, s.count + 1, s.fault)
  {
    hide ParseStatement, ParseFactor, EndOfExpression, EndOfReference, EndOfStatement, CompleteExpression,
      CompleteStatement, CompleteReference, First, STATEMENT_ENDS, FACTOR_ENDS, EndsExpression, EndsStatement, Moves,
      Consistent;
    match p
    case WithoutStatement => StatementMissing(ts, s);
    case WithoutThen(e) => ThenMissing(ts, s, e);
    case WithoutDo(e) => DoMissing(ts, s, e);
    case WithoutElse(e, t) => ElseMissing(ts, s, e, t);
    case WithoutValue(_) => ValueMissing(ts, s, p);
    case WithoutParenthesis(_, _) => ValueUnclosed(ts, s, p);
  }

  // ----- what is still to come -----

  /** Behind a statement: a semicolon and the next one, or the `end` of a compound statement. */
  datatype Item = Next(p: Piece) | Close

  function EndOfItems(ts: seq<Token>, i: int, items: seq<Item>): (j: int)
    ensures j == -1 || 0 <= i <= j
    decreases |items|
  {
    if items == [] then (if i < 0 then -1 else i)
    else if items[0].Close? then EndOfItems(ts, After(ts, i, TEnd), items[1..])
    else EndOfItems(ts, EndOfPiece(ts, After(ts, i, TSemicolon), items[0].p), items[1..])
  }

  predicate CompleteItems(items: seq<Item>) {
    forall x :: x in items && x.Next? ==> CompletePiece(x.p)
  }

  predicate CalmItems(items: seq<Item>) {
    forall x :: x in items && x.Next? ==> CalmPiece(x.p)
  }

  function ItemErrors(items: seq<Item>): nat {
    if items == [] then 0 else (if items[0].Next? && !items[0].p.Right? then 1 else 0) + ItemErrors(items[1..])
  }

  /** `items` lead from `i` to the last `end` of the program, before its period. */
  predicate Ahead(ts: seq<Token>, i: nat, items: seq<Item>, e: nat) {
    && CompleteItems(items) && EndOfItems(ts, i, items) == e && Is(ts, e, TEnd) && Is(ts, e + 1, TPeriod)
  }

  lemma AheadKind(ts: seq<Token>, i: nat, items: seq<Item>, e: nat)
    requires Ahead(ts, i, items, e)
    ensures if items != [] && items[0].Next? then Is(ts, i, TSemicolon) else Is(ts, i, TEnd)
    ensures EndsStatement(Cur(ts, i).kind) && !Is(ts, i, TElse) && Is(ts, e + 1, TPeriod)
  {
    hide EndOfPiece, CompleteItems;
  }

  /** `s` has passed the first `n` items, with one more error for each that lacks a token; or it is at the period. */
  predicate Landed(ts: seq<Token>, s: State, c: nat, items: seq<Item>, n: nat, e: nat) {
    && n <= |items| && s.code.Recovering? && s.count == c + ItemErrors(items[..n]) && CalmItems(items[..n])
    && (Ahead(ts, s.pos, items[n..], e) || (n == |items| && s.pos == e + 1))
  }

  lemma ErrorsAdd(a: seq<Item>, b: seq<Item>)
    ensures ItemErrors(a + b) == ItemErrors(a) + ItemErrors(b)
  {
    if a == [] {
      assert a + b == b;
    } else {
      assert (a + b)[1..] == a[1..] + b;
      ErrorsAdd(a[1..], b);
    }
  }

  /** Landing after landing. */
  lemma LandedThen(ts: seq<Token>, s: State, c: nat, items: seq<Item>, m: nat, r: State, n: nat, e: nat)
    requires m <= |items| && s.count == c + ItemErrors(items[..m]) && CalmItems(items[..m])
    requires Landed(ts, r, s.count, items[m..], n, e)
    ensures Landed(ts, r, c, items, m + n, e)
  {
    hide Ahead;
    assert items[..m + n] == items[..m] + items[m..][..n];
    assert items[m..][n..] == items[m + n..];
    ErrorsAdd(items[..m], items[m..][..n]);
  }

  // ----- skipping from the end of a compound statement -----

  /** From an `end` skipping passes all that follow, up to the next statement or to the period. */
  lemma {:induction false} SkipLands(ts: seq<Token>, s: State, items: seq<Item>, e: nat) returns (n: nat)
    requires s.code.Recovering? && (items == [] || items[0].Close?)
    requires Ahead(ts, s.pos, items, e) || (items == [] && s.pos == e + 1 && Is(ts, e + 1, TPeriod))
    ensures var r := s.(pos := First(ts, s.pos, BLOCK_ENDS));
      Landed(ts, r, s.count, items, n, e) && (n > 0 || items == [])
    decreases |items|
  {
    hide EndOfPiece, CompletePiece, CalmPiece;
    if items == [] {
      n := 0;
    } else {
      var s1 := s.(pos := s.pos + 1);
      AheadKind(ts, s.pos, items, e);
      assert Ahead(ts, s1.pos, items[1..], e);
      if items[1..] == [] || items[1].Close? {
        n := SkipLands(ts, s1, items[1..], e);
      } else {
        n := 0;
        AheadKind(ts, s1.pos, items[1..], e);
        assert First(ts, s1.pos, BLOCK_ENDS) == s1.pos;
      }
      assert First(ts, s.pos, BLOCK_ENDS) == First(ts, s1.pos, BLOCK_ENDS);
      LandedThen(ts, s, s.count, items, 1, s.(pos := First(ts, s1.pos, BLOCK_ENDS)), n, e);
      n := n + 1;
    }
  }

  // ----- while recovering -----

  lemma StaysRecovering(s: State, r: State)
    requires s.code.Recovering? && Consistent(s) && Moves(s, r) && !Raised(r)
    ensures r.code.Recovering? && Consistent(r)
  {
  }

  /** While recovering, a compound statement is not left at its end: the parser goes on to a semicolon, a period or the
      end of the input. */
  lemma BlockSkips(ts: seq<Token>, s: State)
    requires s.code.Recovering? && Consistent(s) && Is(ts, s.pos, TBegin)
    ensures var (s2, r) := (ParseOptionalStatements(ts, s.(pos := s.pos + 1)).0, ParseCompoundStatement(ts, s).0);
      s2.code.Recovering? && Consistent(s2) && r == s2.(pos := First(ts, s2.pos, BLOCK_ENDS))
  {
    hide ParseOptionalStatements, Skip, First, BLOCK_ENDS;
    var s1 := s.(pos := s.pos + 1);
    var s2 := ParseOptionalStatements(ts, s1).0;
    OptionalSettles(ts, s1);
    StaysRecovering(s1, s2);
    BlockStops(ts, s2.pos);
  }

  lemma OptionalSettles(ts: seq<Token>, s: State)
    requires !Raised(s)
    ensures !Raised(ParseOptionalStatements(ts, s).0)
  {
    hide ParseStatementList, Moves, Consistent;
    OptionalStep(ts, s);
    if StartsStatement(Cur(ts, s.pos).kind) {
      ListSettles(ts, s);
    }
  }

  lemma ConditionParsed(ts: seq<Token>, s: State, e: Expression, k: Kind)
    requires !Raised(s) && CompleteExpression(e) && EndOfExpression(ts, s.pos + 1, e) >= 0 && (k.TDo? || k.TThen?)
    requires Is(ts, EndOfExpression(ts, s.pos + 1, e), k)
    ensures ParseExpression(ts, s.(pos := s.pos + 1)) == (s.(pos := EndOfExpression(ts, s.pos + 1, e)), e)
  {
    hide ParseExpression, EndOfExpression, CompleteExpression;
    ExpressionAccepted(ts, s.(pos := s.pos + 1), e);
  }

  lemma WhileStep(ts: seq<Token>, s: State, e: Expression)
    requires !Raised(s) && Is(ts, s.pos, TWhile)
    requires EndOfExpression(ts, s.pos + 1, e) >= 0 && Is(ts, EndOfExpression(ts, s.pos + 1, e), TDo)
    requires ParseExpression(ts, s.(pos := s.pos + 1)) == (s.(pos := EndOfExpression(ts, s.pos + 1, e)), e)
    ensures ParseStatement(ts, s).0 == ParseStatement(ts, s.(pos := EndOfExpression(ts, s.pos + 1, e) + 1)).0
  {
    hide ParseExpression, EndOfExpression, ParseCompoundStatement, ParseIf, ParseStatementRest, Moves, Consistent,
      Panic, Missing;
    var s1 := s.(pos := EndOfExpression(ts, s.pos + 1, e) + 1);
    StatementSettles(ts, s1);
    WhileBody(ts, s, e);
  }

  lemma WhileBody(ts: seq<Token>, s: State, e: Expression)
    requires !Raised(s) && Is(ts, s.pos, TWhile)
    requires EndOfExpression(ts, s.pos + 1, e) >= 0 && Is(ts, EndOfExpression(ts, s.pos + 1, e), TDo)
    requires ParseExpression(ts, s.(pos := s.pos + 1)) == (s.(pos := EndOfExpression(ts, s.pos + 1, e)), e)
    ensures ParseWhile(ts, s).0 == ParseStatement(ts, s.(pos := EndOfExpression(ts, s.pos + 1, e) + 1)).0
  {
    hide ParseExpression, EndOfExpression, ParseStatement, Moves, Consistent, Panic, Missing;
    StatementSettles(ts, s.(pos := EndOfExpression(ts, s.pos + 1, e) + 1));
  }

  lemma IfStep(ts: seq<Token>, s: State, e: Expression)
    requires !Raised(s) && Is(ts, s.pos, TIf)
    requires EndOfExpression(ts, s.pos + 1, e) >= 0 && Is(ts, EndOfExpression(ts, s.pos + 1, e), TThen)
    requires ParseExpression(ts, s.(pos := s.pos + 1)) == (s.(pos := EndOfExpression(ts, s.pos + 1, e)), e)
    ensures ParseStatement(ts, s) == ParseBranches(ts, s.(pos := EndOfExpression(ts, s.pos + 1, e) + 1), e)
  {
    hide ParseExpression, EndOfExpression, ParseBranches, ParseCompoundStatement, ParseWhile, ParseStatementRest, Moves,
      Consistent, Panic, Missing;
  }

  /** Up to the body of a loop. */
  lemma WhileParsed(ts: seq<Token>, s: State, t: Statement) returns (k: nat)
    requires !Raised(s) && t.While? && CompleteStatement(t) && EndOfStatement(ts, s.pos, t) >= 0
    ensures s.pos < k && s.pos < |ts| && CompleteStatement(t.doPart)
    ensures EndOfStatement(ts, k, t.doPart) == EndOfStatement(ts, s.pos, t)
    ensures ParseStatement(ts, s).0 == ParseStatement(ts, s.(pos := k)).0
  {
    hide ParseStatement, ParseExpression, EndOfExpression, CompleteExpression, Moves, Consistent;
    k := EndOfExpression(ts, s.pos + 1, t.expression) + 1;
    ConditionParsed(ts, s, t.expression, TDo);
    WhileStep(ts, s, t.expression);
  }

  /** Up to the branches of an `if`. */
  lemma IfParsed(ts: seq<Token>, s: State, t: Statement) returns (k: nat)
    requires !Raised(s) && t.If? && CompleteStatement(t) && EndOfStatement(ts, s.pos, t) >= 0
    ensures s.pos < k && s.pos < |ts| && CompleteStatement(t.thenPart) && CompleteStatement(t.elsePart)
    ensures EndOfStatement(ts, After(ts, EndOfStatement(ts, k, t.thenPart), TElse), t.elsePart)
      == EndOfStatement(ts, s.pos, t)
    ensures ParseStatement(ts, s) == ParseBranches(ts, s.(pos := k), t.expression)
  {
    hide ParseStatement, ParseExpression, EndOfExpression, CompleteExpression, ParseBranches, Moves, Consistent;
    k := EndOfExpression(ts, s.pos + 1, t.expression) + 1;
    ConditionParsed(ts, s, t.expression, TThen);
    IfStep(ts, s, t.expression);
  }

  /** So a statement with a compound statement in it does not end before an `else`, unless another error was counted. */
  lemma {:induction false} Overshoots(ts: seq<Token>, s: State, t: Statement)
    requires s.code.Recovering? && Consistent(s) && CompleteStatement(t) && !Flat(t)
    requires EndOfStatement(ts, s.pos, t) >= 0 && EndsStatement(Cur(ts, EndOfStatement(ts, s.pos, t)).kind)
    ensures var r := ParseStatement(ts, s).0; r.count > s.count || Cur(ts, r.pos).kind in BLOCK_ENDS
    decreases t
  {
    hide ParseStatement, ParseBranches, EndOfStatement, CompleteStatement, EndsStatement;
    match t
    case Compound(_) => BlockOvershoots(ts, s, t);
    case While(_, body) =>
      var k := WhileParsed(ts, s, t);
      Overshoots(ts, s.(pos := k), body);
    case If(_, _, _) =>
      var k := IfParsed(ts, s, t);
      BranchesOvershoot(ts, s.(pos := k), t);
  }

  lemma BlockOvershoots(ts: seq<Token>, s: State, t: Statement)
    requires s.code.Recovering? && Consistent(s) && t.Compound? && EndOfStatement(ts, s.pos, t) >= 0
    ensures Cur(ts, ParseStatement(ts, s).0.pos).kind in BLOCK_ENDS
  {
    hide ParseCompoundStatement, ParseOptionalStatements, EndOfStatements, Moves, Consistent;
    BlockSkips(ts, s);
  }

  /** The branches of an `if`, the first of which is parsed up to `else`. */
  lemma BranchesStep(ts: seq<Token>, s: State, e: Expression)
    requires Is(ts, ParseStatement(ts, s).0.pos, TElse)
    ensures var s1 := ParseStatement(ts, s).0;
      ParseBranches(ts, s, e).0 == ParseStatement(ts, s1.(pos := s1.pos + 1)).0
  {
    hide ParseStatement, Moves, Consistent, Panic, Missing;
    var s1 := ParseStatement(ts, s).0;
    StatementSettles(ts, s);
    StatementSettles(ts, s1.(pos := s1.pos + 1));
  }

  /** If it is not, that is another error. */
  lemma BranchesFail(ts: seq<Token>, s: State, e: Expression)
    requires !Is(ts, ParseStatement(ts, s).0.pos, TElse)
    ensures ParseBranches(ts, s, e).0.count == ParseStatement(ts, s).0.count + 1
  {
    hide ParseStatement, Consistent, Skip;
    StatementSettles(ts, s);
  }

  lemma {:induction false} BranchesOvershoot(ts: seq<Token>, s: State, t: Statement)
    requires s.code.Recovering? && Consistent(s) && t.If? && !Flat(t)
    requires CompleteStatement(t.thenPart) && CompleteStatement(t.elsePart)
    requires var j := EndOfStatement(ts, After(ts, EndOfStatement(ts, s.pos, t.thenPart), TElse), t.elsePart);
      j >= 0 && EndsStatement(Cur(ts, j).kind)
    ensures var r := ParseBranches(ts, s, t.expression).0; r.count > s.count || Cur(ts, r.pos).kind in BLOCK_ENDS
    decreases t, 0
  {
    hide ParseStatement, ParseBranches, EndOfStatement, CompleteStatement;
    var k := EndOfStatement(ts, s.pos, t.thenPart);
    if Flat(t.thenPart) {
      StatementAccepted(ts, s, t.thenPart);
      BranchesStep(ts, s, t.expression);
      Overshoots(ts, s.(pos := k + 1), t.elsePart);
    } else {
      Overshoots(ts, s, t.thenPart);
      var r := ParseStatement(ts, s).0;
      if Is(ts, r.pos, TElse) {
        BranchesStep(ts, s, t.expression);
      } else {
        BranchesFail(ts, s, t.expression);
      }
    }
  }

  // ----- the rest of the main statement -----

  function PieceErrors(p: Piece): nat {
    if p.Right? then 0 else 1
  }

  function Nexts(ss: seq<Statement>): (items: seq<Item>)
    ensures |items| == |ss| && forall k :: 0 <= k < |ss| ==> items[k] == Next(Right(ss[k]))
  {
    seq(|ss|, k requires 0 <= k < |ss| => Next(Right(ss[k])))
  }

  /** `p` and what follows it have been passed, or there was an error too many and the reason for it is in them. */
  predicate Passed(ts: seq<Token>, s: State, r: State, p: Piece, items: seq<Item>, n: nat, e: nat) {
    || (CalmPiece(p) && Landed(ts, r, s.count + PieceErrors(p), items, n, e))
    || (r.count > s.count && !(CalmPiece(p) && CalmItems(items)))
  }

  lemma {:induction false} FlatIsCalm(t: Statement)
    requires Flat(t)
    ensures Calm(t)
  {
    match t
    case If(_, _, elsePart) => FlatIsCalm(elsePart);
    case While(_, doPart) => FlatIsCalm(doPart);
    case _ =>
  }

  /** While recovering, a statement of the main list, or one inside it, is parsed, and perhaps more of what follows. */
  lemma {:induction false} StatementPasses(ts: seq<Token>, s: State, p: Piece, items: seq<Item>, e: nat)
    returns (n: nat)
    requires s.code.Recovering? && Consistent(s) && CompletePiece(p) && EndOfPiece(ts, s.pos, p) >= 0
    requires Ahead(ts, EndOfPiece(ts, s.pos, p), items, e)
    ensures Passed(ts, s, ParseStatement(ts, s).0, p, items, n, e)
    decreases Left(ts, s), 2
  {
    hide ParseStatement, ParseBranches, EndOfStatement, CompleteStatement, Ahead, EndsStatement, Flat, Calm, CalmItems,
      Gap, Moves;
    n := 0;
    AheadKind(ts, EndOfPiece(ts, s.pos, p), items, e);
    if !p.Right? {
      if CalmPiece(p) {
        PieceParsed(ts, s, p);
        HereLanded(ts, ParseStatement(ts, s).0, items, e);
      } else {
        ElseUnmatched(ts, s, p);
      }
    } else if Flat(p.t) {
      FlatIsCalm(p.t);
      StatementAccepted(ts, s, p.t);
      HereLanded(ts, ParseStatement(ts, s).0, items, e);
    } else {
      match p.t
      case While(_, body) =>
        var k := WhileParsed(ts, s, p.t);
        n := StatementPasses(ts, s.(pos := k), Right(body), items, e);
        CalmLoop(p.t);
      case If(_, _, _) => n := IfPasses(ts, s, p.t, items, e);
      case Compound(_) => n := BlockPasses(ts, s, p.t, items, e);
      case AssignmentOrCall(_, _) => assert false by { AssignmentFlat(p.t); }
      case NullStatement => assert false by { AssignmentFlat(p.t); }
    }
  }

  lemma AssignmentFlat(t: Statement)
    ensures t.AssignmentOrCall? || t.NullStatement? ==> Flat(t)
  {
  }

  lemma CalmLoop(t: Statement)
    ensures t.While? ==> (Calm(t) <==> Calm(t.doPart))
    ensures t.If? ==> (Calm(t) <==> Flat(t.thenPart) && Calm(t.elsePart))
    ensures t.Compound? && t.statements.Statements? ==> (Calm(t) <==> CalmAll(t.statements.list))
    ensures t.Compound? && t.statements.NoStatements? ==> Calm(t)
  {
  }

  lemma HereLanded(ts: seq<Token>, r: State, items: seq<Item>, e: nat)
    requires r.code.Recovering? && Ahead(ts, r.pos, items, e)
    ensures Landed(ts, r, r.count, items, 0, e)
  {
    assert items[0..] == items;
  }

  /** A branch that ends in a compound statement is not found to be followed by `else`. */
  lemma BranchesCount(ts: seq<Token>, s: State, e: Expression, t: Statement)
    requires s.code.Recovering? && Consistent(s) && CompleteStatement(t) && !Flat(t)
    requires EndOfStatement(ts, s.pos, t) >= 0 && EndsStatement(Cur(ts, EndOfStatement(ts, s.pos, t)).kind)
    ensures ParseBranches(ts, s, e).0.count > s.count
  {
    hide ParseStatement, ParseBranches, EndOfStatement, CompleteStatement, EndsStatement, Consistent, Flat;
    Overshoots(ts, s, t);
    var r := ParseStatement(ts, s).0;
    if Is(ts, r.pos, TElse) {
      BranchesStep(ts, s, e);
    } else {
      BranchesFail(ts, s, e);
    }
  }

  lemma ElseUnmatched(ts: seq<Token>, s: State, p: Piece)
    requires s.code.Recovering? && Consistent(s) && !p.Right? && !CalmPiece(p) && CompletePiece(p)
    requires EndOfPiece(ts, s.pos, p) >= 0
    ensures ParseStatement(ts, s).0.count > s.count
  {
    hide ParseStatement, ParseExpression, ParseBranches, EndOfExpression, EndOfStatement, CompleteExpression,
      CompleteStatement, EndsStatement, EndsExpression, First, Flat;
    var j := EndOfExpression(ts, s.pos + 1, p.e);
    ConditionParsed(ts, s, p.e, TThen);
    IfStep(ts, s, p.e);
    BranchesCount(ts, s.(pos := j + 1), p.e, p.t);
  }

  lemma {:induction false} IfPasses(ts: seq<Token>, s: State, t: Statement, items: seq<Item>, e: nat) returns (n: nat)
    requires s.code.Recovering? && Consistent(s) && t.If? && CompleteStatement(t) && EndOfStatement(ts, s.pos, t) >= 0
    requires Ahead(ts, EndOfStatement(ts, s.pos, t), items, e)
    ensures Passed(ts, s, ParseStatement(ts, s).0, Right(t), items, n, e)
    decreases Left(ts, s), 1
  {
    hide ParseStatement, ParseBranches, EndOfStatement, CompleteStatement, Ahead, Flat, Calm, CalmItems, Landed;
    var k := IfParsed(ts, s, t);
    var s1 := s.(pos := k);
    var j := EndOfStatement(ts, k, t.thenPart);
    CalmLoop(t);
    assert Is(ts, j, TElse) && EndsStatement(Cur(ts, j).kind);
    if Flat(t.thenPart) {
      StatementAccepted(ts, s1, t.thenPart);
      BranchesStep(ts, s1, t.expression);
      n := StatementPasses(ts, s.(pos := j + 1), Right(t.elsePart), items, e);
    } else {
      n := 0;
      BranchesCount(ts, s1, t.expression, t.thenPart);
    }
  }

  /** After the last statement of a list the parser does not stand at a semicolon. */
  predicate AtEnd(items: seq<Item>, n: nat) {
    n <= |items| && (n < |items| ==> items[n].Close?)
  }

  lemma {:induction false} RestPasses(ts: seq<Token>, s: State, items: seq<Item>, e: nat) returns (n: nat)
    requires s.code.Recovering? && Consistent(s)
    requires Ahead(ts, s.pos, items, e) || (items == [] && s.pos == e + 1 && Is(ts, e + 1, TPeriod))
    ensures var r := ParseStatementListRest(ts, s).0;
      || (Landed(ts, r, s.count, items, n, e) && AtEnd(items, n))
      || (r.count > s.count && !CalmItems(items))
    decreases Left(ts, s), 0
  {
    hide ParseStatementList, EndOfPiece, CompletePiece, CalmPiece, Moves;
    if Is(ts, s.pos, TSemicolon) {
      AheadKind(ts, s.pos, items, e);
      var s1 := s.(pos := s.pos + 1);
      var m := ListPasses(ts, s1, items[0].p, items[1..], e);
      n := m + 1;
      var r := ParseStatementList(ts, s1).0;
      if Landed(ts, r, s.count + PieceErrors(items[0].p), items[1..], m, e) && CalmPiece(items[0].p) {
        OneMoreItem(ts, r, s.count, items, m, e);
      }
    } else {
      n := 0;
      assert items[0..] == items;
      if Ahead(ts, s.pos, items, e) {
        AheadKind(ts, s.pos, items, e);
      }
    }
  }

  lemma OneMoreItem(ts: seq<Token>, r: State, c: nat, items: seq<Item>, m: nat, e: nat)
    requires items != [] && items[0].Next? && CalmPiece(items[0].p)
    requires Landed(ts, r, c + PieceErrors(items[0].p), items[1..], m, e)
    ensures Landed(ts, r, c, items, m + 1, e)
  {
    hide Ahead, CalmPiece;
    assert items[..m + 1] == [items[0]] + items[1..][..m];
    assert items[1..][m..] == items[m + 1..];
    ErrorsAdd([items[0]], items[1..][..m]);
  }

  lemma {:induction false} ListPasses(ts: seq<Token>, s: State, p: Piece, items: seq<Item>, e: nat) returns (n: nat)
    requires s.code.Recovering? && Consistent(s) && CompletePiece(p) && EndOfPiece(ts, s.pos, p) >= 0
    requires Ahead(ts, EndOfPiece(ts, s.pos, p), items, e)
    ensures var r := ParseStatementList(ts, s).0;
      || (CalmPiece(p) && Landed(ts, r, s.count + PieceErrors(p), items, n, e) && AtEnd(items, n))
      || (r.count > s.count && !(CalmPiece(p) && CalmItems(items)))
    decreases Left(ts, s), 3
  {
    hide ParseStatement, ParseStatementList, EndOfPiece, CompletePiece, CalmPiece, Ahead, CalmItems;
    ListStep(ts, s);
    AheadKind(ts, EndOfPiece(ts, s.pos, p), items, e);
    var r := ParseStatement(ts, s).0;
    n := StatementPasses(ts, s, p, items, e);
    if CalmPiece(p) && Landed(ts, r, s.count + PieceErrors(p), items, n, e) {
      CalmSplit(items, n);
      var m := RestPasses(ts, r, items[n..], e);
      var r' := ParseStatementListRest(ts, r).0;
      if Landed(ts, r', r.count, items[n..], m, e) && AtEnd(items[n..], m) {
        LandedThen(ts, r, s.count + PieceErrors(p), items, n, r', m, e);
        n := n + m;
      }
    }
  }

  lemma CalmSplit(items: seq<Item>, n: nat)
    requires n <= |items|
    ensures CalmItems(items) <==> CalmItems(items[..n]) && CalmItems(items[n..])
  {
    hide CalmPiece;
    assert items == items[..n] + items[n..];
  }

  /** What follows the first statement of a compound statement. */
  function Inside(ss: seq<Statement>, items: seq<Item>): (r: seq<Item>)
    ensures |r| == |ss| + 1 + |items|
  {
    Nexts(ss) + [Close] + items
  }

  lemma {:induction false} InsideAhead(ts: seq<Token>, i: nat, ss: seq<Statement>, items: seq<Item>, e: nat)
    requires CompleteStatements(ss)
    requires var j := if ss == [] then i as int else EndOfStatements(ts, After(ts, i, TSemicolon), ss);
      j >= 0 && Is(ts, j, TEnd) && Ahead(ts, j + 1, items, e)
    ensures Ahead(ts, i, Inside(ss, items), e)
    decreases |ss|
  {
    hide EndOfStatement, CompleteStatement, Gap, First, Moves, Consistent;
    var r := Inside(ss, items);
    if ss == [] {
      assert r == [Close] + items && r[1..] == items;
    } else {
      InsideAhead(ts, EndOfStatement(ts, i + 1, ss[0]), ss[1..], items, e);
      assert r[0] == Next(Right(ss[0]));
      assert r[1..] == Inside(ss[1..], items);
    }
  }

  lemma {:induction false} InsideCalm(ss: seq<Statement>, items: seq<Item>)
    ensures CalmItems(Inside(ss, items)) <==> CalmAll(ss) && CalmItems(items)
    decreases |ss|
  {
    hide Calm;
    var r := Inside(ss, items);
    if ss == [] {
      assert r == [Close] + items;
    } else {
      InsideCalm(ss[1..], items);
      assert r == [Next(Right(ss[0]))] + Inside(ss[1..], items);
    }
  }

  lemma {:induction false} InsideErrors(ss: seq<Statement>, items: seq<Item>)
    ensures ItemErrors(Inside(ss, items)) == ItemErrors(items)
    decreases |ss|
  {
    var r := Inside(ss, items);
    if ss == [] {
      assert r == [Close] + items && r[1..] == items;
    } else {
      InsideErrors(ss[1..], items);
      assert r[0] == Next(Right(ss[0]));
      assert r[1..] == Inside(ss[1..], items);
    }
  }

  lemma InsideNexts(ss: seq<Statement>, items: seq<Item>)
    ensures forall k :: 0 <= k < |ss| ==> Inside(ss, items)[k] == Next(Right(ss[k]))
  {
  }

  lemma InsideParts(ss: seq<Statement>, items: seq<Item>, n: nat)
    requires n <= |items|
    ensures Inside(ss, items)[..|ss| + 1 + n] == Inside(ss, items[..n])
    ensures Inside(ss, items)[|ss| + 1 + n..] == items[n..]
  {
  }

  /** What has landed behind a compound statement. */
  lemma InsideLanded(ts: seq<Token>, r: State, c: nat, ss: seq<Statement>, items: seq<Item>, n: nat, e: nat)
    requires n <= |items| && Landed(ts, r, c, Inside(ss, items), |ss| + 1 + n, e)
    ensures Landed(ts, r, c, items, n, e) && CalmAll(ss)
  {
    hide *;
    var (before, after) := (items[..n], items[n..]);
    InsideParts(ss, items, n);
    LandedParts(ts, r, c, Inside(ss, items), |ss| + 1 + n, e, Inside(ss, before), after);
    InsideErrors(ss, before);
    InsideCalm(ss, before);
    PartsLanded(ts, r, c, items, n, e, before, after);
  }

  lemma LandedParts(ts: seq<Token>, r: State, c: nat, items: seq<Item>, n: nat, e: nat, before: seq<Item>,
        after: seq<Item>)
    requires Landed(ts, r, c, items, n, e) && before == items[..n] && after == items[n..]
    ensures r.code.Recovering? && r.count == c + ItemErrors(before) && CalmItems(before)
    ensures Ahead(ts, r.pos, after, e) || (after == [] && r.pos == e + 1)
  {
    hide Ahead, CalmItems;
  }

  lemma PartsLanded(ts: seq<Token>, r: State, c: nat, items: seq<Item>, n: nat, e: nat, before: seq<Item>,
        after: seq<Item>)
    requires n <= |items| && before == items[..n] && after == items[n..]
    requires r.code.Recovering? && r.count == c + ItemErrors(before) && CalmItems(before)
    requires Ahead(ts, r.pos, after, e) || (after == [] && r.pos == e + 1)
    ensures Landed(ts, r, c, items, n, e)
  {
    hide Ahead, CalmItems;
  }

  lemma BlockParts(ts: seq<Token>, s: State, t: Statement)
    requires t.Compound? && CompleteStatement(t) && EndOfStatement(ts, s.pos, t) >= 0
    ensures Is(ts, s.pos, TBegin) && s.pos < |ts| && ParseStatement(ts, s) == ParseCompoundStatement(ts, s)
    ensures t.statements.NoStatements? ==> Is(ts, s.pos + 1, TEnd) && EndOfStatement(ts, s.pos, t) == s.pos + 2
    ensures t.statements.Statements? ==>
      && t.statements.list != [] && var (first, rest) := (t.statements.list[0], t.statements.list[1..]);
      && CompleteStatement(first) && CompleteStatements(rest) && StartsStatement(Cur(ts, s.pos + 1).kind)
      && var j := EndOfStatement(ts, s.pos + 1, first);
      && j >= 0 && var k := if rest == [] then j else EndOfStatements(ts, After(ts, j, TSemicolon), rest);
      k >= 0 && Is(ts, k, TEnd) && EndOfStatement(ts, s.pos, t) == k + 1
  {
    hide ParseCompoundStatement, Moves, Consistent;
    if t.statements.Statements? {
      var first := t.statements.list[0];
      assert CompleteStatement(first);
    }
  }

  /** From the end of its list a compound statement skips. */
  lemma BlockLands(ts: seq<Token>, s: State, r: State, ss: seq<Statement>, items: seq<Item>, m: nat, e: nat)
    returns (n: nat)
    requires Landed(ts, r, s.count, Inside(ss, items), m, e) && AtEnd(Inside(ss, items), m)
    requires Is(ts, e + 1, TPeriod)
    ensures Landed(ts, r.(pos := First(ts, r.pos, BLOCK_ENDS)), s.count, items, n, e) && CalmAll(ss)
  {
    hide Ahead, First, BLOCK_ENDS;
    var all := Inside(ss, items);
    InsideNexts(ss, items);
    var k := SkipLands(ts, r, all[m..], e);
    LandedThen(ts, r, s.count, all, m, r.(pos := First(ts, r.pos, BLOCK_ENDS)), k, e);
    n := m + k - |ss| - 1;
    InsideLanded(ts, r.(pos := First(ts, r.pos, BLOCK_ENDS)), s.count, ss, items, n, e);
  }

  lemma EmptyBlockPasses(ts: seq<Token>, s: State, t: Statement, items: seq<Item>, e: nat) returns (n: nat)
    requires s.code.Recovering? && Consistent(s) && t.Compound? && t.statements.NoStatements?
    requires EndOfStatement(ts, s.pos, t) >= 0 && Ahead(ts, EndOfStatement(ts, s.pos, t), items, e)
    ensures Landed(ts, ParseStatement(ts, s).0, s.count, items, n, e)
  {
    hide ParseStatementList, ParseOptionalStatements, ParseStatement, ParseCompoundStatement, EndOfStatement,
      EndOfItems,
      Ahead, CalmItems, Landed, First, Moves, Inside;
    var s1 := s.(pos := s.pos + 1);
    AheadKind(ts, EndOfStatement(ts, s.pos, t), items, e);
    BlockParts(ts, s, t);
    BlockSkips(ts, s);
    OptionalStep(ts, s1);
    InsideAhead(ts, s1.pos, [], items, e);
    HereLanded(ts, s1, Inside([], items), e);
    InsideFirst(items);
    n := BlockLands(ts, s, s1, [], items, 0, e);
  }

  lemma InsideFirst(items: seq<Item>)
    ensures AtEnd(Inside([], items), 0)
  {
  }

  lemma {:induction false} BlockPasses(ts: seq<Token>, s: State, t: Statement, items: seq<Item>, e: nat)
    returns (n: nat)
    requires s.code.Recovering? && Consistent(s) && t.Compound? && CompleteStatement(t)
    requires EndOfStatement(ts, s.pos, t) >= 0 && Ahead(ts, EndOfStatement(ts, s.pos, t), items, e)
    ensures Passed(ts, s, ParseStatement(ts, s).0, Right(t), items, n, e)
    decreases Left(ts, s), 1
  {
    hide ParseStatementList, ParseOptionalStatements, ParseStatement, ParseCompoundStatement, EndOfStatement,
      EndOfStatements, EndOfItems, CompleteStatement, Ahead, Calm, CalmAll, CalmItems, Landed, First, Moves, Inside,
      CompleteStatements, AtEnd;
    CalmLoop(t);
    if t.statements.NoStatements? {
      n := EmptyBlockPasses(ts, s, t, items, e);
    } else {
      var s1 := s.(pos := s.pos + 1);
      AheadKind(ts, EndOfStatement(ts, s.pos, t), items, e);
      BlockParts(ts, s, t);
      BlockSkips(ts, s);
      OptionalStep(ts, s1);
      var (first, ss) := (t.statements.list[0], t.statements.list[1..]);
      var all := Inside(ss, items);
      InsideAhead(ts, EndOfStatement(ts, s1.pos, first), ss, items, e);
      InsideCalm(ss, items);
      CalmFirst(t.statements.list);
      var r := ParseStatementList(ts, s1).0;
      var m := ListPasses(ts, s1, Right(first), all, e);
      if Calm(first) && Landed(ts, r, s1.count, all, m, e) && AtEnd(all, m) {
        n := BlockLands(ts, s, r, ss, items, m, e);
      } else {
        n := 0;
      }
    }
  }

  lemma CalmFirst(ss: seq<Statement>)
    requires ss != []
    ensures CalmAll(ss) <==> Calm(ss[0]) && CalmAll(ss[1..])
  {
  }
}
