/** The language of the parser: which token sequences spell which syntax trees.

    Each `EndOf` function gives the position after the tokens from `i` on that spell its tree, and -1 when
    they do not spell it. One tree has several spellings: a sum may start with a plus sign, the last argument
    of a call may be followed by a comma, and variables of one type may be declared together. */
module Grammar {
  import opened Ast
  import opened Tokens

  function After(ts: seq<Token>, i: int, k: Kind): (j: int)
    ensures j == -1 || 0 <= i < j
    ensures j >= 0 <==> i >= 0 && Is(ts, i, k)
    ensures j >= 0 ==> j == i + 1
  {
    if i >= 0 && Is(ts, i, k) then i + 1 else -1
  }

  function AfterOp(ts: seq<Token>, i: int, k: Kind, op: Operator): (j: int)
    ensures j == -1 || 0 <= i < j
    ensures j >= 0 <==> i >= 0 && Is(ts, i, k) && Cur(ts, i).op == op
    ensures j >= 0 ==> j == i + 1
  {
    if i >= 0 && Is(ts, i, k) && Cur(ts, i).op == op then i + 1 else -1
  }

  function AfterName(ts: seq<Token>, i: int, name: string): (j: int)
    ensures j == -1 || 0 <= i < j
    ensures j >= 0 <==> i >= 0 && Is(ts, i, TIdentifier) && Cur(ts, i).text == name
    ensures j >= 0 ==> j == i + 1
  {
    if i >= 0 && Is(ts, i, TIdentifier) && Cur(ts, i).text == name then i + 1 else -1
  }

  function AfterNumber(ts: seq<Token>, i: int, n: Number): (j: int)
    ensures j == -1 || 0 <= i < j
    ensures j >= 0 <==> i >= 0 && Is(ts, i, TNumber) && n == Number(Cur(ts, i).text, Cur(ts, i).number)
    ensures j >= 0 ==> j == i + 1
  {
    if i >= 0 && Is(ts, i, TNumber) && n == Number(Cur(ts, i).text, Cur(ts, i).number) then i + 1 else -1
  }

  // ----- trees the parser builds -----

  /** A name without index and parameters. */
  predicate PlainName(id: Identifier) {
    id.Identifier? && id.index.NullExpression? && id.parameters.NoParameters?
  }

  predicate PlainNames(ids: Identifiers) {
    ids.Identifiers? && |ids.list| > 0 && forall id :: id in ids.list ==> PlainName(id)
  }

  predicate CompleteReference(id: Identifier) {
    && id.Identifier?
    && (id.index.NullExpression? || (CompleteExpression(id.index) && id.parameters.NoParameters?))
    && (id.parameters.Parameters? ==> CompleteExpressions(id.parameters.list))
  }

  predicate CompleteFactor(f: Factor) {
    match f
    case NullFactor => false
    case NumberFactor(number) => number.Number?
    case NotFactor(factor) => CompleteFactor(factor)
    case ParenFactor(expression) => CompleteExpression(expression)
    case IdFactor(id) => CompleteReference(id)
  }

  predicate CompleteTerm(t: Term) {
    && t.Term? && CompleteFactor(t.factor)
    && if t.rest.NullTerm? then t.mulOp.Invalid? else IsMulOp(t.mulOp) && CompleteTerm(t.rest)
  }

  /** A sum; only its first term can be negated. */
  predicate CompleteSum(e: Expression)
    decreases e, 0
  {
    && e.AddOp? && CompleteTerm(e.term)
    && if e.rest.NullExpression? then e.addOp.Invalid?
       else IsAddOp(e.addOp) && CompleteSum(e.rest) && !e.rest.negated
  }

  predicate CompleteExpression(e: Expression)
    decreases e, 1
  {
    match e
    case NullExpression => false
    case RelOp(lhs, op, rhs) => CompleteSum(lhs) && IsRelOp(op) && CompleteSum(rhs)
    case AddOp(_, _, _, _) => CompleteSum(e)
  }

  predicate CompleteExpressions(es: seq<Expression>) {
    es == [] || (CompleteExpression(es[0]) && CompleteExpressions(es[1..]))
  }

  predicate CompleteStatement(s: Statement) {
    match s
    case NullStatement => false
    case AssignmentOrCall(id, value) =>
      && CompleteReference(id) && (value.NullExpression? || (CompleteExpression(value) && id.parameters.NoParameters?))
    case Compound(statements) => statements.Statements? ==> statements.list != [] && CompleteStatements(statements.list)
    case If(expression, thenPart, elsePart) =>
      CompleteExpression(expression) && CompleteStatement(thenPart) && CompleteStatement(elsePart)
    case While(expression, doPart) => CompleteExpression(expression) && CompleteStatement(doPart)
  }

  predicate CompleteStatements(ss: seq<Statement>) {
    ss == [] || (CompleteStatement(ss[0]) && CompleteStatements(ss[1..]))
  }

  /** No compound statement, and none inside. */
  predicate Flat(s: Statement) {
    match s
    case Compound(_) => false
    case If(_, thenPart, elsePart) => Flat(thenPart) && Flat(elsePart)
    case While(_, doPart) => Flat(doPart)
    case _ => true
  }

  predicate CompleteType(t: Type) {
    && t.Type?
    && if t.isArray then t.startsAt.Number? && t.endsAt.Number? else t.startsAt.NullNumber? && t.endsAt.NullNumber?
  }

  predicate CompleteDeclarations(ds: Declarations) {
    ds.Declarations? ==> |ds.list| > 0 && forall d :: d in ds.list ==> PlainName(d.id) && CompleteType(d.kind)
  }

  predicate CompleteSubprogram(sp: Subprogram) {
    && sp.Subprogram? && PlainName(sp.name) && CompleteDeclarations(sp.arguments)
      && CompleteDeclarations(sp.declarations)
    && (if sp.isFunction then CompleteType(sp.returnType) && !sp.returnType.isArray else sp.returnType.NullType?)
    && sp.body.Compound? && CompleteStatement(sp.body)
  }

  predicate CompleteSubprograms(sps: Subprograms) {
    sps.Subprograms? ==> |sps.list| > 0 && forall sp :: sp in sps.list ==> CompleteSubprogram(sp)
  }

  predicate CompleteProgram(p: Program) {
    && p.Program? && PlainName(p.programName)
    && PlainNames(p.inputOutput)
    && CompleteDeclarations(p.variables)
    && CompleteSubprograms(p.functions)
    && p.mainProgram.Compound? && CompleteStatement(p.mainProgram)
  }

  // ----- expressions -----

  function EndOfIndex(ts: seq<Token>, i: int, e: Expression): (j: int)
    ensures j == -1 || 0 <= i <= j
    decreases e, 3
  {
    if e.NullExpression? then (if i < 0 then -1 else i)
    else After(ts, EndOfExpression(ts, After(ts, i, TLBracket), e), TRBracket)
  }

  /** What follows the name: its arguments, or an index if it has one. */
  function EndOfSuffix(ts: seq<Token>, i: int, id: Identifier): (j: int)
    requires id.Identifier?
    ensures j == -1 || 0 <= i <= j
    decreases id, 0
  {
    if id.parameters.Parameters? then
      After(ts, EndOfArguments(ts, After(ts, i, TLParen), id.parameters.list), TRParen)
    else EndOfIndex(ts, i, id.index)
  }

  /** A name with its index or its arguments. */
  function EndOfReference(ts: seq<Token>, i: int, id: Identifier): (j: int)
    ensures j == -1 || (0 <= i < j && Is(ts, i, TIdentifier))
    decreases id, 1
  {
    if id.NullIdentifier? then -1 else EndOfSuffix(ts, AfterName(ts, i, id.name), id)
  }

  function EndOfFactor(ts: seq<Token>, i: int, f: Factor): (j: int)
    ensures j == -1 || (0 <= i < j && StartsFactor(Cur(ts, i).kind))
    decreases f
  {
    match f
    case NullFactor => -1
    case NumberFactor(number) => AfterNumber(ts, i, number)
    case NotFactor(factor) => EndOfFactor(ts, After(ts, i, TNot), factor)
    case ParenFactor(e) => After(ts, EndOfExpression(ts, After(ts, i, TLParen), e), TRParen)
    case IdFactor(id) => EndOfReference(ts, i, id)
  }

  function EndOfTerm(ts: seq<Token>, i: int, t: Term): (j: int)
    ensures j == -1 || (0 <= i < j && StartsFactor(Cur(ts, i).kind))
    decreases t
  {
    if t.NullTerm? then -1
    else
      var j := EndOfFactor(ts, i, t.factor);
      if t.rest.NullTerm? then j else EndOfTerm(ts, AfterOp(ts, j, TMulOp, t.mulOp), t.rest)
  }

  /** Terms and the operators between them. */
  function EndOfSum(ts: seq<Token>, i: int, e: Expression): (j: int)
    ensures j == -1 || (0 <= i < j && StartsFactor(Cur(ts, i).kind))
    decreases e, 0
  {
    if !e.AddOp? then -1
    else
      var j := EndOfTerm(ts, i, e.term);
      if e.rest.NullExpression? then j else EndOfSum(ts, AfterOp(ts, j, TAddOp, e.addOp), e.rest)
  }

  /** A minus sign where the tree says so; otherwise a plus sign may stand. */
  function AfterSign(ts: seq<Token>, i: int, negated: bool): (j: int)
    ensures j == -1 || 0 <= i <= j
  {
    if negated then AfterOp(ts, i, TAddOp, Subtract)
    else if AfterOp(ts, i, TAddOp, Add) >= 0 then i + 1
    else if i < 0 then -1
    else i
  }

  function EndOfSimple(ts: seq<Token>, i: int, e: Expression): (j: int)
    ensures j == -1 || (0 <= i < j && StartsExpression(Cur(ts, i).kind))
    decreases e, 1
  {
    if !e.AddOp? then -1 else EndOfSum(ts, AfterSign(ts, i, e.negated), e)
  }

  function EndOfExpression(ts: seq<Token>, i: int, e: Expression): (j: int)
    ensures j == -1 || (0 <= i < j && StartsExpression(Cur(ts, i).kind))
    decreases e, 2
  {
    match e
    case NullExpression => -1
    case RelOp(lhs, op, rhs) => EndOfSimple(ts, AfterOp(ts, EndOfSimple(ts, i, lhs), TRelOp, op), rhs)
    case AddOp(_, _, _, _) => EndOfSimple(ts, i, e)
  }

  /** Arguments with commas between them, and possibly one after the last. */
  function EndOfArguments(ts: seq<Token>, i: int, es: seq<Expression>): (j: int)
    ensures j == -1 || 0 <= i <= j
    ensures j >= 0 && es != [] ==> StartsExpression(Cur(ts, i).kind)
    decreases es
  {
    if es == [] then (if i < 0 then -1 else i)
    else
      var j := EndOfExpression(ts, i, es[0]);
      var k := After(ts, j, TComma);
      if |es| > 1 then EndOfArguments(ts, k, es[1..])
      else if k >= 0 then k
      else j
  }

  // ----- statements -----

  function EndOfStatement(ts: seq<Token>, i: int, s: Statement): (j: int)
    ensures j == -1 || (0 <= i < j && StartsStatement(Cur(ts, i).kind))
    decreases s
  {
    match s
    case NullStatement => -1
    case AssignmentOrCall(id, value) =>
      var j := EndOfReference(ts, i, id);
      if value.NullExpression? then j else EndOfExpression(ts, After(ts, j, TAssign), value)
    case Compound(statements) =>
      var j := After(ts, i, TBegin);
      After(ts, if statements.Statements? then EndOfStatements(ts, j, statements.list) else j, TEnd)
    case If(e, thenPart, elsePart) =>
      var j := EndOfStatement(ts, After(ts, EndOfExpression(ts, After(ts, i, TIf), e), TThen), thenPart);
      EndOfStatement(ts, After(ts, j, TElse), elsePart)
    case While(e, doPart) =>
      EndOfStatement(ts, After(ts, EndOfExpression(ts, After(ts, i, TWhile), e), TDo), doPart)
  }

  function EndOfStatements(ts: seq<Token>, i: int, ss: seq<Statement>): (j: int)
    ensures j == -1 || 0 <= i <= j
    ensures j >= 0 && ss != [] ==> StartsStatement(Cur(ts, i).kind)
    decreases ss
  {
    if ss == [] then (if i < 0 then -1 else i)
    else
      var j := EndOfStatement(ts, i, ss[0]);
      if |ss| > 1 then EndOfStatements(ts, After(ts, j, TSemicolon), ss[1..]) else j
  }

  // ----- declarations -----

  /** Names with commas between them. */
  function EndOfNames(ts: seq<Token>, i: int, ids: seq<Identifier>): (j: int)
    ensures j == -1 || (0 <= i < j && Is(ts, i, TIdentifier))
    decreases |ids|
  {
    if ids == [] || ids[0].NullIdentifier? then -1
    else
      var j := AfterName(ts, i, ids[0].name);
      if |ids| > 1 then EndOfNames(ts, After(ts, j, TComma), ids[1..]) else j
  }

  /** How many names stand at `i` with commas between them. */
  function NamesAt(ts: seq<Token>, i: int): nat
    decreases if 0 <= i < |ts| then |ts| - i else 0
  {
    if i < 0 || !Is(ts, i, TIdentifier) then 0
    else if Is(ts, i + 1, TComma) then 1 + NamesAt(ts, i + 2)
    else 1
  }

  function EndOfStandardType(ts: seq<Token>, i: int, n: NumberType): (j: int)
    ensures j == -1 || 0 <= i < j
  {
    After(ts, i, if n.Integer? then TInteger else TReal)
  }

  function EndOfType(ts: seq<Token>, i: int, t: Type): (j: int)
    ensures j == -1 || 0 <= i < j
  {
    if t.NullType? then -1
    else if t.isArray then
      var j := After(ts, AfterNumber(ts, After(ts, After(ts, i, TArray), TLBracket), t.startsAt), TRange);
      EndOfStandardType(ts, After(ts, After(ts, AfterNumber(ts, j, t.endsAt), TRBracket), TOf), t.standardType)
    else EndOfStandardType(ts, i, t.standardType)
  }

  function Names(ds: seq<Declaration>): (r: seq<Identifier>)
    ensures |r| == |ds| && forall i :: 0 <= i < |r| ==> r[i] == ds[i].id
  {
    seq(|ds|, i requires 0 <= i < |ds| => ds[i].id)
  }

  /** The names at `i`, a colon and their type: the first declarations of `ds`, as many as there are names. */
  function EndOfGroup(ts: seq<Token>, i: int, ds: seq<Declaration>): (j: int)
    ensures j == -1 || (0 <= i < j && 0 < NamesAt(ts, i) <= |ds|)
  {
    var n := NamesAt(ts, i);
    if n == 0 || n > |ds| || exists k :: 0 <= k < n && ds[k].kind != ds[0].kind then -1
    else EndOfType(ts, After(ts, EndOfNames(ts, i, Names(ds[..n])), TColon), ds[0].kind)
  }

  /** Groups, each after `var` and before a semicolon. */
  function EndOfDeclarations(ts: seq<Token>, i: int, ds: seq<Declaration>): (j: int)
    ensures j == -1 || 0 <= i <= j
    ensures j >= 0 && ds != [] ==> Is(ts, i, TVar)
    ensures ds == [] && i >= 0 ==> j == i
    decreases |ds|
  {
    if ds == [] then (if i < 0 then -1 else i)
    else
      var start := After(ts, i, TVar);
      var j := After(ts, EndOfGroup(ts, start, ds), TSemicolon);
      if j < 0 then -1 else EndOfDeclarations(ts, j, ds[NamesAt(ts, start)..])
  }

  /** Groups with semicolons between them. */
  function EndOfArgumentList(ts: seq<Token>, i: int, ds: seq<Declaration>): (j: int)
    ensures j == -1 || 0 <= i < j
    decreases |ds|
  {
    var j := EndOfGroup(ts, i, ds);
    if j < 0 || NamesAt(ts, i) == |ds| then j
    else EndOfArgumentList(ts, After(ts, j, TSemicolon), ds[NamesAt(ts, i)..])
  }

  // ----- subprograms and programs -----

  function ListOf(ds: Declarations): seq<Declaration> {
    if ds.Declarations? then ds.list else []
  }

  function SubprogramList(sps: Subprograms): seq<Subprogram> {
    if sps.Subprograms? then sps.list else []
  }

  /** `function` or `procedure`, the name and the arguments. */
  function EndOfName(ts: seq<Token>, i: int, isFunction: bool, name: Identifier, arguments: Declarations): (j: int)
    ensures j == -1 || (0 <= i < j && Is(ts, i, if isFunction then TFunction else TProcedure))
  {
    if name.NullIdentifier? then -1
    else
      var j := AfterName(ts, After(ts, i, if isFunction then TFunction else TProcedure), name.name);
      if arguments.Declarations? then After(ts, EndOfArgumentList(ts, After(ts, j, TLParen), arguments.list), TRParen)
      else j
  }

  /** The colon and the return type of a function. */
  function EndOfResult(ts: seq<Token>, i: int, isFunction: bool, t: Type): (j: int)
    ensures j == -1 || 0 <= i <= j
  {
    if !isFunction then (if i < 0 then -1 else i)
    else if t.NullType? then -1
    else EndOfStandardType(ts, After(ts, i, TColon), t.standardType)
  }

  function EndOfHead(ts: seq<Token>, i: int, sp: Subprogram): (j: int)
    requires sp.Subprogram?
    ensures j == -1 || (0 <= i < j && (Is(ts, i, TFunction) || Is(ts, i, TProcedure)))
  {
    After(ts, EndOfResult(ts, EndOfName(ts, i, sp.isFunction, sp.name, sp.arguments), sp.isFunction, sp.returnType),
      TSemicolon)
  }

  function EndOfSubprogram(ts: seq<Token>, i: int, sp: Subprogram): (j: int)
    ensures j == -1 || (0 <= i < j && (Is(ts, i, TFunction) || Is(ts, i, TProcedure)))
  {
    if sp.NullSubprogram? then -1
    else
      EndOfStatement(ts, EndOfDeclarations(ts, EndOfHead(ts, i, sp), ListOf(sp.declarations)), sp.body)
  }

  function EndOfSubprograms(ts: seq<Token>, i: int, sps: seq<Subprogram>): (j: int)
    ensures j == -1 || 0 <= i <= j
    ensures j >= 0 && sps != [] ==> Is(ts, i, TFunction) || Is(ts, i, TProcedure)
    ensures sps == [] && i >= 0 ==> j == i
    decreases |sps|
  {
    if sps == [] then (if i < 0 then -1 else i)
    else EndOfSubprograms(ts, After(ts, EndOfSubprogram(ts, i, sps[0]), TSemicolon), sps[1..])
  }

  function EndOfHeading(ts: seq<Token>, i: int, name: Identifier, files: Identifiers): (j: int)
    ensures j == -1 || 0 <= i < j
  {
    if name.NullIdentifier? || files.NoIdentifiers? then -1
    else
      var j := After(ts, AfterName(ts, After(ts, i, TProgram), name.name), TLParen);
      After(ts, After(ts, EndOfNames(ts, j, files.list), TRParen), TSemicolon)
  }

  /** The whole program; what follows its period does not matter. */
  function EndOfProgram(ts: seq<Token>, i: int, p: Program): (j: int)
    ensures j == -1 || 0 <= i < j
  {
    if p.NullProgram? then -1
    else
      var j := EndOfDeclarations(ts, EndOfHeading(ts, i, p.programName, p.inputOutput), ListOf(p.variables));
      var k := EndOfSubprograms(ts, j, SubprogramList(p.functions));
      After(ts, EndOfStatement(ts, k, p.mainProgram), TPeriod)
  }
}
