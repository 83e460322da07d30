/** The meaning of call-free, index-free statements, by their syntax trees.

    `a - b - c` nests to the right, as the parser builds it; `and`, `or` and `not` are operators
    on numbers like the others. */
module Semantics {
  import opened Ast
  import opened Names
  import opened Tac
  import opened Codegen

  // ----- the statements covered -----

  /** A declared plain variable. */
  predicate PlainId(id: Identifier, vars: set<string>) {
    && id.Identifier? && id.index.NullExpression? && id.parameters.NoParameters?
    && IsUserName(id.name) && Lower(id.name) in vars
  }

  predicate PlainExpression(e: Expression, vars: set<string>) {
    match e
    case NullExpression => false
    case RelOp(lhs, op, rhs) => IsRelOp(op) && PlainExpression(lhs, vars) && PlainExpression(rhs, vars)
    case AddOp(_, term, op, rest) =>
      PlainTerm(term, vars) && (rest.NullExpression? || (IsAddOp(op) && PlainExpression(rest, vars)))
  }

  predicate PlainTerm(t: Term, vars: set<string>) {
    && t.Term? && PlainFactor(t.factor, vars)
    && (t.rest.NullTerm? || (IsMulOp(t.mulOp) && PlainTerm(t.rest, vars)))
  }

  predicate PlainFactor(f: Factor, vars: set<string>) {
    match f
    case NullFactor => false
    case NumberFactor(number) => number.Number? && number.kind == Integer
    case NotFactor(factor) => PlainFactor(factor, vars)
    case ParenFactor(expression) => PlainExpression(expression, vars)
    case IdFactor(id) => PlainId(id, vars)
  }

  predicate PlainStatement(s: Statement, vars: set<string>)
    decreases s
  {
    match s
    case NullStatement => false
    case AssignmentOrCall(id, value) => PlainId(id, vars) && PlainExpression(value, vars)
    case Compound(statements) => statements.Statements? ==> PlainStatements(statements.list, vars)
    case If(expression, thenPart, elsePart) =>
      PlainExpression(expression, vars) && PlainStatement(thenPart, vars) && PlainStatement(elsePart, vars)
    case While(expression, doPart) => PlainExpression(expression, vars) && PlainStatement(doPart, vars)
  }

  predicate PlainStatements(ss: seq<Statement>, vars: set<string>)
    decreases ss
  {
    ss == [] || (PlainStatement(ss[0], vars) && PlainStatements(ss[1..], vars))
  }

  // ----- expressions -----

  function BinaryValue(ar: Arithmetic, op: Operator, a: Option<int>, b: Option<int>): Option<int> {
    if a.None? || b.None? then None else ar.binary(op, a.value, b.value)
  }

  /** The value of an expression; `None` when an operator traps. */
  function Eval(ar: Arithmetic, e: Expression, s: Store): Option<int> {
    match e
    case NullExpression => None
    case RelOp(lhs, op, rhs) =>
      var (a, b) := (Eval(ar, lhs, s), Eval(ar, rhs, s));
      if a.None? || b.None? then None else Some(if Holds(op, a.value, b.value) then 1 else 0)
    case AddOp(negated, term, op, rest) =>
      var t := EvalTerm(ar, term, s);
      var a := if negated && t.Some? then Some(ar.unary(Negate, t.value)) else t;
      if rest.NullExpression? then a else BinaryValue(ar, op, a, Eval(ar, rest, s))
  }

  function EvalTerm(ar: Arithmetic, t: Term, s: Store): Option<int> {
    match t
    case NullTerm => None
    case Term(factor, op, rest) =>
      var a := EvalFactor(ar, factor, s);
      if rest.NullTerm? then a else BinaryValue(ar, op, a, EvalTerm(ar, rest, s))
  }

  function EvalFactor(ar: Arithmetic, f: Factor, s: Store): Option<int> {
    match f
    case NullFactor => None
    case NumberFactor(number) => if number.Number? then Some(ValueAsInt(number.text)) else None
    case NotFactor(factor) =>
      var a := EvalFactor(ar, factor, s);
      if a.Some? then Some(ar.unary(UnaryOp.Not, a.value)) else None
    case ParenFactor(expression) => Eval(ar, expression, s)
    case IdFactor(id) => if id.Identifier? then Some(Read(s, Lower(id.name))) else None
  }

  // ----- statements -----

  /** A statement ends with a store, traps, or needs more loop iterations than the fuel allows. */
  datatype Result = Done(store: Store) | Trap | OutOfFuel

  function Exec(ar: Arithmetic, s: Statement, st: Store, fuel: nat): Result
    decreases fuel, s
  {
    match s
    case NullStatement => Trap
    case AssignmentOrCall(id, value) =>
      var v := Eval(ar, value, st);
      if v.None? || id.NullIdentifier? then Trap else Done(st[Lower(id.name) := v.value])
    case Compound(statements) => if statements.Statements? then ExecAll(ar, statements.list, st, fuel) else Done(st)
    case If(expression, thenPart, elsePart) =>
      var v := Eval(ar, expression, st);
      if v.None? then Trap
      else if v.value != 0 then Exec(ar, thenPart, st, fuel)
      else Exec(ar, elsePart, st, fuel)
    case While(expression, doPart) =>
      var v := Eval(ar, expression, st);
      if v.None? then Trap
      else if v.value == 0 then Done(st)
      else if fuel == 0 then OutOfFuel
      else
        var r := Exec(ar, doPart, st, fuel - 1);
        if r.Done? then Exec(ar, s, r.store, fuel - 1) else r
  }

  function ExecAll(ar: Arithmetic, ss: seq<Statement>, st: Store, fuel: nat): Result
    decreases fuel, ss
  {
    if ss == [] then Done(st)
    else
      var r := Exec(ar, ss[0], st, fuel);
      if r.Done? then ExecAll(ar, ss[1..], r.store, fuel) else r
  }

  ghost predicate Terminates(ar: Arithmetic, s: Statement, st: Store, st': Store) {
    exists fuel: nat :: Exec(ar, s, st, fuel) == Done(st')
  }

  ghost predicate Traps(ar: Arithmetic, s: Statement, st: Store) {
    exists fuel: nat :: Exec(ar, s, st, fuel) == Trap
  }

  ghost predicate Diverges(ar: Arithmetic, s: Statement, st: Store) {
    forall fuel: nat :: Exec(ar, s, st, fuel) == OutOfFuel
  }
}
