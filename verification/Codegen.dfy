/** Code generation as a function of the syntax tree and the state of the builder. */
module Codegen {
  import opened Ast
  import opened Names
  import opened Tac

  /** A named value of a function: a variable, a temporary or a function. */
  datatype Symbol = Symbol(name: string, isFunction: bool)

  /** A function of the program. `parent` is the index of the enclosing function, its own for the program. */
  datatype Function = Function(name: string, parent: nat, symbols: seq<Symbol>)

  /** The builder: the label counter, all functions, all blocks in creation order, and the insert block. */
  datatype State = State(uid: nat, functions: seq<Function>, blocks: seq<Block>, insert: nat)

  ghost predicate Ok(st: State) {
    && st.insert < |st.blocks|
    && (forall b :: 0 <= b < |st.blocks| ==> st.blocks[b].owner < |st.functions|)
    && (forall f :: 0 <= f < |st.functions| ==> st.functions[f].parent <= f)
  }

  /** Every block of `p` is in `q`, under the same index and name, with at least the same code. */
  ghost predicate Grows(p: seq<Block>, q: seq<Block>) {
    && |p| <= |q|
    && forall b :: 0 <= b < |p| ==>
      q[b].name == p[b].name && q[b].owner == p[b].owner && p[b].code <= q[b].code
  }

  /** Generation only adds: to the counter, the symbols, the blocks and their code. */
  ghost predicate Extends(st: State, st': State) {
    && st.uid <= st'.uid && Grows(st.blocks, st'.blocks) && |st.functions| <= |st'.functions|
    && forall f :: 0 <= f < |st.functions| ==>
      && st'.functions[f].name == st.functions[f].name && st'.functions[f].parent == st.functions[f].parent
      && st.functions[f].symbols <= st'.functions[f].symbols
  }

  /** Only the code of the insert block and the symbols changed. */
  ghost predicate Inline(st: State, st': State) {
    && Extends(st, st') && st'.insert == st.insert && |st'.blocks| == |st.blocks| && |st'.functions| == |st.functions|
    && forall b :: 0 <= b < |st.blocks| && b != st.insert ==> st'.blocks[b] == st.blocks[b]
  }

  lemma InlineThen(a: State, b: State, c: State)
    requires Inline(a, b) && Inline(b, c)
    ensures Inline(a, c)
  {
  }

  lemma ExtendsThen(a: State, b: State, c: State)
    requires Extends(a, b) && Extends(b, c)
    ensures Extends(a, c)
  {
  }

  // ----- what the builder does -----

  function Owner(st: State): (f: nat)
    requires Ok(st)
    ensures f < |st.functions|
  {
    st.blocks[st.insert].owner
  }

  /** Appends to the insert block. */
  function Emit(st: State, code: seq<Instr>): (r: State)
    requires Ok(st)
    ensures Ok(r) && Inline(st, r)
  {
    var b := st.blocks[st.insert];
    st.(blocks := st.blocks[st.insert := b.(code := b.code + code)])
  }

  function AddSymbol(st: State, f: nat, s: Symbol): (r: State)
    requires Ok(st) && f < |st.functions|
    ensures Ok(r) && Inline(st, r)
  {
    var fn := st.functions[f];
    st.(functions := st.functions[f := fn.(symbols := fn.symbols + [s])])
  }

  /** A fresh temporary of the function that owns the insert block. */
  function CreateTemporary(st: State): (r: (State, Operand))
    requires Ok(st)
    ensures Ok(r.0) && Inline(st, r.0)
  {
    var name := TempName(st.uid + 1);
    (AddSymbol(st, Owner(st), Symbol(name, false)).(uid := st.uid + 1), Var(name))
  }

  /** A new empty block; a name is invented when none is given. */
  function CreateBlock(st: State, name: string, owner: nat): (r: (State, nat))
    requires Ok(st) && owner < |st.functions|
    ensures Ok(r.0) && Extends(st, r.0) && |st.blocks| <= |r.0.blocks| && r.1 < |r.0.blocks|
  {
    if name == "" then
      (st.(uid := st.uid + 1, blocks := st.blocks + [Block(BlockLabel(st.uid + 1), owner, [])]), |st.blocks|)
    else
      (st.(blocks := st.blocks + [Block(name, owner, [])]), |st.blocks|)
  }

  function SetInsert(st: State, b: nat): (r: State)
    requires Ok(st) && b < |st.blocks|
    ensures Ok(r) && Extends(st, r) && |st.blocks| <= |r.blocks|
  {
    st.(insert := b)
  }

  function CreateBinary(st: State, op: Operator, a: Operand, b: Operand): (r: (State, Operand))
    requires Ok(st)
    ensures Ok(r.0) && Inline(st, r.0)
  {
    var (st1, t) := CreateTemporary(st);
    (Emit(st1, [Binary(op, a, b, t.name)]), t)
  }

  function CreateUnary(st: State, op: UnaryOp, a: Operand): (r: (State, Operand))
    requires Ok(st)
    ensures Ok(r.0) && Inline(st, r.0)
  {
    var (st1, t) := CreateTemporary(st);
    (Emit(st1, [Unary(op, a, t.name)]), t)
  }

  /** A comparison as a value: 1 or 0, by jumps to labels inside the block. */
  function CreateCmp(st: State, rel: Operator, a: Operand, b: Operand): (r: (State, Operand))
    requires Ok(st)
    ensures Ok(r.0) && Inline(st, r.0)
  {
    var (st1, t) := CreateTemporary(st);
    var (yes, done) := (TempLabel(st1.uid + 1), TempLabel(st1.uid + 2));
    (Emit(st1.(uid := st1.uid + 2), CmpCode(rel, a, b, t, yes, done)), t)
  }

  function CmpCode(rel: Operator, a: Operand, b: Operand, t: Operand, yes: string, done: string): seq<Instr> {
    [Branch(rel, a, b, yes), Assign(Const(0), t), Goto(done), Mark(yes), Assign(Const(1), t), Mark(done)]
  }

  function CreateBr(st: State, dest: nat): (r: State)
    requires Ok(st) && dest < |st.blocks|
    ensures Ok(r) && Inline(st, r) && |st.blocks| <= |r.blocks|
  {
    Emit(st, [Goto(st.blocks[dest].name)])
  }

  /** Jumps to block `yes` when the operands differ, else to a new block. */
  function CreateBne(st: State, a: Operand, b: Operand, yes: nat): (r: (State, nat))
    requires Ok(st) && yes < |st.blocks|
    ensures Ok(r.0) && Extends(st, r.0) && |st.blocks| <= |r.0.blocks| && r.1 < |r.0.blocks|
  {
    var (st1, no) := CreateBlock(st, "", Owner(st));
    (Emit(st1, [Branch(NotEqual, a, b, st1.blocks[yes].name), Goto(st1.blocks[no].name)]), no)
  }

  /** The first symbol of that name in the function or the nearest enclosing one that has it. */
  function Lookup(functions: seq<Function>, f: nat, name: string): (r: Option<Symbol>)
    requires f < |functions| && forall g :: 0 <= g < |functions| ==> functions[g].parent <= g
    ensures r.Some? ==> r.value.name == name
  {
    var r := LookupIn(functions[f].symbols, name);
    if r.Some? then r
    else if functions[f].parent < f then Lookup(functions, functions[f].parent, name)
    else None
  }

  function LookupIn(symbols: seq<Symbol>, name: string): (r: Option<Symbol>)
    ensures r.Some? ==> r.value.name == name && r.value in symbols
  {
    if symbols == [] then None
    else if symbols[0].name == name then Some(symbols[0])
    else LookupIn(symbols[1..], name)
  }

  function SymbolTableLookup(st: State, id: Identifier): Operand
    requires Ok(st)
  {
    if id.NullIdentifier? then NullOperand
    else
      match Lookup(st.functions, Owner(st), Lower(id.name))
      case Some(s) => Var(s.name)
      case None => NullOperand
  }

  /** Pushes the arguments and calls. The value of a call is the function's own symbol. */
  function CreateCall(st: State, callee: Operand, arguments: seq<Operand>): (r: (State, Operand))
    requires Ok(st)
    ensures Ok(r.0) && Inline(st, r.0)
  {
    var st1 := Emit(st, seq(|arguments|, i requires 0 <= i < |arguments| => Param(arguments[i])) + [Call(callee)]);
    if callee.Var? then
      match Lookup(st.functions, Owner(st), callee.name)
      case Some(s) => (st1, if s.isFunction then callee else NullOperand)
      case None => (st1, NullOperand)
    else (st1, NullOperand)
  }

  // ----- code for syntax trees -----

  /** Value of a digit string. */
  function ValueAsInt(text: string): nat {
    if text == "" || !('0' <= text[|text| - 1] <= '9') then 0
    else 10 * ValueAsInt(text[..|text| - 1]) + (text[|text| - 1] - '0') as nat
  }

  predicate Digits(s: string) {
    forall i :: 0 <= i < |s| ==> '0' <= s[i] <= '9'
  }

  function Pow10(n: nat): nat {
    if n == 0 then 1 else 10 * Pow10(n - 1)
  }

  /** A literal is read as a decimal number: it has the value of the number it is the text of. */
  lemma {:induction false} ValueOfDecimal(n: nat)
    ensures ValueAsInt(Decimal(n)) == n
  {
    if n < 10 {
      assert ValueAsInt([Digit(n)][..0]) == 0;
    } else {
      var s := Decimal(n);
      assert s[..|s| - 1] == Decimal(n / 10) && s[|s| - 1] == Digit(n % 10);
      ValueOfDecimal(n / 10);
    }
  }

  lemma ValueLast(s: string)
    requires s != "" && Digits(s)
    ensures ValueAsInt(s) == 10 * ValueAsInt(s[..|s| - 1]) + (s[|s| - 1] - '0') as nat
  {
  }

  /** Digits in front count by their place, so that leading zeros count for nothing. */
  lemma {:induction false} ValueOfConcat(s: string, t: string)
    requires Digits(s) && Digits(t)
    ensures ValueAsInt(s + t) == ValueAsInt(s) * Pow10(|t|) + ValueAsInt(t)
    decreases |t|
  {
    if t == "" {
      assert s + t == s;
    } else {
      hide ValueAsInt, Pow10;
      var t' := t[..|t| - 1];
      assert (s + t)[..|s + t| - 1] == s + t';
      ValueLast(s + t);
      ValueLast(t);
      ValueOfConcat(s, t');
      TenTimes(ValueAsInt(s), |t'|);
    }
  }

  lemma TenTimes(a: nat, n: nat)
    ensures a * Pow10(n + 1) == 10 * (a * Pow10(n))
  {
  }

  function GenExpression(e: Expression, st: State): (r: (State, Operand))
    requires Ok(st)
    ensures Ok(r.0) && Inline(st, r.0)
    decreases e
  {
    match e
    case NullExpression => (st, NullOperand)
    case RelOp(lhs, op, rhs) =>
      var (st1, a) := GenExpression(lhs, st);
      var (st2, b) := GenExpression(rhs, st1);
      var r := if IsRelOp(op) then CreateCmp(st2, op, a, b) else (st2, NullOperand);
      InlineThen(st, st1, st2);
      InlineThen(st, st2, r.0);
      r
    case AddOp(negated, term, op, rest) =>
      var (st1, t) := GenTerm(term, st);
      var (st2, a) := if negated then CreateUnary(st1, Negate, t) else (st1, t);
      InlineThen(st, st1, st2);
      if rest.NullExpression? then (st2, a)
      else
        var (st3, b) := GenExpression(rest, st2);
        var r := if IsAddOp(op) then CreateBinary(st3, op, a, b) else (st3, NullOperand);
        InlineThen(st, st2, st3);
        InlineThen(st, st3, r.0);
        r
  }

  function GenTerm(t: Term, st: State): (r: (State, Operand))
    requires Ok(st)
    ensures Ok(r.0) && Inline(st, r.0)
    decreases t
  {
    match t
    case NullTerm => (st, NullOperand)
    case Term(factor, op, rest) =>
      var (st1, a) := GenFactor(factor, st);
      if rest.NullTerm? then (st1, a)
      else
        var (st2, b) := GenTerm(rest, st1);
        if IsMulOp(op) then CreateBinary(st2, op, a, b) else (st2, NullOperand)
  }

  function GenFactor(f: Factor, st: State): (r: (State, Operand))
    requires Ok(st)
    ensures Ok(r.0) && Inline(st, r.0)
    decreases f
  {
    match f
    case NullFactor => (st, NullOperand)
    case NumberFactor(number) =>
      (st, if number.NullNumber? then NullOperand
           else if number.kind == Integer then Const(ValueAsInt(number.text)) else RealConst(number.text))
    case NotFactor(factor) =>
      var (st1, a) := GenFactor(factor, st);
      CreateUnary(st1, UnaryOp.Not, a)
    case ParenFactor(expression) => GenExpression(expression, st)
    case IdFactor(id) =>
      var v := SymbolTableLookup(st, id);
      if id.Identifier? && id.parameters.Parameters? then
        var (st1, arguments) := GenExpressions(id.parameters.list, st);
        CreateCall(st1, v, arguments)
      else (st, v)
  }

  function GenExpressions(es: seq<Expression>, st: State): (r: (State, seq<Operand>))
    requires Ok(st)
    ensures Ok(r.0) && Inline(st, r.0)
    decreases es
  {
    if es == [] then (st, [])
    else
      var (st1, v) := GenExpression(es[0], st);
      var (st2, vs) := GenExpressions(es[1..], st1);
      (st2, [v] + vs)
  }

  function GenStatement(s: Statement, st: State): (r: State)
    requires Ok(st)
    ensures Ok(r) && Extends(st, r) && |st.blocks| <= |r.blocks|
    decreases s, 1
  {
    match s
    case NullStatement => st
    case AssignmentOrCall(id, value) =>
      var dest := SymbolTableLookup(st, id);
      if !value.NullExpression? then
        var (st1, v) := GenExpression(value, st);
        Emit(st1, [Assign(v, dest)])
      else
        var (st1, arguments) := if id.Identifier? && id.parameters.Parameters?
          then GenExpressions(id.parameters.list, st) else (st, []);
        CreateCall(st1, dest, arguments).0
    case Compound(statements) =>
      if statements.Statements? then GenStatements(statements.list, st) else st
    case If(_, _, _) => GenIf(s, st)
    case While(_, _) => GenWhile(s, st)
  }

  /** Tests the condition and branches to a new then-block or a new else-block; also creates the done-block. */
  function IfTest(e: Expression, st: State): (r: (State, nat, nat, nat))
    requires Ok(st)
    ensures Ok(r.0) && Extends(st, r.0) && |st.blocks| <= |r.0.blocks| && r.1 < |r.0.blocks| && r.2 < |r.0.blocks|
      && r.3 < |r.0.blocks|
  {
    hide Ok, Extends;
    var (st1, thenBlock) := CreateBlock(st, "", Owner(st));
    var (st2, v) := GenExpression(e, st1);
    var (st3, elseBlock) := CreateBne(st2, v, Const(0), thenBlock);
    var (st4, doneBlock) := CreateBlock(st3, "", Owner(st3));
    ExtendsThen(st, st1, st2);
    ExtendsThen(st, st2, st3);
    ExtendsThen(st, st3, st4);
    (st4, thenBlock, elseBlock, doneBlock)
  }

  /** Both branches continue in the done-block. */
  function GenIf(s: Statement, st: State): (r: State)
    requires Ok(st) && s.If?
    ensures Ok(r) && Extends(st, r) && |st.blocks| <= |r.blocks|
    decreases s, 0
  {
    hide Ok, Extends;
    var (st1, thenBlock, elseBlock, doneBlock) := IfTest(s.expression, st);
    var st2 := SetInsert(st1, thenBlock);
    var st3 := GenStatement(s.thenPart, st2);
    var st4 := CreateBr(st3, doneBlock);
    var st5 := SetInsert(st4, elseBlock);
    var st6 := GenStatement(s.elsePart, st5);
    var st7 := CreateBr(st6, doneBlock);
    var r := SetInsert(st7, doneBlock);
    ExtendsThen(st, st1, st2);
    ExtendsThen(st, st2, st3);
    ExtendsThen(st, st3, st4);
    ExtendsThen(st, st4, st5);
    ExtendsThen(st, st5, st6);
    ExtendsThen(st, st6, st7);
    ExtendsThen(st, st7, r);
    r
  }

  /** Continues in a new evaluation block, and creates the block of the body. */
  function WhileEntry(st: State): (r: (State, nat, nat))
    requires Ok(st)
    ensures Ok(r.0) && Extends(st, r.0) && |st.blocks| <= |r.0.blocks| && r.1 < |r.0.blocks| && r.2 < |r.0.blocks|
  {
    hide Ok, Extends;
    var (st1, evaluation) := CreateBlock(st, "", Owner(st));
    var st2 := CreateBr(st1, evaluation);
    var (st3, body) := CreateBlock(st2, "", Owner(st2));
    ExtendsThen(st, st1, st2);
    ExtendsThen(st, st2, st3);
    (st3, evaluation, body)
  }

  /** The evaluation block tests and branches to the body or to a new tail. */
  function WhileTest(e: Expression, st: State, body: nat): (r: State)
    requires Ok(st) && body < |st.blocks|
    ensures Ok(r) && Extends(st, r) && |st.blocks| <= |r.blocks|
  {
    hide Ok, Extends;
    var (st1, v) := GenExpression(e, st);
    var (st2, tail) := CreateBne(st1, v, Const(0), body);
    var r := SetInsert(st2, tail);
    ExtendsThen(st, st1, st2);
    ExtendsThen(st, st2, r);
    r
  }

  /** The body is generated before the test, and jumps back to it. */
  function GenWhile(s: Statement, st: State): (r: State)
    requires Ok(st) && s.While?
    ensures Ok(r) && Extends(st, r) && |st.blocks| <= |r.blocks|
    decreases s, 0
  {
    hide Ok, Extends;
    var (st1, evaluation, body) := WhileEntry(st);
    var st2 := SetInsert(st1, body);
    var st3 := GenStatement(s.doPart, st2);
    var st4 := CreateBr(st3, evaluation);
    var st5 := SetInsert(st4, evaluation);
    var r := WhileTest(s.expression, st5, body);
    ExtendsThen(st, st1, st2);
    ExtendsThen(st, st2, st3);
    ExtendsThen(st, st3, st4);
    ExtendsThen(st, st4, st5);
    ExtendsThen(st, st5, r);
    r
  }

  function GenStatements(ss: seq<Statement>, st: State): (r: State)
    requires Ok(st)
    ensures Ok(r) && Extends(st, r) && |st.blocks| <= |r.blocks|
    decreases ss
  {
    if ss == [] then st else GenStatements(ss[1..], GenStatement(ss[0], st))
  }

  /** The literal `n` is compiled to the constant `n`. */
  lemma LiteralCode(n: nat, st: State)
    requires Ok(st)
    ensures GenFactor(NumberFactor(Number(Decimal(n), Integer)), st) == (st, Const(n))
  {
    ValueOfDecimal(n);
  }
}
