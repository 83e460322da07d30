/** Generated control flow is closed: every label that is jumped to names exactly one place. */
module Labels {
  import opened Ast
  import opened Names
  import opened Tac
  import opened Codegen

  /** A label written by the user or invented while the counter went up to `u`. */
  ghost predicate Known(l: string, u: nat) {
    IsUserName(l) || exists k: nat :: 0 < k <= u && (l == TempLabel(k) || l == BlockLabel(k))
  }

  ghost predicate AllKnown(blocks: seq<Block>, u: nat) {
    forall l, b: nat, i: nat :: TargetAt(blocks, l, b, i) ==> Known(l, u)
  }

  /** Every jump has a target. */
  ghost predicate Closed(blocks: seq<Block>) {
    forall b, i :: 0 <= b < |blocks| && 0 <= i < |blocks[b].code| ==> JumpsInto(blocks, blocks[b].code[i])
  }

  ghost predicate JumpsInto(blocks: seq<Block>, c: Instr) {
    c.Goto? || c.Branch? ==> HasTarget(blocks, c.target)
  }

  /** What holds of the labels at every moment of code generation. */
  ghost predicate LabelsOk(st: State) {
    UniqueTargets(st.blocks) && AllKnown(st.blocks, st.uid) && Closed(st.blocks)
  }

  lemma FreshUnknown(k: nat, u: nat)
    requires u < k
    ensures !Known(TempLabel(k), u) && !Known(BlockLabel(k), u)
    ensures forall u' :: u' >= k ==> Known(TempLabel(k), u') && Known(BlockLabel(k), u')
  {
    InventedApart(k, k);
    forall j: nat | 0 < j <= u
      ensures TempLabel(k) != TempLabel(j) && TempLabel(k) != BlockLabel(j) && BlockLabel(k) != TempLabel(j)
        && BlockLabel(k) != BlockLabel(j)
    {
      TempLabelInjective(k, j);
      BlockLabelInjective(k, j);
      InventedApart(k, j);
      InventedApart(j, k);
    }
  }

  lemma KnownLater(l: string, u: nat, u': nat)
    requires Known(l, u) && u <= u'
    ensures Known(l, u')
  {
  }

  lemma TargetsGrow(p: seq<Block>, q: seq<Block>, l: string)
    requires Grows(p, q) && HasTarget(p, l)
    ensures HasTarget(q, l)
  {
    var b: nat, i: nat :| TargetAt(p, l, b, i);
    assert TargetAt(q, l, b, i);
  }

  /** New code may mark only unknown labels, each once, and jump only to what exists afterwards. */
  lemma EmitLabels(st: State, code: seq<Instr>, u: nat)
    requires Ok(st) && LabelsOk(st) && st.uid <= u
    requires forall i :: 0 <= i < |code| && code[i].Mark? ==> !Known(code[i].target, st.uid) && Known(code[i].target, u)
    requires forall i, j :: 0 <= i < |code| && 0 <= j < |code| && code[i].Mark? && code[i] == code[j] ==> i == j
    requires forall i :: 0 <= i < |code| ==> JumpsInto(Emit(st, code).blocks, code[i])
    ensures LabelsOk(Emit(st, code).(uid := u))
  {
    EmitTargets(st, code, u);
    EmitClosed(st, code);
  }

  lemma EmitTargets(st: State, code: seq<Instr>, u: nat)
    requires Ok(st) && UniqueTargets(st.blocks) && AllKnown(st.blocks, st.uid) && st.uid <= u
    requires forall i :: 0 <= i < |code| && code[i].Mark? ==> !Known(code[i].target, st.uid) && Known(code[i].target, u)
    requires forall i, j :: 0 <= i < |code| && 0 <= j < |code| && code[i].Mark? && code[i] == code[j] ==> i == j
    ensures UniqueTargets(Emit(st, code).blocks) && AllKnown(Emit(st, code).blocks, u)
  {
    var (p, q) := (st.blocks, Emit(st, code).blocks);
    var n := |p[st.insert].code|;
    forall l, b: nat, i: nat | TargetAt(q, l, b, i)
      ensures if b == st.insert && i >= n && q[b].code[i..] != [] && q[b].code[i] == Mark(l) then code[i - n] == Mark(l)
              else TargetAt(p, l, b, i)
    {
    }
    hide Known;
    forall l, b: nat, i: nat | TargetAt(q, l, b, i) ensures Known(l, u) {
      if TargetAt(p, l, b, i) { KnownLater(l, st.uid, u); }
    }
  }

  lemma EmitClosed(st: State, code: seq<Instr>)
    requires Ok(st) && Closed(st.blocks) && forall i :: 0 <= i < |code| ==> JumpsInto(Emit(st, code).blocks, code[i])
    ensures Closed(Emit(st, code).blocks)
  {
    var (p, q) := (st.blocks, Emit(st, code).blocks);
    var n := |p[st.insert].code|;
    forall b, i | 0 <= b < |q| && 0 <= i < |q[b].code| ensures JumpsInto(q, q[b].code[i]) {
      if b == st.insert && i >= n {
        assert q[b].code[i] == code[i - n];
      } else {
        assert q[b].code[i] == p[b].code[i];
        if q[b].code[i].Goto? || q[b].code[i].Branch? { TargetsGrow(p, q, q[b].code[i].target); }
      }
    }
  }

  lemma BlockLabels(st: State, owner: nat)
    requires Ok(st) && LabelsOk(st) && owner < |st.functions|
    ensures LabelsOk(CreateBlock(st, "", owner).0)
  {
    var r := CreateBlock(st, "", owner).0;
    var (p, q) := (st.blocks, r.blocks);
    FreshUnknown(st.uid + 1, st.uid);
    forall l, b: nat, i: nat | TargetAt(q, l, b, i)
      ensures if b == |p| then l == BlockLabel(st.uid + 1) && i == 0 else TargetAt(p, l, b, i)
    {
    }
    hide Known;
    forall l, b: nat, i: nat | TargetAt(q, l, b, i) ensures Known(l, r.uid) {
      if TargetAt(p, l, b, i) { KnownLater(l, st.uid, r.uid); }
    }
    forall b, i | 0 <= b < |q| && 0 <= i < |q[b].code| ensures JumpsInto(q, q[b].code[i]) {
      if q[b].code[i].Goto? || q[b].code[i].Branch? { TargetsGrow(p, q, q[b].code[i].target); }
    }
  }

  /** Code without labels and jumps. */
  predicate Straight(code: seq<Instr>) {
    forall i :: 0 <= i < |code| ==> !code[i].Mark? && !code[i].Goto? && !code[i].Branch?
  }

  lemma StraightLabels(st: State, code: seq<Instr>)
    requires Ok(st) && LabelsOk(st) && Straight(code)
    ensures LabelsOk(Emit(st, code))
  {
    EmitLabels(st, code, st.uid);
  }

  lemma TemporaryLabels(st: State)
    requires Ok(st) && LabelsOk(st)
    ensures LabelsOk(CreateTemporary(st).0)
  {
    hide Known;
    forall l, b: nat, i: nat | TargetAt(st.blocks, l, b, i) ensures Known(l, st.uid + 1) {
      KnownLater(l, st.uid, st.uid + 1);
    }
  }

  lemma BinaryLabels(st: State, op: Operator, a: Operand, b: Operand)
    requires Ok(st) && LabelsOk(st)
    ensures LabelsOk(CreateBinary(st, op, a, b).0)
  {
    hide LabelsOk;
    TemporaryLabels(st);
    var (st1, t) := CreateTemporary(st);
    StraightLabels(st1, [Binary(op, a, b, t.name)]);
  }

  lemma UnaryLabels(st: State, op: UnaryOp, a: Operand)
    requires Ok(st) && LabelsOk(st)
    ensures LabelsOk(CreateUnary(st, op, a).0)
  {
    hide LabelsOk;
    TemporaryLabels(st);
    var (st1, t) := CreateTemporary(st);
    StraightLabels(st1, [Unary(op, a, t.name)]);
  }

  /** The two labels inside a comparison are new, and both its jumps find them. */
  lemma CmpLabels(st: State, rel: Operator, a: Operand, b: Operand)
    requires Ok(st) && LabelsOk(st)
    ensures LabelsOk(CreateCmp(st, rel, a, b).0)
  {
    hide LabelsOk, Known, TempName;
    TemporaryLabels(st);
    var (st1, t) := CreateTemporary(st);
    assert st1.insert < |st1.blocks|;
    hide Ok, Inline, Extends, TempLabel, BlockLabel, CreateTemporary;
    var u := st1.uid;
    var (yes, done) := (TempLabel(u + 1), TempLabel(u + 2));
    var code := CmpCode(rel, a, b, t, yes, done);
    FreshUnknown(u + 1, u);
    FreshUnknown(u + 2, u);
    TempLabelInjective(u + 1, u + 2);
    var (bl, n) := (st1.insert, |st1.blocks[st1.insert].code|);
    var q := Emit(st1, code).blocks;
    assert q[bl].code[n + 3] == Mark(yes) && q[bl].code[n + 5] == Mark(done);
    assert TargetAt(q, yes, bl, n + 3) && TargetAt(q, done, bl, n + 5);
    EmitLabels(st1, code, u + 2);
  }

  lemma CallLabels(st: State, callee: Operand, arguments: seq<Operand>)
    requires Ok(st) && LabelsOk(st)
    ensures LabelsOk(CreateCall(st, callee, arguments).0)
  {
    hide LabelsOk;
    StraightLabels(st, seq(|arguments|, i requires 0 <= i < |arguments| => Param(arguments[i])) + [Call(callee)]);
  }

  lemma BrLabels(st: State, dest: nat)
    requires Ok(st) && LabelsOk(st) && dest < |st.blocks|
    ensures LabelsOk(CreateBr(st, dest))
  {
    var q := CreateBr(st, dest).blocks;
    assert TargetAt(q, st.blocks[dest].name, dest, 0);
    hide LabelsOk;
    EmitLabels(st, [Goto(st.blocks[dest].name)], st.uid);
  }

  lemma BneLabels(st: State, a: Operand, b: Operand, yes: nat)
    requires Ok(st) && LabelsOk(st) && yes < |st.blocks|
    ensures LabelsOk(CreateBne(st, a, b, yes).0)
  {
    hide LabelsOk;
    BlockLabels(st, Owner(st));
    var (st1, no) := CreateBlock(st, "", Owner(st));
    var q := CreateBne(st, a, b, yes).0.blocks;
    assert TargetAt(q, st1.blocks[yes].name, yes, 0) && TargetAt(q, st1.blocks[no].name, no, 0);
    EmitLabels(st1, [Branch(NotEqual, a, b, st1.blocks[yes].name), Goto(st1.blocks[no].name)], st1.uid);
  }

  // ----- syntax trees -----

  lemma {:induction false} ExpressionLabels(e: Expression, st: State)
    requires Ok(st) && LabelsOk(st)
    ensures LabelsOk(GenExpression(e, st).0)
    decreases e
  {
    hide LabelsOk, Ok, Inline, CreateCmp, CreateUnary, CreateBinary;
    match e
    case NullExpression =>
    case RelOp(lhs, op, rhs) =>
      var (st1, a) := GenExpression(lhs, st);
      var (st2, b) := GenExpression(rhs, st1);
      ExpressionLabels(lhs, st);
      ExpressionLabels(rhs, st1);
      CmpLabels(st2, op, a, b);
    case AddOp(negated, term, op, rest) =>
      var (st1, t) := GenTerm(term, st);
      TermLabels(term, st);
      UnaryLabels(st1, Negate, t);
      var (st2, a) := if negated then CreateUnary(st1, Negate, t) else (st1, t);
      if !rest.NullExpression? {
        var (st3, b) := GenExpression(rest, st2);
        ExpressionLabels(rest, st2);
        BinaryLabels(st3, op, a, b);
      }
  }

  lemma {:induction false} TermLabels(t: Term, st: State)
    requires Ok(st) && LabelsOk(st)
    ensures LabelsOk(GenTerm(t, st).0)
    decreases t
  {
    hide LabelsOk, Ok, Inline, CreateBinary;
    match t
    case NullTerm =>
    case Term(factor, op, rest) =>
      var (st1, a) := GenFactor(factor, st);
      FactorLabels(factor, st);
      if !rest.NullTerm? {
        var (st2, b) := GenTerm(rest, st1);
        TermLabels(rest, st1);
        BinaryLabels(st2, op, a, b);
      }
  }

  lemma {:induction false} FactorLabels(f: Factor, st: State)
    requires Ok(st) && LabelsOk(st)
    ensures LabelsOk(GenFactor(f, st).0)
    decreases f
  {
    hide LabelsOk, Ok, Inline, CreateCall, CreateUnary;
    match f
    case NotFactor(factor) =>
      var (st1, a) := GenFactor(factor, st);
      FactorLabels(factor, st);
      UnaryLabels(st1, UnaryOp.Not, a);
    case ParenFactor(expression) => ExpressionLabels(expression, st);
    case IdFactor(id) =>
      if id.Identifier? && id.parameters.Parameters? {
        ExpressionsLabels(id.parameters.list, st);
        var (st1, arguments) := GenExpressions(id.parameters.list, st);
        CallLabels(st1, SymbolTableLookup(st, id), arguments);
      }
    case _ =>
  }

  lemma {:induction false} ExpressionsLabels(es: seq<Expression>, st: State)
    requires Ok(st) && LabelsOk(st)
    ensures LabelsOk(GenExpressions(es, st).0)
    decreases es
  {
    hide LabelsOk, Ok, Inline;
    if es != [] {
      ExpressionLabels(es[0], st);
      ExpressionsLabels(es[1..], GenExpression(es[0], st).0);
    }
  }

  /** A statement leaves every label unique and every jump with a target. */
  lemma {:induction false} StatementLabels(s: Statement, st: State)
    requires Ok(st) && LabelsOk(st)
    ensures LabelsOk(GenStatement(s, st))
    decreases s, 1
  {
    hide LabelsOk, Ok, Inline, Extends, CreateCall, GenExpression, SymbolTableLookup;
    match s
    case NullStatement =>
    case AssignmentOrCall(id, value) =>
      var dest := SymbolTableLookup(st, id);
      if !value.NullExpression? {
        ExpressionLabels(value, st);
        var (st1, v) := GenExpression(value, st);
        StraightLabels(st1, [Assign(v, dest)]);
      } else if id.Identifier? && id.parameters.Parameters? {
        ExpressionsLabels(id.parameters.list, st);
        var (st1, arguments) := GenExpressions(id.parameters.list, st);
        CallLabels(st1, dest, arguments);
      } else {
        CallLabels(st, dest, []);
      }
    case Compound(statements) =>
      if statements.Statements? {
        StatementsLabels(statements.list, st);
      }
    case If(expression, thenPart, elsePart) =>
      IfTestLabels(expression, st);
      var (st1, thenBlock, elseBlock, doneBlock) := IfTest(expression, st);
      var st4 := BranchLabels(thenPart, st1, thenBlock, doneBlock);
      var st7 := BranchLabels(elsePart, st4, elseBlock, doneBlock);
      InsertLabels(st7, doneBlock);
    case While(expression, doPart) =>
      WhileEntryLabels(st);
      var (st1, evaluation, body) := WhileEntry(st);
      var st4 := BranchLabels(doPart, st1, body, evaluation);
      InsertLabels(st4, evaluation);
      WhileTestLabels(expression, SetInsert(st4, evaluation), body);
  }

  lemma InsertLabels(st: State, b: nat)
    requires Ok(st) && LabelsOk(st) && b < |st.blocks|
    ensures LabelsOk(SetInsert(st, b))
  {
  }

  lemma {:induction false} BranchLabels(s: Statement, st: State, b: nat, dest: nat) returns (r: State)
    requires Ok(st) && LabelsOk(st) && b < |st.blocks| && dest < |st.blocks|
    ensures r == CreateBr(GenStatement(s, SetInsert(st, b)), dest) && LabelsOk(r)
    decreases s, 2
  {
    hide LabelsOk, Ok, Extends, GenStatement;
    InsertLabels(st, b);
    StatementLabels(s, SetInsert(st, b));
    r := CreateBr(GenStatement(s, SetInsert(st, b)), dest);
    BrLabels(GenStatement(s, SetInsert(st, b)), dest);
  }

  lemma IfTestLabels(e: Expression, st: State)
    requires Ok(st) && LabelsOk(st)
    ensures LabelsOk(IfTest(e, st).0)
  {
    hide LabelsOk, GenExpression;
    var (st1, thenBlock) := CreateBlock(st, "", Owner(st));
    var (st2, v) := GenExpression(e, st1);
    var (st3, elseBlock) := CreateBne(st2, v, Const(0), thenBlock);
    BlockLabels(st, Owner(st));
    ExpressionLabels(e, st1);
    BneLabels(st2, v, Const(0), thenBlock);
    BlockLabels(st3, Owner(st3));
  }

  lemma WhileEntryLabels(st: State)
    requires Ok(st) && LabelsOk(st)
    ensures LabelsOk(WhileEntry(st).0)
  {
    hide LabelsOk, Ok, Inline, Extends;
    var (st1, evaluation) := CreateBlock(st, "", Owner(st));
    var st2 := CreateBr(st1, evaluation);
    BlockLabels(st, Owner(st));
    BrLabels(st1, evaluation);
    BlockLabels(st2, Owner(st2));
  }

  lemma WhileTestLabels(e: Expression, st: State, body: nat)
    requires Ok(st) && LabelsOk(st) && body < |st.blocks|
    ensures LabelsOk(WhileTest(e, st, body))
  {
    hide LabelsOk, GenExpression;
    var (st1, v) := GenExpression(e, st);
    var (st2, tail) := CreateBne(st1, v, Const(0), body);
    ExpressionLabels(e, st);
    BneLabels(st1, v, Const(0), body);
    InsertLabels(st2, tail);
  }

  lemma {:induction false} StatementsLabels(ss: seq<Statement>, st: State)
    requires Ok(st) && LabelsOk(st)
    ensures LabelsOk(GenStatements(ss, st))
    decreases ss
  {
    if ss != [] {
      StatementLabels(ss[0], st);
      StatementsLabels(ss[1..], GenStatement(ss[0], st));
    }
  }
}
