/** Which blocks a statement touches, and which it leaves with a terminator. */
module BlockFrame {
  import opened Ast
  import opened Tac
  import opened Codegen

  /** The last instruction of the block transfers control away. */
  predicate Ended(b: Block) {
    |b.code| > 0 && (b.code[|b.code| - 1].Goto? || b.code[|b.code| - 1].Return?)
  }

  /** From `p` to `q` only the blocks `w` and new ones, all of function `f`, changed; of these all
      but `open` have a terminator. */
  ghost predicate Touched(f: nat, p: seq<Block>, w: set<nat>, q: seq<Block>, open: set<nat>) {
    && |p| <= |q|
    && (forall b: nat :: b < |p| && b !in w ==> q[b] == p[b])
    && (forall b: nat :: b < |p| && b in w ==> q[b].owner == p[b].owner == f)
    && (forall b: nat :: |p| <= b < |q| ==> q[b].owner == f)
    && (forall b: nat :: b < |q| && (b in w || |p| <= b) && b !in open ==> Ended(q[b]))
  }

  lemma TouchedThen(f: nat, p: seq<Block>, w: set<nat>, q: seq<Block>, open: set<nat>, w': set<nat>, r: seq<Block>,
        open': set<nat>, left: set<nat>)
    requires Touched(f, p, w, q, open) && Touched(f, q, w', r, open')
    requires forall b :: b in w' ==> b in w || |p| <= b
    requires forall b :: b in open ==> b in w' || b in left
    requires open' <= left
    ensures Touched(f, p, w, r, left)
  {
  }

  /** From `st` to `r` only the insert block and new blocks of the same function changed, and of
      these only the new insert block is left without a terminator. */
  ghost predicate Frame(st: State, r: State) {
    && st.insert < |st.blocks| && r.insert < |r.blocks|
    && (r.insert == st.insert || |st.blocks| <= r.insert)
    && Touched(st.blocks[st.insert].owner, st.blocks, {st.insert}, r.blocks, {r.insert})
  }

  lemma FrameThen(a: State, b: State, c: State)
    requires Frame(a, b) && Frame(b, c)
    ensures Frame(a, c)
  {
    var f := a.blocks[a.insert].owner;
    TouchedThen(f, a.blocks, {a.insert}, b.blocks, {b.insert}, {b.insert}, c.blocks, {c.insert}, {c.insert});
  }

  lemma InlineFrame(st: State, r: State)
    requires Ok(st) && Inline(st, r)
    ensures Frame(st, r)
  {
  }

  lemma FrameOwner(st: State, r: State)
    requires Ok(st) && Ok(r) && Frame(st, r)
    ensures Owner(r) == Owner(st)
  {
  }

  /** The three blocks an `if` creates are empty and open, and the old insert block now ends in a jump. */
  lemma IfTestFrame(e: Expression, st: State)
    requires Ok(st)
    ensures var (r, thenBlock, elseBlock, doneBlock) := IfTest(e, st);
      && thenBlock == |st.blocks| && elseBlock == |st.blocks| + 1 && doneBlock == |st.blocks| + 2
      && |r.blocks| == |st.blocks| + 3
      && (forall b: nat :: |st.blocks| <= b < |r.blocks| ==> r.blocks[b].code == [])
      && Touched(Owner(st), st.blocks, {st.insert}, r.blocks, {thenBlock, elseBlock, doneBlock})
  {
    IfTestBlocks(e, st);
    hide IfTest, Owner, Ok;
  }

  lemma IfTestBlocks(e: Expression, st: State)
    requires Ok(st)
    ensures var (r, thenBlock, elseBlock, doneBlock) := IfTest(e, st);
      && thenBlock == |st.blocks| && elseBlock == |st.blocks| + 1 && doneBlock == |st.blocks| + 2
      && |r.blocks| == |st.blocks| + 3
      && (forall b: nat :: b < |st.blocks| && b != st.insert ==> r.blocks[b] == st.blocks[b])
      && (forall b: nat :: |st.blocks| <= b < |r.blocks| ==> r.blocks[b].code == [] && r.blocks[b].owner == Owner(st))
      && Ended(r.blocks[st.insert]) && r.blocks[st.insert].owner == Owner(st)
  {
    hide GenExpression;
    var (st1, thenBlock) := CreateBlock(st, "", Owner(st));
    var (st2, v) := GenExpression(e, st1);
    assert Inline(st1, st2);
  }

  lemma WhileEntryFrame(st: State)
    requires Ok(st)
    ensures var (r, evaluation, body) := WhileEntry(st);
      && evaluation == |st.blocks| && body == |st.blocks| + 1
      && |r.blocks| == |st.blocks| + 2
      && (forall b: nat :: |st.blocks| <= b < |r.blocks| ==> r.blocks[b].code == [])
      && Touched(Owner(st), st.blocks, {st.insert}, r.blocks, {evaluation, body})
  {
  }

  lemma WhileTestFrame(e: Expression, st: State, body: nat)
    requires Ok(st) && body < |st.blocks|
    ensures var r := WhileTest(e, st, body);
      && r.insert == |st.blocks| && |r.blocks| == |st.blocks| + 1 && r.blocks[r.insert].code == []
      && Touched(Owner(st), st.blocks, {st.insert}, r.blocks, {r.insert})
  {
    hide GenExpression;
    var (st1, v) := GenExpression(e, st);
    assert Inline(st, st1);
  }

  /** A jump closes the insert block. */
  lemma BrFrame(st: State, dest: nat)
    requires Ok(st) && dest < |st.blocks|
    ensures var r := CreateBr(st, dest);
      r.insert == st.insert && |r.blocks| == |st.blocks| && Touched(Owner(st), st.blocks, {st.insert}, r.blocks, {})
  {
  }

  /** A statement generated in the open block `b` and closed by a jump. */
  lemma BranchFrame(s: Statement, st: State, b: nat, dest: nat)
    requires Ok(st) && b < |st.blocks| && dest < |st.blocks|
    requires Frame(SetInsert(st, b), GenStatement(s, SetInsert(st, b)))
    ensures var r := CreateBr(GenStatement(s, SetInsert(st, b)), dest);
      Touched(st.blocks[b].owner, st.blocks, {b}, r.blocks, {})
  {
    var st1 := SetInsert(st, b);
    var st2 := GenStatement(s, st1);
    hide Ok, Extends, Touched, GenStatement, CreateBr;
    FrameOwner(st1, st2);
    BrFrame(st2, dest);
    TouchedThen(st.blocks[b].owner, st1.blocks, {b}, st2.blocks, {st2.insert}, {st2.insert},
      CreateBr(st2, dest).blocks, {}, {});
  }

  /** A completed statement leaves exactly one of the blocks it touched open: the insert block. */
  lemma {:induction false} StatementFrame(s: Statement, st: State)
    requires Ok(st)
    ensures Frame(st, GenStatement(s, st))
    decreases s, 1
  {
    match s
    case NullStatement =>
    case AssignmentOrCall(_, _) =>
      AssignmentInline(s, st);
      InlineFrame(st, GenStatement(s, st));
    case Compound(statements) =>
      if statements.Statements? {
        StatementsFrame(statements.list, st);
      }
    case If(_, _, _) => IfFrame(s, st);
    case While(_, _) => WhileFrame(s, st);
  }

  lemma AssignmentInline(s: Statement, st: State)
    requires Ok(st) && s.AssignmentOrCall?
    ensures Inline(st, GenStatement(s, st))
  {
  }

  lemma {:induction false} IfFrame(s: Statement, st: State)
    requires Ok(st) && s.If?
    ensures Frame(st, GenIf(s, st))
    decreases s, 0
  {
    assert st.insert < |st.blocks|;
    var f := Owner(st);
    IfTestFrame(s.expression, st);
    var (st1, t, e, d) := IfTest(s.expression, st);
    assert st1.blocks[t].owner == f && st1.blocks[e].owner == f;
    hide Ok, Extends, IfTest, GenStatement, CreateBr, Touched;
    var st4 := CreateBr(GenStatement(s.thenPart, SetInsert(st1, t)), d);
    StatementFrame(s.thenPart, SetInsert(st1, t));
    BranchFrame(s.thenPart, st1, t, d);
    TouchedThen(f, st.blocks, {st.insert}, st1.blocks, {t, e, d}, {t}, st4.blocks, {}, {e, d});
    assert st4.blocks[e] == st1.blocks[e] by { TouchedKeeps(f, st1.blocks, {t}, st4.blocks, {}, e); }
    var st7 := CreateBr(GenStatement(s.elsePart, SetInsert(st4, e)), d);
    StatementFrame(s.elsePart, SetInsert(st4, e));
    BranchFrame(s.elsePart, st4, e, d);
    TouchedThen(f, st.blocks, {st.insert}, st4.blocks, {e, d}, {e}, st7.blocks, {}, {d});
  }

  lemma TouchedKeeps(f: nat, p: seq<Block>, w: set<nat>, q: seq<Block>, open: set<nat>, b: nat)
    requires Touched(f, p, w, q, open) && b < |p| && b !in w
    ensures |p| <= |q| && q[b] == p[b]
  {
  }

  lemma {:induction false} WhileFrame(s: Statement, st: State)
    requires Ok(st) && s.While?
    ensures Frame(st, GenWhile(s, st))
    decreases s, 0
  {
    assert st.insert < |st.blocks|;
    var f := Owner(st);
    WhileEntryFrame(st);
    var (st1, evaluation, body) := WhileEntry(st);
    assert st1.blocks[evaluation].owner == f && st1.blocks[body].owner == f;
    hide Ok, Extends, WhileEntry, WhileTest, GenStatement, CreateBr, Touched;
    var st4 := CreateBr(GenStatement(s.doPart, SetInsert(st1, body)), evaluation);
    StatementFrame(s.doPart, SetInsert(st1, body));
    BranchFrame(s.doPart, st1, body, evaluation);
    TouchedThen(f, st.blocks, {st.insert}, st1.blocks, {evaluation, body}, {body}, st4.blocks, {}, {evaluation});
    assert st4.blocks[evaluation] == st1.blocks[evaluation] by {
      TouchedKeeps(f, st1.blocks, {body}, st4.blocks, {}, evaluation);
    }
    var st5 := SetInsert(st4, evaluation);
    var r := WhileTest(s.expression, st5, body);
    WhileTestFrame(s.expression, st5, body);
    TouchedThen(f, st.blocks, {st.insert}, st5.blocks, {evaluation}, {evaluation}, r.blocks, {r.insert}, {r.insert});
  }

  lemma {:induction false} StatementsFrame(ss: seq<Statement>, st: State)
    requires Ok(st)
    ensures Frame(st, GenStatements(ss, st))
    decreases ss
  {
    if ss != [] {
      var st1 := GenStatement(ss[0], st);
      StatementFrame(ss[0], st);
      StatementsFrame(ss[1..], st1);
      FrameThen(st, st1, GenStatements(ss[1..], st1));
    }
  }
}
