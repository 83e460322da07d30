/** Generated code for a statement does what the statement means. */
module StatementProof {
  import opened Ast
  import opened Names
  import opened Tac
  import opened Codegen
  import opened Semantics
  import opened ExpressionProof
  import opened BlockFrame

  /** Execution before the first instruction of block `b`. */
  function StartOf(b: nat, s: Store): Config {
    Config(b, 0, s)
  }

  /** `n` steps do what `r` says: arrive before instruction `i` of block `b` in an agreeing store,
      trap, or still run after `fuel` steps. */
  ghost predicate Follows(ar: Arithmetic, p: seq<Block>, c: Config, b: nat, i: nat, r: Result, fuel: nat, n: nat,
        m': Store) {
    match r
    case Done(s) => Run(ar, p, c, n) == At(Config(b, i, m')) && Agrees(s, m')
    case Trap => Run(ar, p, c, n) == Trapped
    case OutOfFuel => fuel <= n && Run(ar, p, c, n).At?
  }

  /** Steps taken first count toward the fuel. */
  lemma FollowsAfter(ar: Arithmetic, p: seq<Block>, c: Config, n: nat, d: Config, b: nat, i: nat, r: Result,
        fuel: nat, n1: nat, m': Store, fuel': nat)
    requires Run(ar, p, c, n) == At(d) && Follows(ar, p, d, b, i, r, fuel, n1, m') && fuel' <= fuel + n
    ensures Follows(ar, p, c, b, i, r, fuel', n + n1, m')
  {
    RunThen(ar, p, c, n, d, n1);
  }

  // ----- jumps -----

  lemma GotoRuns(ar: Arithmetic, p: seq<Block>, st: State, dest: nat, m: Store)
    requires Ok(st) && dest < |st.blocks| && Contains(p, CreateBr(st, dest))
    ensures Run(ar, p, Here(st, m), 1) == At(StartOf(dest, m))
  {
    var st' := CreateBr(st, dest);
    InstrAt(p, st', |CodeOf(st)|);
    assert TargetAt(p, st.blocks[dest].name, dest, 0);
    JumpTo(p, st.blocks[dest].name, dest, 0, m);
    assert Run(ar, p, StartOf(dest, m), 0) == At(StartOf(dest, m));
  }

  /** To `yes` when the operand is not zero, else to the new block. */
  lemma BneRuns(ar: Arithmetic, p: seq<Block>, st: State, v: Operand, yes: nat, m: Store) returns (n: nat)
    requires Ok(st) && yes < |st.blocks| && Contains(p, CreateBne(st, v, Const(0), yes).0)
    ensures var no := CreateBne(st, v, Const(0), yes).1;
      n >= 1 && Run(ar, p, Here(st, m), n) == At(StartOf(if Value(v, m) != 0 then yes else no, m))
  {
    var (st', no) := CreateBne(st, v, Const(0), yes);
    var code := [Branch(NotEqual, v, Const(0), st'.blocks[yes].name), Goto(st'.blocks[no].name)];
    assert CodeOf(st') == CodeOf(st) + code;
    InstrAt(p, st', |CodeOf(st)|);
    InstrAt(p, st', |CodeOf(st)| + 1);
    hide Contains;
    var c := Here(st, m);
    if Value(v, m) != 0 {
      n := 1;
      assert TargetAt(p, st'.blocks[yes].name, yes, 0);
      JumpTo(p, st'.blocks[yes].name, yes, 0, m);
      assert Run(ar, p, StartOf(yes, m), 0) == At(StartOf(yes, m));
    } else {
      n := 2;
      var d := c.(i := c.i + 1);
      assert Step(ar, p, c) == At(d);
      assert TargetAt(p, st'.blocks[no].name, no, 0);
      JumpTo(p, st'.blocks[no].name, no, 0, m);
      assert Run(ar, p, d, 1) == Run(ar, p, StartOf(no, m), 0);
    }
  }

  /** A condition and the jump on it; at least one step. */
  ghost predicate Tests(ar: Arithmetic, p: seq<Block>, c: Config, x: Option<int>, s: Store, yes: nat, no: nat, n: nat,
        m': Store) {
    if x.None? then Run(ar, p, c, n) == Trapped
    else n >= 1 && Agrees(s, m') && Run(ar, p, c, n) == At(StartOf(if x.value != 0 then yes else no, m'))
  }

  lemma TestRuns(ar: Arithmetic, p: seq<Block>, e: Expression, st: State, vars: set<string>, s: Store, m: Store,
        yes: nat)
    returns (n: nat, m': Store)
    requires Ready(st, vars, s, m) && PlainExpression(e, vars) && yes < |st.blocks|
    requires var (st1, v) := GenExpression(e, st); Contains(p, CreateBne(st1, v, Const(0), yes).0)
    ensures var (st1, v) := GenExpression(e, st);
      Tests(ar, p, Here(st, m), Eval(ar, e, s), s, yes, CreateBne(st1, v, Const(0), yes).1, n, m')
  {
    var (st1, v) := GenExpression(e, st);
    ContainsEarlier(p, st1, CreateBne(st1, v, Const(0), yes).0);
    n, m' := ExpressionComputes(ar, p, e, st, vars, s, m);
    if Eval(ar, e, s).Some? {
      n := TestEnds(ar, p, st, st1, v, s, m, Eval(ar, e, s), n, m', yes);
    }
  }

  lemma TestEnds(ar: Arithmetic, p: seq<Block>, st: State, st1: State, v: Operand, s: Store, m: Store, x: Option<int>,
        n: nat, m': Store, yes: nat)
    returns (n': nat)
    requires Ok(st) && Ok(st1) && Computes(ar, p, st, st1, v, s, m, x, n, m') && x.Some?
    requires yes < |st1.blocks| && Contains(p, CreateBne(st1, v, Const(0), yes).0)
    ensures Tests(ar, p, Here(st, m), x, s, yes, CreateBne(st1, v, Const(0), yes).1, n', m')
  {
    hide Contains, CreateBne, Run, Agrees, Stable, TempsKept;
    var n1 := BneRuns(ar, p, st1, v, yes, m');
    RunThen(ar, p, Here(st, m), n, Here(st1, m'), n1);
    n' := n + n1;
  }

  lemma IfTestRuns(ar: Arithmetic, p: seq<Block>, e: Expression, st: State, vars: set<string>, s: Store, m: Store)
    returns (n: nat, m': Store)
    requires Ready(st, vars, s, m) && PlainExpression(e, vars) && Contains(p, IfTest(e, st).0)
    ensures var (_, thenBlock, elseBlock, _) := IfTest(e, st);
      Tests(ar, p, Here(st, m), Eval(ar, e, s), s, thenBlock, elseBlock, n, m')
  {
    var (st1, thenBlock) := CreateBlock(st, "", Owner(st));
    SeesExtends(st, st1, vars);
    assert Here(st1, m) == Here(st, m);
    assert Ready(st1, vars, s, m);
    var (st2, v) := GenExpression(e, st1);
    var (st3, elseBlock) := CreateBne(st2, v, Const(0), thenBlock);
    ContainsEarlier(p, st3, IfTest(e, st).0);
    n, m' := TestRuns(ar, p, e, st1, vars, s, m, thenBlock);
  }

  lemma WhileTestRuns(ar: Arithmetic, p: seq<Block>, e: Expression, st: State, vars: set<string>, s: Store, m: Store,
        body: nat)
    returns (n: nat, m': Store)
    requires Ready(st, vars, s, m) && PlainExpression(e, vars) && body < |st.blocks|
      && Contains(p, WhileTest(e, st, body))
    ensures Tests(ar, p, Here(st, m), Eval(ar, e, s), s, body, WhileTest(e, st, body).insert, n, m')
  {
    n, m' := TestRuns(ar, p, e, st, vars, s, m, body);
  }

  // ----- the simulation -----

  /** Once one result of running is known, a jump that follows carries it on. */
  lemma FollowsGoto(ar: Arithmetic, p: seq<Block>, c: Config, st: State, dest: nat, r: Result, fuel: nat, n: nat,
        m': Store)
    returns (n': nat)
    requires Ok(st) && dest < |st.blocks| && Contains(p, CreateBr(st, dest))
    requires Follows(ar, p, c, st.insert, |CodeOf(st)|, r, fuel, n, m')
    ensures Follows(ar, p, c, dest, 0, r, fuel, n', m')
  {
    hide Contains, Agrees, CreateBr;
    n' := n;
    if r.Done? {
      GotoRuns(ar, p, st, dest, m');
      RunThen(ar, p, c, n, Here(st, m'), 1);
      n' := n + 1;
    }
  }

  lemma NothingRuns(ar: Arithmetic, p: seq<Block>, st: State, vars: set<string>, v: Store, m: Store, fuel: nat)
    returns (n: nat, m': Store)
    requires Ready(st, vars, v, m)
    ensures Follows(ar, p, Here(st, m), st.insert, |CodeOf(st)|, Done(v), fuel, n, m')
  {
    n, m' := 0, m;
  }

  /** Generated code for a statement does what the statement does. */
  lemma {:induction false} StatementRuns(ar: Arithmetic, p: seq<Block>, s: Statement, st: State, vars: set<string>,
        v: Store, m: Store, fuel: nat)
    returns (n: nat, m': Store)
    requires Ready(st, vars, v, m) && PlainStatement(s, vars) && Contains(p, GenStatement(s, st))
    ensures var r := GenStatement(s, st);
      Follows(ar, p, Here(st, m), r.insert, |CodeOf(r)|, Exec(ar, s, v, fuel), fuel, n, m')
    decreases fuel, s, 3
  {
    hide Ready, Contains, Follows, PlainId, PlainExpression, Eval, GenExpression, GenIf, GenWhile;
    match s
    case AssignmentOrCall(_, _) =>
      n, m' := AssignmentRuns(ar, p, s, st, vars, v, m, fuel);
    case Compound(statements) =>
      if statements.Statements? {
        n, m' := StatementsRun(ar, p, statements.list, st, vars, v, m, fuel);
      } else {
        n, m' := NothingRuns(ar, p, st, vars, v, m, fuel);
      }
    case If(_, _, _) =>
      n, m' := IfRuns(ar, p, s, st, vars, v, m, fuel);
    case While(_, _) =>
      n, m' := WhileRuns(ar, p, s, st, vars, v, m, fuel);
  }

  lemma AssignmentRuns(ar: Arithmetic, p: seq<Block>, s: Statement, st: State, vars: set<string>, v: Store, m: Store,
        fuel: nat)
    returns (n: nat, m': Store)
    requires Ready(st, vars, v, m) && PlainStatement(s, vars) && Contains(p, GenStatement(s, st)) && s.AssignmentOrCall?
    ensures var r := GenStatement(s, st);
      Follows(ar, p, Here(st, m), r.insert, |CodeOf(r)|, Exec(ar, s, v, fuel), fuel, n, m')
  {
    var (st1, x) := GenExpression(s.value, st);
    var r := GenStatement(s, st);
    var dest := Var(Lower(s.id.name));
    assert SymbolTableLookup(st, s.id) == dest;
    assert r == Emit(st1, [Assign(x, dest)]);
    ContainsEarlier(p, st1, r);
    n, m' := ExpressionComputes(ar, p, s.value, st, vars, v, m);
    var y := Eval(ar, s.value, v);
    if y.Some? {
      InstrAt(p, r, |CodeOf(st1)|);
      hide Contains, GenExpression, Lookup, Eval, PlainExpression;
      var m2 := m'[dest.name := y.value];
      assert Run(ar, p, Here(r, m2), 0) == At(Here(r, m2));
      assert Step(ar, p, Here(st1, m')) == At(Here(r, m2));
      RunThen(ar, p, Here(st, m), n, Here(st1, m'), 1);
      n, m' := n + 1, m2;
    }
  }

  lemma {:induction false} StatementsRun(ar: Arithmetic, p: seq<Block>, ss: seq<Statement>, st: State,
        vars: set<string>, v: Store, m: Store, fuel: nat)
    returns (n: nat, m': Store)
    requires Ready(st, vars, v, m) && PlainStatements(ss, vars) && Contains(p, GenStatements(ss, st))
    ensures var r := GenStatements(ss, st);
      Follows(ar, p, Here(st, m), r.insert, |CodeOf(r)|, ExecAll(ar, ss, v, fuel), fuel, n, m')
    decreases fuel, ss
  {
    hide *;
    ReadyOk(st, vars, v, m);
    StatementsMeaning(ar, ss, st, vars, v, fuel);
    if ss == [] {
      n, m' := NothingRuns(ar, p, st, vars, v, m, fuel);
    } else {
      var st1 := GenStatement(ss[0], st);
      var r := GenStatements(ss[1..], st1);
      ReadyNext(st, st1, ss[0], vars, v, m);
      ContainsEarlier(p, st1, r);
      n, m' := StatementRuns(ar, p, ss[0], st, vars, v, m, fuel);
      n, m' := StatementsRest(ar, p, ss, st, vars, v, m, fuel, n, m');
    }
  }

  lemma {:induction false} StatementsRest(ar: Arithmetic, p: seq<Block>, ss: seq<Statement>, st: State,
        vars: set<string>, v: Store, m: Store, fuel: nat, n1: nat, m1: Store)
    returns (n: nat, m': Store)
    requires ss != [] && Ready(st, vars, v, m) && PlainStatements(ss, vars)
    requires var st1 := GenStatement(ss[0], st);
      && Ok(st1) && Sees(st1, vars) && Contains(p, GenStatements(ss[1..], st1))
      && Follows(ar, p, Here(st, m), st1.insert, |CodeOf(st1)|, Exec(ar, ss[0], v, fuel), fuel, n1, m1)
    ensures var r := GenStatements(ss, st);
      Follows(ar, p, Here(st, m), r.insert, |CodeOf(r)|, ExecAll(ar, ss, v, fuel), fuel, n, m')
    decreases fuel, ss, 0
  {
    hide *;
    ReadyOk(st, vars, v, m);
    StatementsMeaning(ar, ss, st, vars, v, fuel);
    var st1 := GenStatement(ss[0], st);
    var r := GenStatements(ss[1..], st1);
    var first := Exec(ar, ss[0], v, fuel);
    n, m' := n1, m1;
    if first.Done? {
      FollowsHere(ar, p, Here(st, m), st1, first, fuel, n1, m1);
      ReadyWith(st1, vars, first.store, m1);
      n, m' := StatementsRun(ar, p, ss[1..], st1, vars, first.store, m1, fuel);
      FollowsAfter(ar, p, Here(st, m), n1, Here(st1, m1), r.insert, |CodeOf(r)|,
        ExecAll(ar, ss[1..], first.store, fuel), fuel, n, m', fuel);
      n := n1 + n;
    } else {
      FollowsAnywhere(ar, p, Here(st, m), st1.insert, |CodeOf(st1)|, first, fuel, n1, m1, r.insert, |CodeOf(r)|);
    }
  }

  lemma StatementsMeaning(ar: Arithmetic, ss: seq<Statement>, st: State, vars: set<string>, v: Store, fuel: nat)
    requires Ok(st) && PlainStatements(ss, vars)
    ensures ss == [] ==> GenStatements(ss, st) == st && ExecAll(ar, ss, v, fuel) == Done(v)
    ensures ss != [] ==>
      && PlainStatement(ss[0], vars) && PlainStatements(ss[1..], vars)
      && GenStatements(ss, st) == GenStatements(ss[1..], GenStatement(ss[0], st))
      && ExecAll(ar, ss, v, fuel)
         == var first := Exec(ar, ss[0], v, fuel); if first.Done? then ExecAll(ar, ss[1..], first.store, fuel)
           else first
  {
  }

  lemma FollowsHere(ar: Arithmetic, p: seq<Block>, c: Config, st: State, r: Result, fuel: nat, n: nat, m': Store)
    requires Ok(st) && Follows(ar, p, c, st.insert, |CodeOf(st)|, r, fuel, n, m') && r.Done?
    ensures Run(ar, p, c, n) == At(Here(st, m')) && Agrees(r.store, m')
  {
  }

  /** Code for `s` in the empty block `b`, ended by a jump to `dest`. */
  lemma {:induction false} BlockRuns(ar: Arithmetic, p: seq<Block>, s: Statement, st: State, b: nat, dest: nat,
        vars: set<string>, v: Store, m: Store, fuel: nat)
    returns (n: nat, m': Store)
    requires Ok(st) && b < |st.blocks| && dest < |st.blocks| && st.blocks[b].code == []
    requires Ready(SetInsert(st, b), vars, v, m) && PlainStatement(s, vars)
    requires Contains(p, CreateBr(GenStatement(s, SetInsert(st, b)), dest))
    ensures Follows(ar, p, StartOf(b, m), dest, 0, Exec(ar, s, v, fuel), fuel, n, m')
    decreases fuel, s, 4
  {
    var st1 := SetInsert(st, b);
    var st2 := GenStatement(s, st1);
    assert Here(st1, m) == StartOf(b, m);
    hide GenStatement, Exec, Contains, Ready, PlainStatement, Follows, CreateBr;
    ContainsEarlier(p, st2, CreateBr(st2, dest));
    n, m' := StatementRuns(ar, p, s, st1, vars, v, m, fuel);
    n := FollowsGoto(ar, p, StartOf(b, m), st2, dest, Exec(ar, s, v, fuel), fuel, n, m');
  }

  /** Where the code of the branches of an `if` starts and ends. */
  lemma IfStages(s: Statement, st: State)
    requires Ok(st) && s.If?
    ensures var (st1, t, e, d) := IfTest(s.expression, st);
      var st4 := CreateBr(GenStatement(s.thenPart, SetInsert(st1, t)), d);
      var st7 := CreateBr(GenStatement(s.elsePart, SetInsert(st4, e)), d);
      var r := GenIf(s, st);
      && Extends(st, SetInsert(st1, t)) && Extends(st, SetInsert(st4, e))
      && Extends(st1, r) && Extends(st4, r) && Extends(st7, r)
      && Owner(SetInsert(st1, t)) == Owner(st) && Owner(SetInsert(st4, e)) == Owner(st)
      && st1.blocks[t].code == [] && st4.blocks[e].code == [] && r.insert == d && CodeOf(r) == []
  {
    IfTestFrame(s.expression, st);
    var (st1, t, e, d) := IfTest(s.expression, st);
    var f := Owner(st);
    assert st1.blocks[t].owner == f && st1.blocks[e].owner == f;
    var st2 := SetInsert(st1, t);
    var st3 := GenStatement(s.thenPart, st2);
    var st4 := CreateBr(st3, d);
    hide Ok, Extends, IfTest, GenStatement, CreateBr, Touched, Frame;
    StatementFrame(s.thenPart, st2);
    BranchFrame(s.thenPart, st1, t, d);
    TouchedKeeps(f, st1.blocks, {t}, st4.blocks, {}, e);
    TouchedKeeps(f, st1.blocks, {t}, st4.blocks, {}, d);
    var st5 := SetInsert(st4, e);
    var st6 := GenStatement(s.elsePart, st5);
    var st7 := CreateBr(st6, d);
    StatementFrame(s.elsePart, st5);
    BranchFrame(s.elsePart, st4, e, d);
    TouchedKeeps(f, st4.blocks, {e}, st7.blocks, {}, d);
    var r := SetInsert(st7, d);
    ExtendsChain(st, st1, st2, st3, st4);
    ExtendsChain(st, st4, st5, st6, st7);
    ExtendsThen(st4, st7, r);
    ExtendsThen(st1, st4, r);
  }

  lemma ExtendsChain(st: State, st1: State, st2: State, st3: State, st4: State)
    requires Extends(st, st1) && Extends(st1, st2) && Extends(st2, st3) && Extends(st3, st4)
    ensures Extends(st, st2) && Extends(st1, st4) && Extends(st, st4)
  {
    hide *;
    ExtendsThen(st, st1, st2);
    ExtendsThen(st2, st3, st4);
    ExtendsThen(st1, st2, st4);
    ExtendsThen(st, st2, st4);
  }

  lemma ReadyBlock(st: State, st1: State, vars: set<string>, v: Store, m: Store, v1: Store, m1: Store)
    requires Ready(st, vars, v, m) && Ok(st1) && Extends(st, st1) && Owner(st1) == Owner(st) && Agrees(v1, m1)
    ensures Ready(st1, vars, v1, m1)
  {
    SeesExtends(st, st1, vars);
  }

  lemma {:induction false} IfRuns(ar: Arithmetic, p: seq<Block>, s: Statement, st: State, vars: set<string>, v: Store,
        m: Store, fuel: nat)
    returns (n: nat, m': Store)
    requires Ready(st, vars, v, m) && PlainStatement(s, vars) && s.If? && Contains(p, GenIf(s, st))
    ensures var r := GenIf(s, st);
      Follows(ar, p, Here(st, m), r.insert, |CodeOf(r)|, Exec(ar, s, v, fuel), fuel, n, m')
    decreases fuel, s, 2
  {
    hide *;
    var x := Eval(ar, s.expression, v);
    ReadyOk(st, vars, v, m);
    var r := GenIf(s, st);
    var result := Exec(ar, s, v, fuel);
    IfMeaning(ar, s, vars, v, fuel);
    IfStages(s, st);
    var (st1, t, e, d) := IfTest(s.expression, st);
    var st4 := CreateBr(GenStatement(s.thenPart, SetInsert(st1, t)), d);
    var st7 := CreateBr(GenStatement(s.elsePart, SetInsert(st4, e)), d);
    ContainsEarlier(p, st1, r);
    var n1, m1 := IfTestRuns(ar, p, s.expression, st, vars, v, m);
    n, m' := 0, m1;
    if x.Some? {
      TestsAgree(ar, p, Here(st, m), x, v, t, e, n1, m1);
      if x.value != 0 {
        ContainsEarlier(p, st4, r);
        ReadyBlock(st, SetInsert(st1, t), vars, v, m, v, m1);
        n, m' := BlockRuns(ar, p, s.thenPart, st1, t, d, vars, v, m1, fuel);
      } else {
        ContainsEarlier(p, st7, r);
        ReadyBlock(st, SetInsert(st4, e), vars, v, m, v, m1);
        n, m' := BlockRuns(ar, p, s.elsePart, st4, e, d, vars, v, m1, fuel);
      }
    }
    n := TestsFollow(ar, p, Here(st, m), x, v, t, e, n1, m1, d, result, fuel, n, m', fuel);
  }

  lemma IfMeaning(ar: Arithmetic, s: Statement, vars: set<string>, v: Store, fuel: nat)
    requires PlainStatement(s, vars) && s.If?
    ensures PlainExpression(s.expression, vars) && PlainStatement(s.thenPart, vars) && PlainStatement(s.elsePart, vars)
    ensures var x := Eval(ar, s.expression, v);
      Exec(ar, s, v, fuel)
      == if x.None? then Trap else if x.value != 0 then Exec(ar, s.thenPart, v, fuel) else Exec(ar, s.elsePart, v, fuel)
  {
  }

  lemma TestsAgree(ar: Arithmetic, p: seq<Block>, c: Config, x: Option<int>, s: Store, yes: nat, no: nat, n: nat,
        m': Store)
    requires Tests(ar, p, c, x, s, yes, no, n, m') && x.Some?
    ensures Agrees(s, m') && n >= 1
  {
  }

  /** The test and what follows it. */
  lemma TestsFollow(ar: Arithmetic, p: seq<Block>, c: Config, x: Option<int>, s: Store, yes: nat, no: nat, n: nat,
        m: Store, b: nat, r: Result, fuel: nat, n1: nat, m': Store, fuel': nat)
    returns (n': nat)
    requires Tests(ar, p, c, x, s, yes, no, n, m) && fuel' <= fuel + 1
    requires if x.None? then r == Trap
      else Follows(ar, p, StartOf(if x.value != 0 then yes else no, m), b, 0, r, fuel, n1, m')
    ensures Follows(ar, p, c, b, 0, r, fuel', n', m')
  {
    hide Run, Agrees;
    n' := n;
    if x.Some? {
      n' := n + n1;
      FollowsAfter(ar, p, c, n, StartOf(if x.value != 0 then yes else no, m), b, 0, r, fuel, n1, m', fuel');
    }
  }

  /** Where the code of a loop starts and ends. */
  lemma WhileStages(s: Statement, st: State)
    requires Ok(st) && s.While?
    ensures var (st1, evaluation, body) := WhileEntry(st);
      var st4 := CreateBr(GenStatement(s.doPart, SetInsert(st1, body)), evaluation);
      var st5 := SetInsert(st4, evaluation);
      var r := GenWhile(s, st);
      && Extends(st, SetInsert(st1, body)) && Extends(st, st5) && Extends(st1, r) && Extends(st4, r)
      && Owner(SetInsert(st1, body)) == Owner(st) && Owner(st5) == Owner(st)
      && st1.blocks[body].code == [] && st5.insert == evaluation && CodeOf(st5) == [] && CodeOf(r) == []
      && r == WhileTest(s.expression, st5, body)
  {
    WhileEntryFrame(st);
    var (st1, evaluation, body) := WhileEntry(st);
    var f := Owner(st);
    assert st1.blocks[evaluation].owner == f && st1.blocks[body].owner == f;
    var st2 := SetInsert(st1, body);
    var st3 := GenStatement(s.doPart, st2);
    var st4 := CreateBr(st3, evaluation);
    hide Ok, Extends, WhileEntry, WhileTest, GenStatement, CreateBr, Touched, Frame;
    StatementFrame(s.doPart, st2);
    BranchFrame(s.doPart, st1, body, evaluation);
    TouchedKeeps(f, st1.blocks, {body}, st4.blocks, {}, evaluation);
    var st5 := SetInsert(st4, evaluation);
    var r := WhileTest(s.expression, st5, body);
    WhileTestFrame(s.expression, st5, body);
    ExtendsChain(st, st1, st2, st3, st4);
    ExtendsThen(st4, st5, r);
    ExtendsThen(st1, st4, r);
    ExtendsThen(st, st4, st5);
  }

  lemma {:induction false} WhileRuns(ar: Arithmetic, p: seq<Block>, s: Statement, st: State, vars: set<string>,
        v: Store, m: Store, fuel: nat)
    returns (n: nat, m': Store)
    requires Ready(st, vars, v, m) && PlainStatement(s, vars) && s.While? && Contains(p, GenWhile(s, st))
    ensures var r := GenWhile(s, st);
      Follows(ar, p, Here(st, m), r.insert, |CodeOf(r)|, Exec(ar, s, v, fuel), fuel, n, m')
    decreases fuel, s, 2
  {
    WhileStages(s, st);
    var (st1, evaluation, body) := WhileEntry(st);
    var r := GenWhile(s, st);
    hide GenWhile, Exec, Contains, PlainStatement, Extends, Agrees, Run, Follows, Ready;
    ReadyOk(st, vars, v, m);
    ContainsEarlier(p, st1, r);
    n, m' := LoopRuns(ar, p, s, st, vars, v, m, v, m, fuel);
    EntryRuns(ar, p, st, m);
    FollowsAfter(ar, p, Here(st, m), 1, StartOf(evaluation, m), r.insert, |CodeOf(r)|, Exec(ar, s, v, fuel), fuel, n,
      m', fuel);
    n := n + 1;
  }

  lemma EntryRuns(ar: Arithmetic, p: seq<Block>, st: State, m: Store)
    requires Ok(st) && Contains(p, WhileEntry(st).0)
    ensures Run(ar, p, Here(st, m), 1) == At(StartOf(WhileEntry(st).1, m))
  {
    var (st1, evaluation) := CreateBlock(st, "", Owner(st));
    ContainsEarlier(p, CreateBr(st1, evaluation), WhileEntry(st).0);
    GotoRuns(ar, p, st1, evaluation, m);
  }

  /** From the evaluation block: test, body, and back. */
  lemma {:induction false} LoopRuns(ar: Arithmetic, p: seq<Block>, s: Statement, st: State, vars: set<string>,
        v0: Store, m0: Store, v: Store, m: Store, fuel: nat)
    returns (n: nat, m': Store)
    requires Ready(st, vars, v0, m0) && PlainStatement(s, vars) && s.While? && Contains(p, GenWhile(s, st))
      && Agrees(v, m)
    ensures var r := GenWhile(s, st);
      Follows(ar, p, StartOf(WhileEntry(st).1, m), r.insert, |CodeOf(r)|, Exec(ar, s, v, fuel), fuel, n, m')
    decreases fuel, s, 1
  {
    hide *;
    var x := Eval(ar, s.expression, v);
    ReadyOk(st, vars, v0, m0);
    var r := GenWhile(s, st);
    var result := Exec(ar, s, v, fuel);
    WhileMeaning(ar, s, vars, v, fuel);
    WhileStages(s, st);
    var (st1, evaluation, body) := WhileEntry(st);
    var st4 := CreateBr(GenStatement(s.doPart, SetInsert(st1, body)), evaluation);
    var st5 := SetInsert(st4, evaluation);
    assert Here(st5, m) == StartOf(evaluation, m) by { EmptyStart(st5, m); }
    ReadyBlock(st, st5, vars, v0, m0, v, m);
    var n1, m1 := WhileTestRuns(ar, p, s.expression, st5, vars, v, m, body);
    var inner := if fuel == 0 then 0 else fuel - 1;
    n, m' := 0, m1;
    if x.Some? {
      TestsAgree(ar, p, StartOf(evaluation, m), x, v, body, r.insert, n1, m1);
      if x.value == 0 || fuel == 0 {
        StandStill(ar, p, if x.value == 0 then r.insert else body, v, m1, r.insert);
      } else {
        ContainsEarlier(p, st4, r);
        ReadyBlock(st, SetInsert(st1, body), vars, v0, m0, v, m1);
        var first := Exec(ar, s.doPart, v, fuel - 1);
        n, m' := BlockRuns(ar, p, s.doPart, st1, body, evaluation, vars, v, m1, fuel - 1);
        if first.Done? {
          var n2, m2 := n, m';
          FollowsDone(ar, p, StartOf(body, m1), evaluation, first, inner, n2, m2);
          n, m' := LoopRuns(ar, p, s, st, vars, v0, m0, first.store, m2, fuel - 1);
          FollowsAfter(ar, p, StartOf(body, m1), n2, StartOf(evaluation, m2), r.insert, 0, result, inner, n, m', inner);
          n := n2 + n;
        } else {
          FollowsAnywhere(ar, p, StartOf(body, m1), evaluation, 0, first, inner, n, m', r.insert, 0);
        }
      }
    }
    n := TestsFollow(ar, p, StartOf(evaluation, m), x, v, body, r.insert, n1, m1, r.insert, result, inner, n, m', fuel);
  }

  lemma EmptyStart(st: State, m: Store)
    requires Ok(st) && CodeOf(st) == []
    ensures Here(st, m) == StartOf(st.insert, m)
  {
  }

  lemma WhileMeaning(ar: Arithmetic, s: Statement, vars: set<string>, v: Store, fuel: nat)
    requires PlainStatement(s, vars) && s.While?
    ensures PlainExpression(s.expression, vars) && PlainStatement(s.doPart, vars)
    ensures var x := Eval(ar, s.expression, v);
      Exec(ar, s, v, fuel)
      == if x.None? then Trap else if x.value == 0 then Done(v) else if fuel == 0 then OutOfFuel
         else var first := Exec(ar, s.doPart, v, fuel - 1);
           if first.Done? then Exec(ar, s, first.store, fuel - 1) else first
  {
  }

  lemma StandStill(ar: Arithmetic, p: seq<Block>, b: nat, s: Store, m: Store, elsewhere: nat)
    requires Agrees(s, m)
    ensures forall fuel :: Follows(ar, p, StartOf(b, m), b, 0, Done(s), fuel, 0, m)
    ensures Follows(ar, p, StartOf(b, m), elsewhere, 0, OutOfFuel, 0, 0, m)
  {
  }

  lemma FollowsDone(ar: Arithmetic, p: seq<Block>, c: Config, b: nat, r: Result, fuel: nat, n: nat, m': Store)
    requires Follows(ar, p, c, b, 0, r, fuel, n, m') && r.Done?
    ensures Run(ar, p, c, n) == At(StartOf(b, m')) && Agrees(r.store, m')
  {
  }

  lemma FollowsAnywhere(ar: Arithmetic, p: seq<Block>, c: Config, b: nat, i: nat, r: Result, fuel: nat, n: nat,
        m': Store, b': nat, i': nat)
    requires Follows(ar, p, c, b, i, r, fuel, n, m') && !r.Done?
    ensures Follows(ar, p, c, b', i', r, fuel, n, m')
  {
  }

  lemma ReadyNext(st: State, st1: State, s: Statement, vars: set<string>, v: Store, m: Store)
    requires Ready(st, vars, v, m) && st1 == GenStatement(s, st)
    ensures Ok(st1) && Sees(st1, vars)
  {
    StatementFrame(s, st);
    FrameOwner(st, st1);
    SeesExtends(st, st1, vars);
  }

  lemma ReadyWith(st: State, vars: set<string>, v': Store, m: Store)
    requires Ok(st) && Sees(st, vars) && Agrees(v', m)
    ensures Ready(st, vars, v', m)
  {
  }
}
