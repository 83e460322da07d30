/** Generated code for an expression computes its value. */
module ExpressionProof {
  import opened Ast
  import opened Names
  import opened Tac
  import opened Codegen
  import opened Semantics

  function CodeOf(st: State): seq<Instr>
    requires Ok(st)
  {
    st.blocks[st.insert].code
  }

  /** Execution at the end of what has been generated so far. */
  function Here(st: State, s: Store): Config
    requires Ok(st)
  {
    Config(st.insert, |CodeOf(st)|, s)
  }

  /** The machine store holds the values of the user's variables. */
  ghost predicate Agrees(s: Store, m: Store) {
    forall x :: IsUserName(x) ==> Read(m, x) == Read(s, x)
  }

  /** Temporaries up to number `u` are untouched. */
  ghost predicate TempsKept(u: nat, m: Store, m': Store) {
    forall k: nat :: k <= u ==> Read(m', TempName(k)) == Read(m, TempName(k))
  }

  /** An operand that later code does not overwrite: a constant, a user's variable, or a temporary up to `u`. */
  ghost predicate Stable(v: Operand, u: nat) {
    v.Const? || (v.Var? && (IsUserName(v.name) || exists k: nat :: k <= u && v.name == TempName(k)))
  }

  lemma StableValue(v: Operand, u: nat, s: Store, m: Store, m': Store)
    requires Stable(v, u) && Agrees(s, m) && Agrees(s, m') && TempsKept(u, m, m')
    ensures Value(v, m') == Value(v, m)
  {
  }

  /** All of `vars` are symbols in scope. */
  ghost predicate Sees(st: State, vars: set<string>)
    requires Ok(st)
  {
    forall x :: x in vars ==> Lookup(st.functions, Owner(st), x).Some?
  }

  lemma {:induction false} LookupInExtends(p: seq<Symbol>, q: seq<Symbol>, x: string)
    requires p <= q && LookupIn(p, x).Some?
    ensures LookupIn(q, x).Some?
  {
    if p[0].name != x {
      LookupInExtends(p[1..], q[1..], x);
    }
  }

  lemma {:induction false} LookupExtends(st: State, st': State, f: nat, x: string)
    requires Ok(st) && Ok(st') && Extends(st, st') && f < |st.functions| && Lookup(st.functions, f, x).Some?
    ensures Lookup(st'.functions, f, x).Some?
    decreases f
  {
    if LookupIn(st.functions[f].symbols, x).Some? {
      LookupInExtends(st.functions[f].symbols, st'.functions[f].symbols, x);
    } else if LookupIn(st'.functions[f].symbols, x).None? {
      LookupExtends(st, st', st.functions[f].parent, x);
    }
  }

  /** What is in scope stays in scope for code of the same function. */
  lemma SeesExtends(st: State, st': State, vars: set<string>)
    requires Ok(st) && Ok(st') && Extends(st, st') && Owner(st) == Owner(st') && Sees(st, vars)
    ensures Sees(st', vars)
  {
    forall x | x in vars ensures Lookup(st'.functions, Owner(st'), x).Some? {
      LookupExtends(st, st', Owner(st), x);
    }
  }

  // ----- execution -----

  /** The program `p` contains what was generated in `st`, and its labels are unambiguous. */
  ghost predicate Contains(p: seq<Block>, st: State) {
    Grows(st.blocks, p) && UniqueTargets(p)
  }

  lemma ContainsEarlier(p: seq<Block>, st: State, st': State)
    requires Extends(st, st') && Contains(p, st')
    ensures Contains(p, st)
  {
  }

  /** Instruction `k` of the insert block is in the program. */
  lemma InstrAt(p: seq<Block>, st: State, k: nat)
    requires Ok(st) && Contains(p, st) && k < |CodeOf(st)|
    ensures st.insert < |p| && k < |p[st.insert].code| && p[st.insert].code[k] == CodeOf(st)[k]
  {
  }

  /** Code appended last is in the program right after what was there before. */
  lemma SliceAt(p: seq<Block>, st: State, c: seq<Instr>, d: seq<Instr>)
    requires Ok(st) && Contains(p, st) && CodeOf(st) == c + d
    ensures st.insert < |p| && |c| + |d| <= |p[st.insert].code| && p[st.insert].code[|c|..|c| + |d|] == d
  {
    assert (c + d)[|c|..] == d;
  }

  /** `n` steps lead from the end of `st` to the end of `st'`. */
  ghost predicate Leads(ar: Arithmetic, p: seq<Block>, st: State, m: Store, n: nat, st': State, m': Store)
    requires Ok(st) && Ok(st')
  {
    Run(ar, p, Here(st, m), n) == At(Here(st', m'))
  }

  lemma LeadsThen(ar: Arithmetic, p: seq<Block>, st: State, m: Store, n: nat, st1: State, m1: Store, n1: nat,
        st2: State, m2: Store)
    requires Ok(st) && Ok(st1) && Ok(st2) && Leads(ar, p, st, m, n, st1, m1) && Leads(ar, p, st1, m1, n1, st2, m2)
    ensures Leads(ar, p, st, m, n + n1, st2, m2)
  {
    RunThen(ar, p, Here(st, m), n, Here(st1, m1), n1);
  }

  lemma LeadsTrap(ar: Arithmetic, p: seq<Block>, st: State, m: Store, n: nat, st1: State, m1: Store, n1: nat)
    requires Ok(st) && Ok(st1) && Leads(ar, p, st, m, n, st1, m1) && Run(ar, p, Here(st1, m1), n1) == Trapped
    ensures Run(ar, p, Here(st, m), n + n1) == Trapped
  {
    RunThen(ar, p, Here(st, m), n, Here(st1, m1), n1);
  }

  /** What the code between `st` and `st'` does when the value is `r`: leave it in `v`, or trap. */
  ghost predicate Computes(ar: Arithmetic, p: seq<Block>, st: State, st': State, v: Operand, s: Store, m: Store,
                           r: Option<int>, n: nat, m': Store)
    requires Ok(st) && Ok(st')
  {
    match r
    case Some(x) =>
      && Leads(ar, p, st, m, n, st', m') && Agrees(s, m') && TempsKept(st.uid, m, m')
      && Stable(v, st'.uid) && Value(v, m') == x
    case None => Run(ar, p, Here(st, m), n) == Trapped
  }

  // ----- single instructions -----

  lemma SetTemp(s: Store, m: Store, u: nat, x: int)
    requires Agrees(s, m)
    ensures var m' := m[TempName(u + 1) := x];
      Agrees(s, m') && TempsKept(u, m, m') && Read(m', TempName(u + 1)) == x
  {
    var m' := m[TempName(u + 1) := x];
    forall y | IsUserName(y) ensures Read(m', y) == Read(s, y) {
      InventedApart(u + 1, 0);
    }
    forall k: nat | k <= u ensures Read(m', TempName(k)) == Read(m, TempName(k)) {
      TempNameInjective(k, u + 1);
    }
  }

  lemma BinaryComputes(ar: Arithmetic, p: seq<Block>, st: State, op: Operator, a: Operand, b: Operand, s: Store,
        m: Store)
    returns (n: nat, m': Store)
    requires Ok(st) && Agrees(s, m) && Contains(p, CreateBinary(st, op, a, b).0)
    ensures var (st', v) := CreateBinary(st, op, a, b);
      Computes(ar, p, st, st', v, s, m, ar.binary(op, Value(a, m), Value(b, m)), n, m')
  {
    var (st', v) := CreateBinary(st, op, a, b);
    InstrAt(p, st', |CodeOf(st)|);
    n, m' := 1, m;
    match ar.binary(op, Value(a, m), Value(b, m))
    case None =>
    case Some(x) =>
      m' := m[TempName(st.uid + 1) := x];
      SetTemp(s, m, st.uid, x);
      assert Run(ar, p, Here(st, m), 1) == Run(ar, p, Here(st', m'), 0);
  }

  lemma UnaryComputes(ar: Arithmetic, p: seq<Block>, st: State, op: UnaryOp, a: Operand, s: Store, m: Store)
    returns (n: nat, m': Store)
    requires Ok(st) && Agrees(s, m) && Contains(p, CreateUnary(st, op, a).0)
    ensures var (st', v) := CreateUnary(st, op, a);
      Computes(ar, p, st, st', v, s, m, Some(ar.unary(op, Value(a, m))), n, m')
  {
    var (st', v) := CreateUnary(st, op, a);
    InstrAt(p, st', |CodeOf(st)|);
    var x := ar.unary(op, Value(a, m));
    n, m' := 1, m[TempName(st.uid + 1) := x];
    SetTemp(s, m, st.uid, x);
    assert Run(ar, p, Here(st, m), 1) == Run(ar, p, Here(st', m'), 0);
  }

  /** The six instructions of a comparison leave 1 or 0 in the temporary. */
  lemma CmpComputes(ar: Arithmetic, p: seq<Block>, st: State, rel: Operator, a: Operand, b: Operand, s: Store, m: Store)
    returns (n: nat, m': Store)
    requires Ok(st) && Agrees(s, m) && Contains(p, CreateCmp(st, rel, a, b).0)
    ensures var (st', v) := CreateCmp(st, rel, a, b);
      Computes(ar, p, st, st', v, s, m, Some(if Holds(rel, Value(a, m), Value(b, m)) then 1 else 0), n, m')
  {
    var (st', v) := CreateCmp(st, rel, a, b);
    var (bl, i) := (st.insert, |CodeOf(st)|);
    var (yes, done) := (TempLabel(st.uid + 2), TempLabel(st.uid + 3));
    var x := if Holds(rel, Value(a, m), Value(b, m)) then 1 else 0;
    assert CodeOf(st') == CodeOf(st) + CmpCode(rel, a, b, v, yes, done);
    n, m' := 4, m[TempName(st.uid + 1) := x];
    SetTemp(s, m, st.uid, x);
    hide Contains, Agrees, Step, Run, Stable, TempsKept, CmpCode;
    SliceAt(p, st', CodeOf(st), CmpCode(rel, a, b, v, yes, done));
    CmpRun(ar, p, bl, i, rel, a, b, v, yes, done, m);
  }

  /** The comparison code, wherever it stands. */
  lemma CmpRun(ar: Arithmetic, p: seq<Block>, bl: nat, i: nat, rel: Operator, a: Operand, b: Operand, t: Operand,
               yes: string, done: string, m: Store)
    requires UniqueTargets(p) && t.Var? && bl < |p|
    requires i + 6 <= |p[bl].code| && p[bl].code[i..i + 6] == CmpCode(rel, a, b, t, yes, done)
    ensures var x := if Holds(rel, Value(a, m), Value(b, m)) then 1 else 0;
      Run(ar, p, Config(bl, i, m), 4) == At(Config(bl, i + 6, m[t.name := x]))
  {
    var code := p[bl].code[i..i + 6];
    assert code[0] == p[bl].code[i] && code[1] == p[bl].code[i + 1] && code[2] == p[bl].code[i + 2];
    assert code[3] == p[bl].code[i + 3] && code[4] == p[bl].code[i + 4] && code[5] == p[bl].code[i + 5];
    assert TargetAt(p, yes, bl, i + 3) && TargetAt(p, done, bl, i + 5);
    if Holds(rel, Value(a, m), Value(b, m)) {
      var m1 := m[t.name := 1];
      JumpTo(p, yes, bl, i + 3, m);
      assert Step(ar, p, Config(bl, i, m)) == At(Config(bl, i + 3, m));
      assert Step(ar, p, Config(bl, i + 3, m)) == At(Config(bl, i + 4, m));
      assert Step(ar, p, Config(bl, i + 4, m)) == At(Config(bl, i + 5, m1));
      assert Step(ar, p, Config(bl, i + 5, m1)) == At(Config(bl, i + 6, m1));
      FourSteps(ar, p, Config(bl, i, m), Config(bl, i + 3, m), Config(bl, i + 4, m), Config(bl, i + 5, m1),
        Config(bl, i + 6, m1));
    } else {
      var m1 := m[t.name := 0];
      JumpTo(p, done, bl, i + 5, m1);
      assert Step(ar, p, Config(bl, i, m)) == At(Config(bl, i + 1, m));
      assert Step(ar, p, Config(bl, i + 1, m)) == At(Config(bl, i + 2, m1));
      assert Step(ar, p, Config(bl, i + 2, m1)) == At(Config(bl, i + 5, m1));
      assert Step(ar, p, Config(bl, i + 5, m1)) == At(Config(bl, i + 6, m1));
      FourSteps(ar, p, Config(bl, i, m), Config(bl, i + 1, m), Config(bl, i + 2, m1), Config(bl, i + 5, m1),
        Config(bl, i + 6, m1));
    }
  }

  lemma FourSteps(ar: Arithmetic, p: seq<Block>, c0: Config, c1: Config, c2: Config, c3: Config, c4: Config)
    requires Step(ar, p, c0) == At(c1) && Step(ar, p, c1) == At(c2) && Step(ar, p, c2) == At(c3)
      && Step(ar, p, c3) == At(c4)
    ensures Run(ar, p, c0, 4) == At(c4)
  {
    assert Run(ar, p, c3, 1) == Run(ar, p, c4, 0);
    assert Run(ar, p, c2, 2) == Run(ar, p, c3, 1);
    assert Run(ar, p, c1, 3) == Run(ar, p, c2, 2);
  }

  // ----- composition -----

  /** Both operands of a binary node have been computed, or one of them trapped. */
  ghost predicate PairComputed(ar: Arithmetic, p: seq<Block>, st: State, st': State, a: Operand, b: Operand, s: Store,
        m: Store, x: Option<int>, y: Option<int>, n: nat, m': Store)
    requires Ok(st) && Ok(st')
  {
    if x.Some? && y.Some? then
      && Leads(ar, p, st, m, n, st', m') && Agrees(s, m') && TempsKept(st.uid, m, m')
      && Value(a, m') == x.value && Value(b, m') == y.value
    else Run(ar, p, Here(st, m), n) == Trapped
  }

  /** One operand after the other; the first is not disturbed by the second. */
  lemma Pair(ar: Arithmetic, p: seq<Block>, st: State, st1: State, st2: State, a: Operand, b: Operand, s: Store,
        m: Store, x: Option<int>, n1: nat, m1: Store, y: Option<int>, n2: nat, m2: Store)
    returns (n: nat, m': Store)
    requires Ok(st) && Ok(st1) && Ok(st2) && st.uid <= st1.uid && Agrees(s, m)
    requires Computes(ar, p, st, st1, a, s, m, x, n1, m1)
    requires x.Some? ==> Computes(ar, p, st1, st2, b, s, m1, y, n2, m2)
    ensures PairComputed(ar, p, st, st2, a, b, s, m, x, y, n, m')
  {
    if x.None? {
      n, m' := n1, m1;
    } else {
      n, m' := n1 + n2, m2;
      if y.None? {
        LeadsTrap(ar, p, st, m, n1, st1, m1, n2);
      } else {
        LeadsThen(ar, p, st, m, n1, st1, m1, n2, st2, m2);
        StableValue(a, st1.uid, s, m1, m2);
      }
    }
  }

  /** The operation after its operands. */
  lemma Operate(ar: Arithmetic, p: seq<Block>, st: State, st2: State, st3: State, a: Operand, b: Operand, v: Operand,
        s: Store, m: Store, x: Option<int>, y: Option<int>, n2: nat, m2: Store, z: Option<int>, n3: nat, m3: Store)
    returns (n: nat, m': Store)
    requires Ok(st) && Ok(st2) && Ok(st3) && st.uid <= st2.uid
    requires PairComputed(ar, p, st, st2, a, b, s, m, x, y, n2, m2)
    requires x.Some? && y.Some? ==> Computes(ar, p, st2, st3, v, s, m2, z, n3, m3)
    ensures Computes(ar, p, st, st3, v, s, m, if x.Some? && y.Some? then z else None, n, m')
  {
    if x.None? || y.None? {
      n, m' := n2, m2;
    } else {
      n, m' := n2 + n3, m3;
      if z.None? {
        LeadsTrap(ar, p, st, m, n2, st2, m2, n3);
      } else {
        LeadsThen(ar, p, st, m, n2, st2, m2, n3, st3, m3);
      }
    }
  }

  /** One computation followed by an operation on its result. */
  lemma Follow(ar: Arithmetic, p: seq<Block>, st: State, st1: State, st2: State, a: Operand, v: Operand, s: Store,
        m: Store, x: Option<int>, n1: nat, m1: Store, z: Option<int>, n2: nat, m2: Store)
    returns (n: nat, m': Store)
    requires Ok(st) && Ok(st1) && Ok(st2) && st.uid <= st1.uid
    requires Computes(ar, p, st, st1, a, s, m, x, n1, m1)
    requires x.Some? ==> Computes(ar, p, st1, st2, v, s, m1, z, n2, m2)
    ensures Computes(ar, p, st, st2, v, s, m, if x.Some? then z else None, n, m')
  {
    if x.None? {
      n, m' := n1, m1;
    } else {
      n, m' := n1 + n2, m2;
      if z.None? {
        LeadsTrap(ar, p, st, m, n1, st1, m1, n2);
      } else {
        LeadsThen(ar, p, st, m, n1, st1, m1, n2, st2, m2);
      }
    }
  }

  lemma FinishCmp(ar: Arithmetic, p: seq<Block>, st: State, st2: State, op: Operator, a: Operand, b: Operand,
        s: Store, m: Store, x: Option<int>, y: Option<int>, n2: nat, m2: Store)
    returns (n: nat, m': Store)
    requires Ok(st) && Ok(st2) && st.uid <= st2.uid && Contains(p, CreateCmp(st2, op, a, b).0)
    requires PairComputed(ar, p, st, st2, a, b, s, m, x, y, n2, m2)
    ensures var (st3, v) := CreateCmp(st2, op, a, b);
      Computes(ar, p, st, st3, v, s, m,
               if x.None? || y.None? then None else Some(if Holds(op, x.value, y.value) then 1 else 0), n, m')
  {
    var (st3, v) := CreateCmp(st2, op, a, b);
    var z := if x.Some? && y.Some? then Some(if Holds(op, x.value, y.value) then 1 else 0) else None;
    var n3, m3 := 0, m2;
    if x.Some? && y.Some? {
      n3, m3 := CmpComputes(ar, p, st2, op, a, b, s, m2);
    }
    n, m' := Operate(ar, p, st, st2, st3, a, b, v, s, m, x, y, n2, m2, z, n3, m3);
  }

  lemma FinishBinary(ar: Arithmetic, p: seq<Block>, st: State, st2: State, op: Operator, a: Operand, b: Operand,
        s: Store, m: Store, x: Option<int>, y: Option<int>, n2: nat, m2: Store)
    returns (n: nat, m': Store)
    requires Ok(st) && Ok(st2) && st.uid <= st2.uid && Contains(p, CreateBinary(st2, op, a, b).0)
    requires PairComputed(ar, p, st, st2, a, b, s, m, x, y, n2, m2)
    ensures var (st3, v) := CreateBinary(st2, op, a, b);
      Computes(ar, p, st, st3, v, s, m, BinaryValue(ar, op, x, y), n, m')
  {
    var (st3, v) := CreateBinary(st2, op, a, b);
    var n3, m3 := 0, m2;
    if x.Some? && y.Some? {
      n3, m3 := BinaryComputes(ar, p, st2, op, a, b, s, m2);
    }
    n, m' := Operate(ar, p, st, st2, st3, a, b, v, s, m, x, y, n2, m2, BinaryValue(ar, op, x, y), n3, m3);
  }

  lemma FinishUnary(ar: Arithmetic, p: seq<Block>, st: State, st1: State, op: UnaryOp, a: Operand, s: Store, m: Store,
                    x: Option<int>, n1: nat, m1: Store) returns (n: nat, m': Store)
    requires Ok(st) && Ok(st1) && st.uid <= st1.uid && Contains(p, CreateUnary(st1, op, a).0)
    requires Computes(ar, p, st, st1, a, s, m, x, n1, m1)
    ensures var (st2, v) := CreateUnary(st1, op, a);
      Computes(ar, p, st, st2, v, s, m, if x.Some? then Some(ar.unary(op, x.value)) else None, n, m')
  {
    var (st2, v) := CreateUnary(st1, op, a);
    var z := if x.Some? then Some(ar.unary(op, x.value)) else None;
    var n2, m2 := 0, m1;
    if x.Some? {
      n2, m2 := UnaryComputes(ar, p, st1, op, a, s, m1);
    }
    n, m' := Follow(ar, p, st, st1, st2, a, v, s, m, x, n1, m1, z, n2, m2);
  }

  // ----- the theorem for expressions -----

  /** What holds where code generation starts: variables in scope, stores in agreement. */
  ghost predicate Ready(st: State, vars: set<string>, s: Store, m: Store) {
    Ok(st) && Sees(st, vars) && Agrees(s, m)
  }

  lemma InlineContains(p: seq<Block>, st: State, st': State)
    requires Inline(st, st') && Contains(p, st')
    ensures Contains(p, st) && st.uid <= st'.uid
  {
  }

  lemma ReadyAfter(ar: Arithmetic, p: seq<Block>, st: State, st': State, v: Operand, vars: set<string>, s: Store,
        m: Store, x: Option<int>, n: nat, m': Store)
    requires Ready(st, vars, s, m) && Ok(st') && Inline(st, st') && Computes(ar, p, st, st', v, s, m, x, n, m')
    ensures x.Some? ==> Ready(st', vars, s, m')
  {
    SeesExtends(st, st', vars);
  }

  /** Generated code for an expression leaves its value in the returned operand, or traps when the expression does. */
  lemma {:induction false} ExpressionComputes(ar: Arithmetic, p: seq<Block>, e: Expression, st: State,
        vars: set<string>, s: Store, m: Store)
    returns (n: nat, m': Store)
    requires Ready(st, vars, s, m) && PlainExpression(e, vars) && Contains(p, GenExpression(e, st).0)
    ensures Computes(ar, p, st, GenExpression(e, st).0, GenExpression(e, st).1, s, m, Eval(ar, e, s), n, m')
    decreases e
  {
    match e
    case RelOp(lhs, op, rhs) =>
      var (st1, a) := GenExpression(lhs, st);
      var (st2, b) := GenExpression(rhs, st1);
      hide Ok, Contains, Computes, PairComputed, Inline, Ready;
      ReadyOk(st, vars, s, m);
      InlineContains(p, st2, CreateCmp(st2, op, a, b).0);
      InlineContains(p, st1, st2);
      InlineThen(st, st1, st2);
      InlineContains(p, st, st1);
      var n1, m1 := ExpressionComputes(ar, p, lhs, st, vars, s, m);
      var x, y := Eval(ar, lhs, s), Eval(ar, rhs, s);
      ReadyAfter(ar, p, st, st1, a, vars, s, m, x, n1, m1);
      var n2, m2 := 0, m1;
      if x.Some? {
        n2, m2 := ExpressionComputes(ar, p, rhs, st1, vars, s, m1);
      }
      n2, m2 := Pair(ar, p, st, st1, st2, a, b, s, m, x, n1, m1, y, n2, m2);
      n, m' := FinishCmp(ar, p, st, st2, op, a, b, s, m, x, y, n2, m2);
    case AddOp(negated, term, op, rest) =>
      n, m' := SumComputes(ar, p, e, st, vars, s, m);
  }

  lemma ReadyOk(st: State, vars: set<string>, s: Store, m: Store)
    requires Ready(st, vars, s, m)
    ensures Ok(st) && Agrees(s, m) && Sees(st, vars)
  {
  }

  lemma {:induction false} SumComputes(ar: Arithmetic, p: seq<Block>, e: Expression, st: State, vars: set<string>,
        s: Store, m: Store)
    returns (n: nat, m': Store)
    requires Ready(st, vars, s, m) && PlainExpression(e, vars) && Contains(p, GenExpression(e, st).0) && e.AddOp?
    ensures Computes(ar, p, st, GenExpression(e, st).0, GenExpression(e, st).1, s, m, Eval(ar, e, s), n, m')
    decreases e, 0
  {
    var (st1, t) := GenTerm(e.term, st);
    var (st2, a) := if e.negated then CreateUnary(st1, Negate, t) else (st1, t);
    var x1 := EvalTerm(ar, e.term, s);
    var x := if e.negated && x1.Some? then Some(ar.unary(Negate, x1.value)) else x1;
    hide Ok, Contains, Computes, PairComputed, Inline, Ready;
    ReadyOk(st, vars, s, m);
    if !e.rest.NullExpression? {
      var (st3, b) := GenExpression(e.rest, st2);
      InlineContains(p, st3, CreateBinary(st3, e.addOp, a, b).0);
      InlineContains(p, st2, st3);
    }
    InlineThen(st, st1, st2);
    InlineContains(p, st1, st2);
    InlineContains(p, st, st1);
    n, m' := TermComputes(ar, p, e.term, st, vars, s, m);
    if e.negated {
      n, m' := FinishUnary(ar, p, st, st1, Negate, t, s, m, x1, n, m');
    }
    if !e.rest.NullExpression? {
      var (st3, b) := GenExpression(e.rest, st2);
      ReadyAfter(ar, p, st, st2, a, vars, s, m, x, n, m');
      var n2, m2 := 0, m';
      if x.Some? {
        n2, m2 := ExpressionComputes(ar, p, e.rest, st2, vars, s, m');
      }
      var y := Eval(ar, e.rest, s);
      n2, m2 := Pair(ar, p, st, st2, st3, a, b, s, m, x, n, m', y, n2, m2);
      n, m' := FinishBinary(ar, p, st, st3, e.addOp, a, b, s, m, x, y, n2, m2);
    }
  }

  lemma {:induction false} TermComputes(ar: Arithmetic, p: seq<Block>, t: Term, st: State, vars: set<string>,
        s: Store, m: Store)
    returns (n: nat, m': Store)
    requires Ready(st, vars, s, m) && PlainTerm(t, vars) && Contains(p, GenTerm(t, st).0)
    ensures Computes(ar, p, st, GenTerm(t, st).0, GenTerm(t, st).1, s, m, EvalTerm(ar, t, s), n, m')
    decreases t
  {
    var (st1, a) := GenFactor(t.factor, st);
    var x := EvalFactor(ar, t.factor, s);
    hide Ok, Contains, Computes, PairComputed, Inline, Ready;
    ReadyOk(st, vars, s, m);
    if t.rest.NullTerm? {
      n, m' := FactorComputes(ar, p, t.factor, st, vars, s, m);
    } else {
      var (st2, b) := GenTerm(t.rest, st1);
      InlineContains(p, st2, CreateBinary(st2, t.mulOp, a, b).0);
      InlineContains(p, st1, st2);
      InlineThen(st, st1, st2);
      InlineContains(p, st, st1);
      n, m' := FactorComputes(ar, p, t.factor, st, vars, s, m);
      ReadyAfter(ar, p, st, st1, a, vars, s, m, x, n, m');
      var n2, m2 := 0, m';
      if x.Some? {
        n2, m2 := TermComputes(ar, p, t.rest, st1, vars, s, m');
      }
      var y := EvalTerm(ar, t.rest, s);
      n2, m2 := Pair(ar, p, st, st1, st2, a, b, s, m, x, n, m', y, n2, m2);
      n, m' := FinishBinary(ar, p, st, st2, t.mulOp, a, b, s, m, x, y, n2, m2);
    }
  }

  lemma {:induction false} FactorComputes(ar: Arithmetic, p: seq<Block>, f: Factor, st: State, vars: set<string>,
        s: Store, m: Store)
    returns (n: nat, m': Store)
    requires Ready(st, vars, s, m) && PlainFactor(f, vars) && Contains(p, GenFactor(f, st).0)
    ensures Computes(ar, p, st, GenFactor(f, st).0, GenFactor(f, st).1, s, m, EvalFactor(ar, f, s), n, m')
    decreases f
  {
    match f
    case NumberFactor(number) =>
      n, m' := 0, m;
    case NotFactor(factor) =>
      var (st1, a) := GenFactor(factor, st);
      InlineContains(p, st1, CreateUnary(st1, UnaryOp.Not, a).0);
      n, m' := FactorComputes(ar, p, factor, st, vars, s, m);
      n, m' := FinishUnary(ar, p, st, st1, UnaryOp.Not, a, s, m, EvalFactor(ar, factor, s), n, m');
    case ParenFactor(expression) =>
      n, m' := ExpressionComputes(ar, p, expression, st, vars, s, m);
    case IdFactor(id) =>
      n, m' := 0, m;
  }
}
