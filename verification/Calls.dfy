/** What a call finds: its arguments have been evaluated and pushed, in order. */
module Calls {
  import opened Ast
  import opened Names
  import opened Tac
  import opened Codegen
  import opened Semantics
  import opened ExpressionProof

  predicate PlainExpressions(es: seq<Expression>, vars: set<string>) {
    es == [] || (PlainExpression(es[0], vars) && PlainExpressions(es[1..], vars))
  }

  /** The values of all arguments; `None` when one of them traps. */
  function EvalAll(ar: Arithmetic, es: seq<Expression>, s: Store): (r: Option<seq<int>>)
    ensures r.Some? ==> |r.value| == |es|
  {
    if es == [] then Some([])
    else
      var (x, rest) := (Eval(ar, es[0], s), EvalAll(ar, es[1..], s));
      if x.None? || rest.None? then None else Some([x.value] + rest.value)
  }

  /** The operands `vs` hold the values of `es`, and code that follows does not disturb them; or execution traps. */
  ghost predicate AllComputed(ar: Arithmetic, p: seq<Block>, st: State, st': State, vs: seq<Operand>, s: Store,
        m: Store, r: Option<seq<int>>, n: nat, m': Store)
    requires Ok(st) && Ok(st')
  {
    match r
    case Some(xs) =>
      && Leads(ar, p, st, m, n, st', m') && Agrees(s, m') && TempsKept(st.uid, m, m') && |vs| == |xs|
      && forall i :: 0 <= i < |vs| ==> Stable(vs[i], st'.uid) && Value(vs[i], m') == xs[i]
    case None => Run(ar, p, Here(st, m), n) == Trapped
  }

  /** Arguments are computed from left to right, and no later one disturbs an earlier one. */
  lemma {:induction false} ArgumentsCompute(ar: Arithmetic, p: seq<Block>, es: seq<Expression>, st: State,
        vars: set<string>, s: Store, m: Store)
    returns (n: nat, m': Store)
    requires Ready(st, vars, s, m) && PlainExpressions(es, vars) && Contains(p, GenExpressions(es, st).0)
    ensures AllComputed(ar, p, st, GenExpressions(es, st).0, GenExpressions(es, st).1, s, m, EvalAll(ar, es, s), n, m')
    decreases es
  {
    ReadyOk(st, vars, s, m);
    if es == [] {
      n, m' := 0, m;
    } else {
      hide Ready, GenExpression, Contains, Computes, AllComputed, Inline, Ok;
      var (st1, v) := GenExpression(es[0], st);
      var (st2, vs) := GenExpressions(es[1..], st1);
      InlineContains(p, st1, st2);
      InlineContains(p, st, st1);
      n, m' := ExpressionComputes(ar, p, es[0], st, vars, s, m);
      var x := Eval(ar, es[0], s);
      ReadyAfter(ar, p, st, st1, v, vars, s, m, x, n, m');
      var n2, m2 := 0, m';
      if x.Some? {
        n2, m2 := ArgumentsCompute(ar, p, es[1..], st1, vars, s, m');
      }
      n, m' := OneMore(ar, p, st, st1, st2, v, vs, s, m, x, n, m', EvalAll(ar, es[1..], s), n2, m2);
    }
  }

  lemma OneMore(ar: Arithmetic, p: seq<Block>, st: State, st1: State, st2: State, v: Operand, vs: seq<Operand>,
        s: Store, m: Store, x: Option<int>, n1: nat, m1: Store, xs: Option<seq<int>>, n2: nat, m2: Store)
    returns (n: nat, m': Store)
    requires Ok(st) && Ok(st1) && Ok(st2) && st.uid <= st1.uid <= st2.uid
    requires Computes(ar, p, st, st1, v, s, m, x, n1, m1)
    requires x.Some? ==> AllComputed(ar, p, st1, st2, vs, s, m1, xs, n2, m2)
    ensures AllComputed(ar, p, st, st2, [v] + vs, s, m,
      if x.None? || xs.None? then None else Some([x.value] + xs.value), n, m')
  {
    hide Run, Agrees, Ok;
    if x.None? {
      n, m' := n1, m1;
    } else {
      n, m' := n1 + n2, m2;
      if xs.None? {
        LeadsTrap(ar, p, st, m, n1, st1, m1, n2);
      } else {
        LeadsThen(ar, p, st, m, n1, st1, m1, n2, st2, m2);
        StableValue(v, st1.uid, s, m1, m2);
      }
    }
  }

  /** What the first `n` steps from `c` push. */
  ghost function Pushed(ar: Arithmetic, p: seq<Block>, c: Config, n: nat): seq<int>
    decreases n
  {
    if n == 0 || c.b >= |p| || c.i >= |p[c.b].code| || !Step(ar, p, c).At? then []
    else
      var here := p[c.b].code[c.i];
      (if here.Param? then [Value(here.a, c.store)] else []) + Pushed(ar, p, Step(ar, p, c).c, n - 1)
  }

  lemma {:induction false} ParamsPush(ar: Arithmetic, p: seq<Block>, c: Config, vs: seq<Operand>)
    requires c.b < |p| && c.i + |vs| <= |p[c.b].code|
    requires forall k :: 0 <= k < |vs| ==> p[c.b].code[c.i + k] == Param(vs[k])
    ensures Run(ar, p, c, |vs|) == At(c.(i := c.i + |vs|))
    ensures |Pushed(ar, p, c, |vs|)| == |vs|
    ensures forall k :: 0 <= k < |vs| ==> Pushed(ar, p, c, |vs|)[k] == Value(vs[k], c.store)
    decreases |vs|
  {
    if vs != [] {
      assert p[c.b].code[c.i + 0] == Param(vs[0]);
      ParamsPush(ar, p, c.(i := c.i + 1), vs[1..]);
    }
  }

  /** Running the code of a call, execution traps when an argument does; else it comes to the call, and what was
      pushed on the last stretch are the values of the arguments, in order. */
  lemma CallPushes(ar: Arithmetic, p: seq<Block>, callee: Operand, es: seq<Expression>, st: State, vars: set<string>,
        s: Store, m: Store)
    returns (n: nat, d: Config)
    requires Ready(st, vars, s, m) && PlainExpressions(es, vars)
    requires var (st1, vs) := GenExpressions(es, st); Contains(p, CreateCall(st1, callee, vs).0)
    ensures var xs := EvalAll(ar, es, s);
      if xs.None? then Run(ar, p, Here(st, m), n) == Trapped
      else
        && Run(ar, p, Here(st, m), n) == At(d) && Pushed(ar, p, d, |es|) == xs.value && Agrees(s, d.store)
        && Run(ar, p, d, |es|) == At(d.(i := d.i + |es|)) && d.b < |p|
        && d.i + |es| < |p[d.b].code| && p[d.b].code[d.i + |es|] == Call(callee)
  {
    hide GenExpressions, EvalAll, Agrees, Ready;
    ReadyOk(st, vars, s, m);
    var (st1, vs) := GenExpressions(es, st);
    var st2 := CreateCall(st1, callee, vs).0;
    InlineContains(p, st1, st2);
    var m';
    n, m' := ArgumentsCompute(ar, p, es, st, vars, s, m);
    d := Here(st1, m');
    if EvalAll(ar, es, s).Some? {
      CallCode(p, st1, callee, vs);
      ParamsPush(ar, p, d, vs);
    }
  }

  lemma CallCode(p: seq<Block>, st: State, callee: Operand, vs: seq<Operand>)
    requires Ok(st) && Contains(p, CreateCall(st, callee, vs).0)
    ensures var (b, i) := (st.insert, |CodeOf(st)|);
      && b < |p| && i + |vs| < |p[b].code| && p[b].code[i + |vs|] == Call(callee)
      && forall k :: 0 <= k < |vs| ==> p[b].code[i + k] == Param(vs[k])
  {
    var st2 := CreateCall(st, callee, vs).0;
    var code := seq(|vs|, i requires 0 <= i < |vs| => Param(vs[i])) + [Call(callee)];
    assert CodeOf(st2) == CodeOf(st) + code;
    forall k: nat | k <= |vs|
      ensures st.insert < |p| && |CodeOf(st)| + k < |p[st.insert].code|
        && p[st.insert].code[|CodeOf(st)| + k] == code[k]
    {
      InstrAt(p, st2, |CodeOf(st)| + k);
    }
  }
}
