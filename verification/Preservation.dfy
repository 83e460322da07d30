/** Code generation preserves meaning. */
module Preservation {
  import opened Ast
  import opened Tac
  import opened Codegen
  import opened Semantics
  import opened ExpressionProof
  import opened StatementProof
  import opened Labels

  /** Execution from `c` ends with `o`. */
  ghost predicate EndsWith(ar: Arithmetic, p: seq<Block>, c: Config, o: Outcome) {
    exists n: nat :: Run(ar, p, c, n) == o && !o.At?
  }

  ghost predicate RunsForever(ar: Arithmetic, p: seq<Block>, c: Config) {
    forall n: nat :: Run(ar, p, c, n).At?
  }

  /** Running `p` from `c` does what `s` does to `v`; it can end only at the end of the insert block of `r`. */
  ghost predicate SameBehaviour(ar: Arithmetic, p: seq<Block>, c: Config, r: State, s: Statement, v: Store)
    requires Ok(r)
  {
    && (forall v' :: Terminates(ar, s, v, v') ==>
         exists m' :: Agrees(v', m') && EndsWith(ar, p, c, Halted(Here(r, m'))))
    && (forall d :: EndsWith(ar, p, c, Halted(d)) ==>
         d == Here(r, d.store) && exists v' :: Terminates(ar, s, v, v') && Agrees(v', d.store))
    && (Traps(ar, s, v) <==> EndsWith(ar, p, c, Trapped))
    && (Diverges(ar, s, v) <==> RunsForever(ar, p, c))
  }

  /** In `p` nothing follows what was generated up to `r`, or a return does. */
  ghost predicate StopsAt(p: seq<Block>, r: State)
    requires Ok(r)
  {
    && r.insert < |p| && CodeOf(r) <= p[r.insert].code
    && (p[r.insert].code == CodeOf(r) || p[r.insert].code[|CodeOf(r)|] == Return)
  }

  /** How the run ends, given enough fuel to follow it. */
  lemma RunWithFuel(ar: Arithmetic, p: seq<Block>, s: Statement, st: State, vars: set<string>, v: Store, m: Store,
        fuel: nat)
    returns (n: nat, m': Store)
    requires Ready(st, vars, v, m) && PlainStatement(s, vars) && Contains(p, GenStatement(s, st))
    requires StopsAt(p, GenStatement(s, st))
    ensures var c := Here(st, m);
      match Exec(ar, s, v, fuel)
      case Done(v') => Agrees(v', m') && Run(ar, p, c, n) == Halted(Here(GenStatement(s, st), m'))
      case Trap => Run(ar, p, c, n) == Trapped
      case OutOfFuel => fuel <= n && Run(ar, p, c, n).At?
  {
    hide Exec, GenStatement, PlainStatement, Agrees, Contains, Ready, Run, Ok, StopsAt;
    ReadyOk(st, vars, v, m);
    var r := GenStatement(s, st);
    n, m' := StatementRuns(ar, p, s, st, vars, v, m, fuel);
    if Exec(ar, s, v, fuel).Done? {
      ThenHalts(ar, p, Here(st, m), n, r, m');
      n := n + 1;
    }
  }

  lemma ThenHalts(ar: Arithmetic, p: seq<Block>, c: Config, n: nat, r: State, m: Store)
    requires Ok(r) && StopsAt(p, r) && Run(ar, p, c, n) == At(Here(r, m))
    ensures Run(ar, p, c, n + 1) == Halted(Here(r, m))
  {
    hide Ok, StopsAt, Run;
    EndHalts(ar, p, r, m);
    RunThen(ar, p, c, n, Here(r, m), 1);
  }

  /** There execution halts. */
  lemma EndHalts(ar: Arithmetic, p: seq<Block>, r: State, m: Store)
    requires Ok(r) && StopsAt(p, r)
    ensures Run(ar, p, Here(r, m), 1) == Halted(Here(r, m))
  {
  }

  /** Execution ends in one way only, and does not go on after it has ended. */
  lemma OneEnd(ar: Arithmetic, p: seq<Block>, c: Config, k: nat, n: nat)
    ensures !Run(ar, p, c, k).At? && k <= n ==> Run(ar, p, c, n) == Run(ar, p, c, k)
    ensures !Run(ar, p, c, n).At? && n <= k ==> Run(ar, p, c, n) == Run(ar, p, c, k)
  {
    hide Run;
    if !Run(ar, p, c, k).At? && k <= n { RunEnded(ar, p, c, k, n); }
    if !Run(ar, p, c, n).At? && n <= k { RunEnded(ar, p, c, n, k); }
  }

  /** The code of `s`, generated from `st`, stands in `p`, with nothing or a return behind it. */
  ghost predicate Embedded(p: seq<Block>, s: Statement, st: State, vars: set<string>, v: Store, m: Store) {
    && Ready(st, vars, v, m) && PlainStatement(s, vars) && Contains(p, GenStatement(s, st))
    && StopsAt(p, GenStatement(s, st))
  }

  lemma EmbeddedSelf(s: Statement, st: State, vars: set<string>, v: Store, m: Store)
    requires Ready(st, vars, v, m) && PlainStatement(s, vars)
    requires var r := GenStatement(s, st); Contains(r.blocks, r)
    ensures Embedded(GenStatement(s, st).blocks, s, st, vars, v, m)
  {
    hide GenStatement, PlainStatement, Agrees, Contains, UniqueTargets, Sees;
  }

  lemma EndsHalted(ar: Arithmetic, p: seq<Block>, s: Statement, st: State, vars: set<string>, v: Store, m: Store,
        d: Config)
    requires Embedded(p, s, st, vars, v, m)
    ensures var r := GenStatement(s, st);
      EndsWith(ar, p, Here(st, m), Halted(d)) ==>
      d == Here(r, d.store) && exists v' :: Terminates(ar, s, v, v') && Agrees(v', d.store)
  {
    hide Exec, GenStatement, PlainStatement, Agrees, Contains, Run, Ready;
    ReadyOk(st, vars, v, m);
    var c := Here(st, m);
    if EndsWith(ar, p, c, Halted(d)) {
      var k: nat :| Run(ar, p, c, k) == Halted(d);
      var n, m' := RunWithFuel(ar, p, s, st, vars, v, m, k);
      OneEnd(ar, p, c, k, n);
      assert Terminates(ar, s, v, Exec(ar, s, v, k).store);
    }
  }

  lemma EndsTrapped(ar: Arithmetic, p: seq<Block>, s: Statement, st: State, vars: set<string>, v: Store, m: Store)
    requires Embedded(p, s, st, vars, v, m)
    ensures Traps(ar, s, v) <==> EndsWith(ar, p, Here(st, m), Trapped)
  {
    hide Exec, GenStatement, PlainStatement, Agrees, Contains, Run, Ready;
    ReadyOk(st, vars, v, m);
    var c := Here(st, m);
    if Traps(ar, s, v) {
      var fuel: nat :| Exec(ar, s, v, fuel) == Trap;
      var n, m' := RunWithFuel(ar, p, s, st, vars, v, m, fuel);
    }
    if EndsWith(ar, p, c, Trapped) {
      var k: nat :| Run(ar, p, c, k) == Trapped;
      var n, m' := RunWithFuel(ar, p, s, st, vars, v, m, k);
      OneEnd(ar, p, c, k, n);
      assert Exec(ar, s, v, k) == Trap;
    }
  }

  lemma NeverEnds(ar: Arithmetic, p: seq<Block>, s: Statement, st: State, vars: set<string>, v: Store, m: Store)
    requires Embedded(p, s, st, vars, v, m)
    ensures Diverges(ar, s, v) <==> RunsForever(ar, p, Here(st, m))
  {
    hide Exec, GenStatement, PlainStatement, Agrees, Contains, Run, Ready;
    ReadyOk(st, vars, v, m);
    var c := Here(st, m);
    if Diverges(ar, s, v) {
      forall k: nat ensures Run(ar, p, c, k).At? {
        var n, m' := RunWithFuel(ar, p, s, st, vars, v, m, k);
        OneEnd(ar, p, c, k, n);
      }
    }
    if RunsForever(ar, p, c) {
      forall fuel: nat ensures Exec(ar, s, v, fuel) == OutOfFuel {
        var n, m' := RunWithFuel(ar, p, s, st, vars, v, m, fuel);
      }
    }
  }

  lemma EndsDone(ar: Arithmetic, p: seq<Block>, s: Statement, st: State, vars: set<string>, v: Store, m: Store,
        v': Store)
    requires Embedded(p, s, st, vars, v, m)
    ensures Terminates(ar, s, v, v') ==>
      exists m' :: Agrees(v', m') && EndsWith(ar, p, Here(st, m), Halted(Here(GenStatement(s, st), m')))
  {
    hide Exec, GenStatement, PlainStatement, Agrees, Contains, Run, Ready;
    ReadyOk(st, vars, v, m);
    if Terminates(ar, s, v, v') {
      var fuel: nat :| Exec(ar, s, v, fuel) == Done(v');
      var n, m' := RunWithFuel(ar, p, s, st, vars, v, m, fuel);
      assert EndsWith(ar, p, Here(st, m), Halted(Here(GenStatement(s, st), m')));
    }
  }

  lemma Simulation(ar: Arithmetic, p: seq<Block>, s: Statement, st: State, vars: set<string>, v: Store, m: Store)
    requires Embedded(p, s, st, vars, v, m)
    ensures SameBehaviour(ar, p, Here(st, m), GenStatement(s, st), s, v)
  {
    hide Exec, GenStatement, PlainStatement, Agrees, Contains, Run, Ready, Terminates, EndsWith, Traps, Diverges,
      RunsForever;
    ReadyOk(st, vars, v, m);
    var c, r := Here(st, m), GenStatement(s, st);
    forall v'
      ensures Terminates(ar, s, v, v') ==> exists m' :: Agrees(v', m') && EndsWith(ar, p, c, Halted(Here(r, m')))
    {
      EndsDone(ar, p, s, st, vars, v, m, v');
    }
    forall d ensures EndsWith(ar, p, c, Halted(d)) ==>
      d == Here(r, d.store) && exists v' :: Terminates(ar, s, v, v') && Agrees(v', d.store) {
      EndsHalted(ar, p, s, st, vars, v, m, d);
    }
    EndsTrapped(ar, p, s, st, vars, v, m);
    NeverEnds(ar, p, s, st, vars, v, m);
  }

  /** Running the blocks from the old insert point ends exactly when the statement does, at the end of
      the new insert block with the same user variables; it traps and diverges exactly when the statement does. */
  lemma StatementPreserved(ar: Arithmetic, s: Statement, st: State, vars: set<string>, v: Store, m: Store)
    requires Ready(st, vars, v, m) && LabelsOk(st) && PlainStatement(s, vars)
    ensures var r := GenStatement(s, st); SameBehaviour(ar, r.blocks, Here(st, m), r, s, v)
  {
    ReadyOk(st, vars, v, m);
    var r := GenStatement(s, st);
    hide GenStatement, Ready, Agrees, PlainStatement, Closed, AllKnown, UniqueTargets;
    StatementLabels(s, st);
    assert Contains(r.blocks, r);
    hide *;
    assert Embedded(r.blocks, s, st, vars, v, m) by { EmbeddedSelf(s, st, vars, v, m); }
    Simulation(ar, r.blocks, s, st, vars, v, m);
  }
}
