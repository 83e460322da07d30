/** Code generation for declarations, subprograms and whole programs. */
module Subprograms {
  import opened Ast
  import opened Names
  import opened Tac
  import opened Codegen
  import opened Semantics
  import opened ExpressionProof
  import opened BlockFrame
  import opened StatementProof
  import opened Labels
  import opened Preservation

  function NameOf(id: Identifier): string {
    if id.NullIdentifier? then "" else Lower(id.name)
  }

  function GenDeclarations(ds: seq<Declaration>, st: State): (r: State)
    requires Ok(st)
    ensures Ok(r) && Inline(st, r) && r.blocks == st.blocks && r.uid == st.uid
    decreases |ds|
  {
    if ds == [] then st
    else GenDeclarations(ds[1..], AddSymbol(st, Owner(st), Symbol(NameOf(ds[0].id), false)))
  }

  /** A new function inside the one that owns the insert block; its name becomes a symbol there. */
  function CreateFunction(st: State, name: string): (r: (State, nat))
    requires Ok(st)
    ensures Ok(r.0) && Extends(st, r.0) && r.1 == |st.functions| < |r.0.functions|
    ensures r.0.blocks == st.blocks && r.0.uid == st.uid && r.0.insert == st.insert
  {
    var st1 := AddSymbol(st, Owner(st), Symbol(name, true));
    (st1.(functions := st1.functions + [Function(name, Owner(st), [])]), |st.functions|)
  }

  /** The state in which the body of a subprogram is generated: a new function, its first block, its symbols. */
  function BeforeBody(sp: Subprogram, st: State): (r: State)
    requires Ok(st) && sp.Subprogram?
    ensures Ok(r) && Extends(st, r) && |st.blocks| < |r.blocks|
  {
    var (st1, f) := CreateFunction(st, NameOf(sp.name));
    var (st2, b) := CreateBlock(st1, "", f);
    var st3 := SetInsert(st2, b);
    var r := if sp.declarations.Declarations? then GenDeclarations(sp.declarations.list, st3) else st3;
    hide Ok, Extends;
    ExtendsThen(st, st1, st2);
    ExtendsThen(st, st2, st3);
    ExtendsThen(st, st3, r);
    r
  }

  /** The state behind the body of a subprogram, before its return. */
  function AfterBody(sp: Subprogram, st: State): (r: State)
    requires Ok(st) && sp.Subprogram?
    ensures Ok(r) && Extends(st, r) && |st.blocks| < |r.blocks|
  {
    hide Ok, Extends, BeforeBody;
    ExtendsThen(st, BeforeBody(sp, st), GenStatement(sp.body, BeforeBody(sp, st)));
    GenStatement(sp.body, BeforeBody(sp, st))
  }

  /** Code of a subprogram in blocks of its own, ended by a return; the insert block is put back. */
  function GenSubprogram(sp: Subprogram, st: State): (r: State)
    requires Ok(st)
    ensures Ok(r) && Extends(st, r) && |st.blocks| <= |r.blocks|
  {
    if sp.NullSubprogram? then st
    else
      assert st.insert < |st.blocks|;
      hide Ok, Extends, AfterBody;
      var st5 := AfterBody(sp, st);
      var st6 := Emit(st5, [Return]);
      ExtendsThen(st, st5, st6);
      ExtendsThen(st, st6, st6.(insert := st.insert));
      SetInsert(st6, st.insert)
  }

  function GenSubprograms(sps: seq<Subprogram>, st: State): (r: State)
    requires Ok(st)
    ensures Ok(r) && Extends(st, r) && |st.blocks| <= |r.blocks|
    decreases |sps|
  {
    if sps == [] then st
    else
      hide Ok, Extends, GenSubprogram;
      var st1 := GenSubprogram(sps[0], st);
      var r := GenSubprograms(sps[1..], st1);
      ExtendsThen(st, st1, r);
      r
  }

  /** The builder with the block of the main program, before anything else. */
  function Opening(name: string): (st: State)
    ensures Ok(st)
  {
    State(0, [Function("", 0, [Symbol("writeln", true)])], [Block(name, 0, [])], 0)
  }

  /** The state in which the code of the main program is generated. */
  function BeforeMain(program: Program): (st: State)
    requires program.Program?
    ensures Ok(st)
  {
    var st := Opening(NameOf(program.programName));
    var st1 := if program.variables.Declarations? then GenDeclarations(program.variables.list, st) else st;
    var st2 := if program.functions.Subprograms? then GenSubprograms(program.functions.list, st1) else st1;
    SetInsert(st2, 0)
  }

  function GenProgram(program: Program): (st: State)
    requires program.Program?
    ensures Ok(st)
  {
    GenStatement(program.mainProgram, BeforeMain(program))
  }

  // ----- blocks -----

  /** Nothing that was there changed, the insert block is the old one, and no new block is open. */
  ghost predicate Completed(st: State, r: State) {
    && |st.blocks| <= |r.blocks| && r.insert == st.insert && r.blocks[..|st.blocks|] == st.blocks
    && forall b: nat :: |st.blocks| <= b < |r.blocks| ==> Ended(r.blocks[b]) && r.blocks[b].owner >= |st.functions|
  }

  lemma EntryBlock(sp: Subprogram, st: State)
    requires Ok(st) && sp.Subprogram?
    ensures var r := BeforeBody(sp, st);
      && r.blocks == st.blocks + [Block(BlockLabel(st.uid + 1), |st.functions|, [])] && r.insert == |st.blocks|
      && r.uid == st.uid + 1 && CodeOf(r) == [] && Owner(r) == |st.functions| && |r.functions| == |st.functions| + 1
      && r.functions[|st.functions|].name == NameOf(sp.name) && r.functions[|st.functions|].parent == Owner(st)
  {
  }

  /** A finished subprogram leaves no block of its own open and restores the insert block. */
  lemma SubprogramCompleted(sp: Subprogram, st: State)
    requires Ok(st)
    ensures Completed(st, GenSubprogram(sp, st))
  {
    hide GenStatement, BeforeBody, Frame;
    if sp.Subprogram? {
      var st4 := BeforeBody(sp, st);
      EntryBlock(sp, st);
      StatementFrame(sp.body, st4);
      BodyCompleted(st, st4, AfterBody(sp, st));
    }
  }

  lemma BodyCompleted(st: State, st4: State, st5: State)
    requires Ok(st) && Ok(st5) && Frame(st4, st5) && st4.insert == |st.blocks| && |st4.blocks| == |st.blocks| + 1
    requires st4.blocks[..|st.blocks|] == st.blocks && st4.blocks[st4.insert].owner == |st.functions|
    ensures Completed(st, SetInsert(Emit(st5, [Return]), st.insert))
  {
    hide Extends, Inline;
    assert forall i :: 0 <= i < |st.blocks| ==> st5.blocks[i] == st4.blocks[..|st.blocks|][i];
  }

  lemma CompletedThen(a: State, b: State, c: State)
    requires Completed(a, b) && Completed(b, c) && |a.functions| <= |b.functions|
    ensures Completed(a, c)
  {
    assert c.blocks[..|a.blocks|] == c.blocks[..|b.blocks|][..|a.blocks|];
    forall i: nat | |a.blocks| <= i < |c.blocks| ensures Ended(c.blocks[i]) && c.blocks[i].owner >= |a.functions| {
      if i < |b.blocks| {
        assert c.blocks[..|b.blocks|][i] == b.blocks[i];
      }
    }
  }

  lemma {:induction false} SubprogramsCompleted(sps: seq<Subprogram>, st: State)
    requires Ok(st)
    ensures Completed(st, GenSubprograms(sps, st))
    decreases |sps|
  {
    if sps != [] {
      var st1 := GenSubprogram(sps[0], st);
      SubprogramCompleted(sps[0], st);
      SubprogramsCompleted(sps[1..], st1);
      CompletedThen(st, st1, GenSubprograms(sps[1..], st1));
    }
  }

  // ----- labels -----

  lemma SubprogramLabels(sp: Subprogram, st: State)
    requires Ok(st) && LabelsOk(st)
    ensures LabelsOk(GenSubprogram(sp, st))
  {
    if sp.Subprogram? {
      var (st1, f) := CreateFunction(st, NameOf(sp.name));
      EntryBlock(sp, st);
      BlockLabels(st1, f);
      hide GenStatement;
      StatementLabels(sp.body, BeforeBody(sp, st));
      StraightLabels(AfterBody(sp, st), [Return]);
    }
  }

  lemma {:induction false} SubprogramsLabels(sps: seq<Subprogram>, st: State)
    requires Ok(st) && LabelsOk(st)
    ensures LabelsOk(GenSubprograms(sps, st))
    decreases |sps|
  {
    if sps != [] {
      SubprogramLabels(sps[0], st);
      SubprogramsLabels(sps[1..], GenSubprogram(sps[0], st));
    }
  }

  // ----- whole programs -----

  lemma OpeningLabels(name: string)
    requires IsUserName(name)
    ensures LabelsOk(Opening(name))
  {
  }

  /** Before the main program is generated, its block is still empty and every other block is closed. */
  lemma BeforeMainFrame(program: Program)
    requires program.Program? && IsUserName(NameOf(program.programName))
    ensures var st := BeforeMain(program);
      && LabelsOk(st) && st.insert == 0 && CodeOf(st) == [] && st.blocks[0].owner == 0
      && forall b: nat :: 0 < b < |st.blocks| ==> Ended(st.blocks[b])
  {
    var st := Opening(NameOf(program.programName));
    var st1 := if program.variables.Declarations? then GenDeclarations(program.variables.list, st) else st;
    var st2 := if program.functions.Subprograms? then GenSubprograms(program.functions.list, st1) else st1;
    OpeningLabels(NameOf(program.programName));
    hide Known, GenSubprograms, GenDeclarations, Ok, Extends, Inline;
    if program.functions.Subprograms? {
      SubprogramsCompleted(program.functions.list, st1);
      SubprogramsLabels(program.functions.list, st1);
      assert st2.blocks[..1][0] == st.blocks[0];
    }
  }

  /** In the code of a program every jump finds exactly one place, and only the block the main program
      ends in has no terminator. */
  lemma ProgramClosed(program: Program)
    requires program.Program? && IsUserName(NameOf(program.programName))
    ensures var r := GenProgram(program);
      && UniqueTargets(r.blocks) && Closed(r.blocks)
      && r.blocks[r.insert].owner == 0
      && forall b: nat :: b < |r.blocks| && b != r.insert ==> Ended(r.blocks[b])
  {
    var st := BeforeMain(program);
    BeforeMainFrame(program);
    hide BeforeMain, GenStatement, Ok;
    StatementLabels(program.mainProgram, st);
    StatementFrame(program.mainProgram, st);
  }

  /** The names of the program's variables. */
  function VariableNames(ds: seq<Declaration>): (r: set<string>) {
    if ds == [] then {} else {NameOf(ds[0].id)} + VariableNames(ds[1..])
  }

  lemma {:induction false} DeclaredSeen(ds: seq<Declaration>, st: State, x: string)
    requires Ok(st) && x in VariableNames(ds)
    ensures Lookup(GenDeclarations(ds, st).functions, Owner(st), x).Some?
    decreases |ds|
  {
    var st1 := AddSymbol(st, Owner(st), Symbol(NameOf(ds[0].id), false));
    if x == NameOf(ds[0].id) {
      FoundLast(st.functions[Owner(st)].symbols, x, false);
      assert Lookup(st1.functions, Owner(st), x).Some?;
      LookupExtends(st1, GenDeclarations(ds, st), Owner(st), x);
    } else {
      DeclaredSeen(ds[1..], st1, x);
    }
  }

  lemma {:induction false} FoundLast(symbols: seq<Symbol>, x: string, isFunction: bool)
    ensures LookupIn(symbols + [Symbol(x, isFunction)], x).Some?
  {
    if symbols != [] {
      assert (symbols + [Symbol(x, isFunction)])[1..] == symbols[1..] + [Symbol(x, isFunction)];
      FoundLast(symbols[1..], x, isFunction);
    }
  }

  lemma VariablesSeen(program: Program)
    requires program.Program? && IsUserName(NameOf(program.programName)) && program.variables.Declarations?
    ensures Sees(BeforeMain(program), VariableNames(program.variables.list))
  {
    var vars := VariableNames(program.variables.list);
    var st := Opening(NameOf(program.programName));
    var st1 := GenDeclarations(program.variables.list, st);
    var r := BeforeMain(program);
    BeforeMainFrame(program);
    forall x | x in vars ensures Lookup(r.functions, 0, x).Some? {
      DeclaredSeen(program.variables.list, st, x);
      LookupExtends(st1, r, 0, x);
    }
  }

  /** A program whose main statement uses only its declared variables, run from its first block, does
      what the statement does. */
  lemma ProgramPreserved(ar: Arithmetic, program: Program, v: Store, m: Store)
    requires program.Program? && IsUserName(NameOf(program.programName)) && program.variables.Declarations?
    requires PlainStatement(program.mainProgram, VariableNames(program.variables.list)) && Agrees(v, m)
    ensures var r := GenProgram(program);
      SameBehaviour(ar, r.blocks, StartOf(0, m), r, program.mainProgram, v)
  {
    var st := BeforeMain(program);
    BeforeMainFrame(program);
    VariablesSeen(program);
    assert Here(st, m) == StartOf(0, m);
    StatementPreserved(ar, program.mainProgram, st, VariableNames(program.variables.list), v, m);
  }
}
