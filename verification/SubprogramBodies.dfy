/** The code of a subprogram does what its body means, wherever the subprogram stands. */
module SubprogramBodies {
  import opened Ast
  import opened Names
  import opened Tac
  import opened Codegen
  import opened Semantics
  import opened ExpressionProof
  import opened BlockFrame
  import opened StatementProof
  import opened Labels
  import opened Preservation
  import opened Subprograms

  // ----- scope -----

  /** The names a subprogram adds to what is in scope around it: its own, for its result, and its variables. */
  function OwnNames(sp: Subprogram): set<string>
    requires sp.Subprogram?
  {
    {NameOf(sp.name)} + if sp.declarations.Declarations? then VariableNames(sp.declarations.list) else {}
  }

  /** What is found from a function without symbols is what is found from the function around it. */
  lemma FoundOutside(functions: seq<Function>, f: nat, x: string)
    requires f < |functions| && forall g :: 0 <= g < |functions| ==> functions[g].parent <= g
    requires functions[f].symbols == [] && functions[f].parent < f
    ensures Lookup(functions, f, x) == Lookup(functions, functions[f].parent, x)
  {
  }

  /** From inside a subprogram the names in scope around it are found, its own name, and its variables. */
  lemma BodySees(sp: Subprogram, st: State, outer: set<string>)
    requires Ok(st) && sp.Subprogram? && Sees(st, outer)
    ensures Sees(BeforeBody(sp, st), outer + OwnNames(sp))
  {
    var (st1, f) := CreateFunction(st, NameOf(sp.name));
    var (st2, b) := CreateBlock(st1, "", f);
    var st3 := SetInsert(st2, b);
    var st4 := BeforeBody(sp, st);
    EntryBlock(sp, st);
    FoundLast(st.functions[Owner(st)].symbols, NameOf(sp.name), true);
    hide GenDeclarations, VariableNames;
    forall x | x in outer + OwnNames(sp) ensures Lookup(st4.functions, f, x).Some? {
      if sp.declarations.Declarations? && x in VariableNames(sp.declarations.list) {
        DeclaredSeen(sp.declarations.list, st3, x);
      } else {
        OuterSeen(st, st1, x, NameOf(sp.name));
        FoundOutside(st1.functions, f, x);
        LookupExtends(st3, st4, f, x);
      }
    }
  }

  lemma OuterSeen(st: State, st1: State, x: string, name: string)
    requires Ok(st) && st1 == CreateFunction(st, name).0
    requires x == name || Lookup(st.functions, Owner(st), x).Some?
    ensures Lookup(st1.functions, Owner(st), x).Some?
  {
    if x == name {
      FoundLast(st.functions[Owner(st)].symbols, x, true);
    } else {
      LookupExtends(st, st1, Owner(st), x);
    }
  }

  // ----- meaning -----

  /** In any code that contains the subprogram's, running from its first block does what its body does: it halts
      exactly when the body ends, before the return, in a block of the new function. */
  lemma SubprogramPreserved(ar: Arithmetic, sp: Subprogram, st: State, p: seq<Block>, outer: set<string>, v: Store,
        m: Store)
    requires Ok(st) && sp.Subprogram? && Sees(st, outer) && PlainStatement(sp.body, outer + OwnNames(sp))
    requires Grows(GenSubprogram(sp, st).blocks, p) && UniqueTargets(p) && Agrees(v, m)
    ensures SameBehaviour(ar, p, StartOf(|st.blocks|, m), AfterBody(sp, st), sp.body, v)
    ensures var r := AfterBody(sp, st);
      && r.insert < |p| && p[r.insert].owner == |st.functions|
      && |CodeOf(r)| < |p[r.insert].code| && p[r.insert].code[|CodeOf(r)|] == Return
    ensures p[|st.blocks|].owner == |st.functions|
  {
    var st4 := BeforeBody(sp, st);
    var r := AfterBody(sp, st);
    EntryBlock(sp, st);
    BodySees(sp, st, outer);
    hide GenStatement, BeforeBody, PlainStatement, Agrees, UniqueTargets, Sees, Lookup;
    ReturnBehind(sp, st, p);
    BodyOwner(sp, st);
    assert Here(st4, m) == StartOf(|st.blocks|, m);
    Simulation(ar, p, sp.body, st4, outer + OwnNames(sp), v, m);
  }

  lemma ReturnBehind(sp: Subprogram, st: State, p: seq<Block>)
    requires Ok(st) && sp.Subprogram? && Grows(GenSubprogram(sp, st).blocks, p)
    ensures var r := AfterBody(sp, st);
      && Grows(r.blocks, p) && StopsAt(p, r) && |CodeOf(r)| < |p[r.insert].code|
      && p[r.insert].code[|CodeOf(r)|] == Return && p[r.insert].owner == Owner(r)
  {
    hide GenStatement, BeforeBody;
    var r := AfterBody(sp, st);
    var r6 := Emit(r, [Return]);
    assert Grows(r6.blocks, p);
    assert CodeOf(r6) == CodeOf(r) + [Return];
    assert CodeOf(r6)[|CodeOf(r)|] == Return;
  }

  lemma BodyOwner(sp: Subprogram, st: State)
    requires Ok(st) && sp.Subprogram?
    ensures Owner(AfterBody(sp, st)) == |st.functions|
  {
    hide GenStatement, BeforeBody;
    EntryBlock(sp, st);
    StatementFrame(sp.body, BeforeBody(sp, st));
  }

  // ----- subprograms of a program -----

  /** The state in which the code of subprogram `i` is generated. */
  function BeforeSubprogram(program: Program, i: nat): (st: State)
    requires program.Program? && program.functions.Subprograms? && i <= |program.functions.list|
    ensures Ok(st)
  {
    var st := Opening(NameOf(program.programName));
    var st1 := if program.variables.Declarations? then GenDeclarations(program.variables.list, st) else st;
    GenSubprograms(program.functions.list[..i], st1)
  }

  lemma {:induction false} SubprogramsGrow(sps: seq<Subprogram>, st: State, i: nat)
    requires Ok(st) && i < |sps|
    ensures Extends(st, GenSubprograms(sps[..i], st)) && GenSubprograms(sps[..i], st).insert == st.insert
    ensures Extends(GenSubprogram(sps[i], GenSubprograms(sps[..i], st)), GenSubprograms(sps, st))
    decreases |sps|
  {
    hide GenSubprogram, Ok, Extends;
    if i == 0 {
    } else {
      var st1 := GenSubprogram(sps[0], st);
      SubprogramCompleted(sps[0], st);
      SubprogramsGrow(sps[1..], st1, i - 1);
      assert sps[..i][1..] == sps[1..][..i - 1];
      ExtendsThen(st, st1, GenSubprograms(sps[..i], st));
    }
  }

  /** The variables of a program. */
  function ProgramVariables(program: Program): set<string>
    requires program.Program?
  {
    if program.variables.Declarations? then VariableNames(program.variables.list) else {}
  }

  /** Subprogram `i` sees the program's variables, and its code stands in the program's. */
  lemma SubprogramStands(program: Program, i: nat)
    requires program.Program? && program.functions.Subprograms? && i < |program.functions.list|
    ensures var st := BeforeSubprogram(program, i);
      && Sees(st, ProgramVariables(program)) && Owner(st) == 0
      && Extends(GenSubprogram(program.functions.list[i], st), GenProgram(program))
  {
    var st := Opening(NameOf(program.programName));
    var st1 := if program.variables.Declarations? then GenDeclarations(program.variables.list, st) else st;
    var sps := program.functions.list;
    var r := BeforeSubprogram(program, i);
    SubprogramsGrow(sps, st1, i);
    assert Owner(st1) == 0 && Owner(r) == 0;
    hide GenSubprograms, GenSubprogram, GenStatement, GenDeclarations, Lookup, Ok, VariableNames;
    forall x | x in ProgramVariables(program) ensures Lookup(r.functions, 0, x).Some? {
      DeclaredSeen(program.variables.list, st, x);
      LookupExtends(st1, r, 0, x);
    }
    var st2 := GenSubprograms(sps, st1);
    ExtendsThen(GenSubprogram(sps[i], r), st2, SetInsert(st2, 0));
    ExtendsThen(GenSubprogram(sps[i], r), SetInsert(st2, 0), GenProgram(program));
  }

  lemma FunctionNamed(sp: Subprogram, st: State, r: State)
    requires Ok(st) && sp.Subprogram? && Extends(GenSubprogram(sp, st), r)
    ensures Grows(GenSubprogram(sp, st).blocks, r.blocks)
    ensures |st.functions| < |r.functions| && r.functions[|st.functions|].name == NameOf(sp.name)
    ensures |st.blocks| < |r.blocks|
  {
    hide GenStatement, BeforeBody;
    EntryBlock(sp, st);
  }

  /** In the code of a whole program, running subprogram `i` from its first block does what its body does, to the
      program's variables and its own; function and block are named and owned as they should be. */
  lemma ProgramSubprogramPreserved(ar: Arithmetic, program: Program, i: nat, v: Store, m: Store)
    requires program.Program? && IsUserName(NameOf(program.programName)) && program.functions.Subprograms?
    requires i < |program.functions.list| && program.functions.list[i].Subprogram? && Agrees(v, m)
    requires var sp := program.functions.list[i];
      PlainStatement(sp.body, ProgramVariables(program) + OwnNames(sp))
    ensures var (sp, st, r) := (program.functions.list[i], BeforeSubprogram(program, i), GenProgram(program));
      && SameBehaviour(ar, r.blocks, StartOf(|st.blocks|, m), AfterBody(sp, st), sp.body, v)
      && |st.functions| < |r.functions| && r.functions[|st.functions|].name == NameOf(sp.name)
      && |st.blocks| < |r.blocks| && r.blocks[|st.blocks|].owner == |st.functions|
  {
    hide *;
    var (sp, st, r) := (program.functions.list[i], BeforeSubprogram(program, i), GenProgram(program));
    SubprogramStands(program, i);
    ProgramClosed(program);
    FunctionNamed(sp, st, r);
    SubprogramPreserved(ar, sp, st, r.blocks, ProgramVariables(program), v, m);
  }
}
