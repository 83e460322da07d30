/** The builder as the compiler has it, updated in place, and the code generators that drive it. */
module TacBuilder {
  import opened Ast
  import opened Names
  import opened Tac
  import opened Codegen
  import opened Subprograms

  /** The state after the first block, which belongs to the program's function; it too is named by the counter
      when it is given no name. */
  function FirstBlock(uid: nat, functions: seq<Function>, name: string): State {
    if name == "" then State(uid + 1, functions, [Block(BlockLabel(uid + 1), 0, [])], 0)
    else State(uid, functions, [Block(name, 0, [])], 0)
  }

  /** A new function below `owner`, in whose symbol list its name is entered. */
  function WithFunction(functions: seq<Function>, owner: nat, name: string): seq<Function>
    requires owner < |functions|
  {
    var symbols := functions[owner].symbols + [Symbol(name, true)];
    functions[owner := functions[owner].(symbols := symbols)] + [Function(name, owner, [])]
  }

  class TacBuilder {
    var labelUid: nat
    var functions: seq<Function>
    var blocks: seq<Block>
    var insertBlock: Option<nat>

    /** No block exists before the first one is created; afterwards there is always an insert block. */
    ghost predicate Valid()
      reads this
    {
      if insertBlock.None? then
        && blocks == [] && functions != []
        && forall f :: 0 <= f < |functions| ==> functions[f].parent <= f
      else Ok(State(labelUid, functions, blocks, insertBlock.value))
    }

    /** The builder has an insert block. */
    ghost predicate Open()
      reads this
    {
      Valid() && insertBlock.Some?
    }

    ghost function Snapshot(): (st: State)
      requires Open()
      reads this
      ensures Ok(st)
    {
      State(labelUid, functions, blocks, insertBlock.value)
    }

    constructor ()
      ensures Valid() && insertBlock.None? && labelUid == 0 && functions == Opening("").functions
    {
      labelUid := 0;
      functions := [Function("", 0, [Symbol("writeln", true)])];
      blocks := [];
      insertBlock := None;
    }

    function InsertOwner(): nat
      requires Open()
      reads this
    {
      blocks[insertBlock.value].owner
    }

    method SetInsertBlock(b: nat)
      requires Open() && b < |blocks|
      modifies this`insertBlock
      ensures Open() && Snapshot() == SetInsert(old(Snapshot()), b)
    {
      insertBlock := Some(b);
    }

    /** The very first block belongs to the program; later ones to `parent` or to the insert block's function. */
    method CreateBasicBlock(name: string, parent: Option<nat>) returns (b: nat)
      requires Valid() && (parent.Some? ==> parent.value < |functions|)
      modifies this
      ensures Open()
      ensures old(insertBlock).None? ==>
        b == 0 && Snapshot() == FirstBlock(old(labelUid), old(functions), name)
      ensures old(insertBlock).Some? ==>
        (Snapshot(), b) == CreateBlock(old(Snapshot()), name, if parent.Some? then parent.value else old(InsertOwner()))
    {
      var owner := if parent.Some? then parent.value else if insertBlock.Some? then InsertOwner() else 0;
      if insertBlock.None? {
        owner := 0;
      }
      var blockName := name;
      if name == "" {
        labelUid := labelUid + 1;
        blockName := BlockLabel(labelUid);
      }
      b := |blocks|;
      blocks := blocks + [Block(blockName, owner, [])];
      if insertBlock.None? {
        insertBlock := Some(b);
      }
    }

    /** Writes to the insert block. */
    method Append(code: seq<Instr>)
      requires Open()
      modifies this`blocks
      ensures Open() && Snapshot() == Emit(old(Snapshot()), code)
    {
      var b := insertBlock.value;
      blocks := blocks[b := blocks[b].(code := blocks[b].code + code)];
    }

    method CreateSymbol(f: nat, s: Symbol)
      requires Open() && f < |functions|
      modifies this`functions
      ensures Open() && Snapshot() == AddSymbol(old(Snapshot()), f, s)
    {
      functions := functions[f := functions[f].(symbols := functions[f].symbols + [s])];
    }

    method NewTemporary() returns (v: Operand)
      requires Open()
      modifies this
      ensures Open() && (Snapshot(), v) == CreateTemporary(old(Snapshot()))
    {
      labelUid := labelUid + 1;
      v := Var(TempName(labelUid));
      CreateSymbol(InsertOwner(), Symbol(v.name, false));
    }

    method CreateLabel() returns (l: string)
      requires Open()
      modifies this`labelUid
      ensures Open() && labelUid == old(labelUid) + 1 && l == TempLabel(labelUid)
    {
      labelUid := labelUid + 1;
      l := TempLabel(labelUid);
    }

    /** `createAdd`, `createAnd`, `createDiv` and their like. */
    method NewBinary(op: Operator, a: Operand, b: Operand) returns (v: Operand)
      requires Open()
      modifies this
      ensures Open() && (Snapshot(), v) == CreateBinary(old(Snapshot()), op, a, b)
    {
      v := NewTemporary();
      Append([Binary(op, a, b, v.name)]);
    }

    method NewUnary(op: UnaryOp, a: Operand) returns (v: Operand)
      requires Open()
      modifies this
      ensures Open() && (Snapshot(), v) == CreateUnary(old(Snapshot()), op, a)
    {
      v := NewTemporary();
      Append([Unary(op, a, v.name)]);
    }

    /** `createCmpEq` and its like: six lines written one after the other. */
    method NewCmp(rel: Operator, a: Operand, b: Operand) returns (v: Operand)
      requires Open()
      modifies this
      ensures Open() && (Snapshot(), v) == CreateCmp(old(Snapshot()), rel, a, b)
    {
      v := NewTemporary();
      var trueLabel := CreateLabel();
      var doneLabel := CreateLabel();
      ghost var st := Snapshot();
      Append([Branch(rel, a, b, trueLabel)]);
      Append([Assign(Const(0), v)]);
      Append([Goto(doneLabel)]);
      Append([Mark(trueLabel), Assign(Const(1), v)]);
      Append([Mark(doneLabel)]);
      CmpLines(st, rel, a, b, v, trueLabel, doneLabel);
    }

    method NewBr(dest: nat)
      requires Open() && dest < |blocks|
      modifies this`blocks
      ensures Open() && Snapshot() == CreateBr(old(Snapshot()), dest)
    {
      Append([Goto(blocks[dest].name)]);
    }

    method NewBne(a: Operand, b: Operand, yes: nat) returns (no: nat)
      requires Open() && yes < |blocks|
      modifies this
      ensures Open() && (Snapshot(), no) == CreateBne(old(Snapshot()), a, b, yes)
    {
      no := CreateBasicBlock("", None);
      ghost var st := Snapshot();
      Append([Branch(NotEqual, a, b, blocks[yes].name)]);
      Append([Goto(blocks[no].name)]);
      AppendTwice(st, [Branch(NotEqual, a, b, st.blocks[yes].name)], [Goto(st.blocks[no].name)]);
      assert [Branch(NotEqual, a, b, st.blocks[yes].name)] + [Goto(st.blocks[no].name)]
          == [Branch(NotEqual, a, b, st.blocks[yes].name), Goto(st.blocks[no].name)];
    }

    /** `lookupSymbol`: a scan of the function's symbols, then of those of its parents. */
    method LookupSymbol(name: string) returns (s: Option<Symbol>)
      requires Open()
      ensures s == Lookup(functions, InsertOwner(), name)
    {
      var f: nat := InsertOwner();
      while true
        invariant f < |functions| && Lookup(functions, f, name) == Lookup(functions, InsertOwner(), name)
        decreases f
      {
        var i := 0;
        while i < |functions[f].symbols|
          invariant i <= |functions[f].symbols|
          invariant LookupIn(functions[f].symbols[i..], name) == LookupIn(functions[f].symbols, name)
        {
          if functions[f].symbols[i].name == name {
            return Some(functions[f].symbols[i]);
          }
          i := i + 1;
        }
        if functions[f].parent == f {
          return None;
        }
        f := functions[f].parent;
      }
    }

    method LookupIdentifier(id: Identifier) returns (v: Operand)
      requires Open()
      ensures v == SymbolTableLookup(Snapshot(), id)
    {
      if id.NullIdentifier? {
        return NullOperand;
      }
      var s := LookupSymbol(Lower(id.name));
      v := if s.Some? then Var(s.value.name) else NullOperand;
    }

    /** One line for every argument, then the call. */
    method NewCall(callee: Operand, arguments: seq<Operand>) returns (v: Operand)
      requires Open()
      modifies this
      ensures Open() && (Snapshot(), v) == CreateCall(old(Snapshot()), callee, arguments)
    {
      var s := None;
      if callee.Var? {
        s := LookupSymbol(callee.name);
      }
      ghost var st := Snapshot();
      ghost var lines := seq(|arguments|, i requires 0 <= i < |arguments| => Param(arguments[i]));
      assert Emit(st, []) == st by {
        assert st.blocks[st.insert].code + [] == st.blocks[st.insert].code;
      }
      for i := 0 to |arguments|
        invariant Open() && Snapshot() == Emit(st, lines[..i])
      {
        Append([Param(arguments[i])]);
        assert lines[..i + 1] == lines[..i] + [Param(arguments[i])];
        AppendTwice(st, lines[..i], [Param(arguments[i])]);
      }
      assert lines[..|arguments|] == lines;
      Append([Call(callee)]);
      AppendTwice(st, lines, [Call(callee)]);
      v := if s.Some? && s.value.isFunction then callee else NullOperand;
    }

    /** A function below the one that owns the insert block, or below the program's before any block exists. */
    method NewFunction(name: string) returns (f: nat)
      requires Valid()
      modifies this`functions
      ensures Valid() && (old(insertBlock).Some? ==> (Snapshot(), f) == CreateFunction(old(Snapshot()), name))
      ensures old(insertBlock).None? ==> f == old(|functions|) && functions == WithFunction(old(functions), 0, name)
    {
      var owner := if insertBlock.Some? then InsertOwner() else 0;
      f := |functions|;
      functions := functions[owner := functions[owner].(symbols := functions[owner].symbols + [Symbol(name, true)])];
      functions := functions + [Function(name, owner, [])];
    }
  }

  /** The lines of a comparison, written one after the other. */
  lemma CmpLines(st: State, rel: Operator, a: Operand, b: Operand, v: Operand, yes: string, done: string)
    requires Ok(st)
    ensures Emit(Emit(Emit(Emit(Emit(st, [Branch(rel, a, b, yes)]), [Assign(Const(0), v)]), [Goto(done)]),
                      [Mark(yes), Assign(Const(1), v)]), [Mark(done)])
      == Emit(st, CmpCode(rel, a, b, v, yes, done))
  {
    hide Emit;
    var (c1, c2, c3, c4, c5) :=
      ([Branch(rel, a, b, yes)], [Assign(Const(0), v)], [Goto(done)], [Mark(yes), Assign(Const(1), v)], [Mark(done)]);
    AppendTwice(st, c1, c2);
    AppendTwice(st, c1 + c2, c3);
    AppendTwice(st, c1 + c2 + c3, c4);
    AppendTwice(st, c1 + c2 + c3 + c4, c5);
    assert c1 + c2 + c3 + c4 + c5 == CmpCode(rel, a, b, v, yes, done);
  }

  lemma AppendTwice(st: State, a: seq<Instr>, b: seq<Instr>)
    requires Ok(st)
    ensures Emit(Emit(st, a), b) == Emit(st, a + b)
  {
    var code := st.blocks[st.insert].code;
    assert code + a + b == code + (a + b);
  }
}
