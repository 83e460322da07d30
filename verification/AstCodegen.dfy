/** The `codegen` members of the syntax tree, as the compiler runs them on the builder. */
module AstCodegen {
  import opened Ast
  import opened Names
  import opened Tac
  import opened Codegen
  import opened Subprograms
  import opened BlockFrame
  import opened Labels
  import B = TacBuilder

  method GenerateExpression(builder: B.TacBuilder, e: Expression) returns (v: Operand)
    requires builder.Open()
    modifies builder
    ensures builder.Open() && (builder.Snapshot(), v) == GenExpression(e, old(builder.Snapshot()))
    decreases e
  {
    match e
    case NullExpression =>
      v := NullOperand;
    case RelOp(lhs, op, rhs) =>
      var a := GenerateExpression(builder, lhs);
      var b := GenerateExpression(builder, rhs);
      if IsRelOp(op) {
        v := builder.NewCmp(op, a, b);
      } else {
        v := NullOperand;
      }
    case AddOp(negated, term, op, rest) =>
      v := GenerateTerm(builder, term);
      if negated {
        v := builder.NewUnary(Negate, v);
      }
      if !rest.NullExpression? {
        var b := GenerateExpression(builder, rest);
        if IsAddOp(op) {
          v := builder.NewBinary(op, v, b);
        } else {
          v := NullOperand;
        }
      }
  }

  method GenerateTerm(builder: B.TacBuilder, t: Term) returns (v: Operand)
    requires builder.Open()
    modifies builder
    ensures builder.Open() && (builder.Snapshot(), v) == GenTerm(t, old(builder.Snapshot()))
    decreases t
  {
    match t
    case NullTerm =>
      v := NullOperand;
    case Term(factor, op, rest) =>
      v := GenerateFactor(builder, factor);
      if !rest.NullTerm? {
        var b := GenerateTerm(builder, rest);
        if IsMulOp(op) {
          v := builder.NewBinary(op, v, b);
        } else {
          v := NullOperand;
        }
      }
  }

  method GenerateFactor(builder: B.TacBuilder, f: Factor) returns (v: Operand)
    requires builder.Open()
    modifies builder
    ensures builder.Open() && (builder.Snapshot(), v) == GenFactor(f, old(builder.Snapshot()))
    decreases f
  {
    match f
    case NullFactor =>
      v := NullOperand;
    case NumberFactor(number) =>
      if number.NullNumber? {
        v := NullOperand;
      } else if number.kind == Integer {
        v := Const(ValueAsInt(number.text));
      } else {
        v := RealConst(number.text);
      }
    case NotFactor(factor) =>
      v := GenerateFactor(builder, factor);
      v := builder.NewUnary(UnaryOp.Not, v);
    case ParenFactor(expression) =>
      v := GenerateExpression(builder, expression);
    case IdFactor(id) =>
      v := builder.LookupIdentifier(id);
      if id.Identifier? && id.parameters.Parameters? {
        var arguments := GenerateExpressions(builder, id.parameters.list);
        v := builder.NewCall(v, arguments);
      }
  }

  method GenerateExpressions(builder: B.TacBuilder, es: seq<Expression>) returns (values: seq<Operand>)
    requires builder.Open()
    modifies builder
    ensures builder.Open() && (builder.Snapshot(), values) == GenExpressions(es, old(builder.Snapshot()))
    decreases es
  {
    hide GenExpression, Ok, Inline;
    values := [];
    ghost var st := builder.Snapshot();
    ghost var (st', all) := GenExpressions(es, st);
    assert es[0..] == es;
    for i := 0 to |es|
      invariant builder.Open()
      invariant var (end, rest) := GenExpressions(es[i..], builder.Snapshot()); end == st' && values + rest == all
    {
      ghost var (_, rest) := GenExpressions(es[i..], builder.Snapshot());
      var v := GenerateExpression(builder, es[i]);
      assert es[i..][1..] == es[i + 1..];
      assert values + rest == values + [v] + GenExpressions(es[i + 1..], builder.Snapshot()).1;
      values := values + [v];
    }
    assert values + [] == values;
  }

  method GenerateStatement(builder: B.TacBuilder, s: Statement)
    requires builder.Open()
    modifies builder
    ensures builder.Open() && builder.Snapshot() == GenStatement(s, old(builder.Snapshot()))
    decreases s, 1
  {
    match s
    case NullStatement =>
    case AssignmentOrCall(id, value) =>
      var dest := builder.LookupIdentifier(id);
      if !value.NullExpression? {
        var v := GenerateExpression(builder, value);
        builder.Append([Assign(v, dest)]);
      } else {
        var arguments := [];
        if id.Identifier? && id.parameters.Parameters? {
          arguments := GenerateExpressions(builder, id.parameters.list);
        }
        var _ := builder.NewCall(dest, arguments);
      }
    case Compound(statements) =>
      if statements.Statements? {
        GenerateStatements(builder, statements.list);
      }
    case If(_, _, _) =>
      GenerateIf(builder, s);
    case While(_, _) =>
      GenerateWhile(builder, s);
  }

  method GenerateIf(builder: B.TacBuilder, s: Statement)
    requires builder.Open() && s.If?
    modifies builder
    ensures builder.Open() && builder.Snapshot() == GenIf(s, old(builder.Snapshot()))
    decreases s, 0
  {
    var thenBlock := builder.CreateBasicBlock("", None);
    var v := GenerateExpression(builder, s.expression);
    var elseBlock := builder.NewBne(v, Const(0), thenBlock);
    var doneBlock := builder.CreateBasicBlock("", None);

    builder.SetInsertBlock(thenBlock);
    GenerateStatement(builder, s.thenPart);
    builder.NewBr(doneBlock);

    builder.SetInsertBlock(elseBlock);
    GenerateStatement(builder, s.elsePart);
    builder.NewBr(doneBlock);

    builder.SetInsertBlock(doneBlock);
  }

  method GenerateWhile(builder: B.TacBuilder, s: Statement)
    requires builder.Open() && s.While?
    modifies builder
    ensures builder.Open() && builder.Snapshot() == GenWhile(s, old(builder.Snapshot()))
    decreases s, 0
  {
    var evaluation := builder.CreateBasicBlock("", None);
    builder.NewBr(evaluation);

    var body := builder.CreateBasicBlock("", None);
    builder.SetInsertBlock(body);

    GenerateStatement(builder, s.doPart);
    builder.NewBr(evaluation);

    builder.SetInsertBlock(evaluation);
    var v := GenerateExpression(builder, s.expression);
    var tail := builder.NewBne(v, Const(0), body);

    builder.SetInsertBlock(tail);
  }

  method GenerateStatements(builder: B.TacBuilder, ss: seq<Statement>)
    requires builder.Open()
    modifies builder
    ensures builder.Open() && builder.Snapshot() == GenStatements(ss, old(builder.Snapshot()))
    decreases ss
  {
    ghost var st := builder.Snapshot();
    for i := 0 to |ss|
      invariant builder.Open() && GenStatements(ss, st) == GenStatements(ss[i..], builder.Snapshot())
    {
      GenerateStatement(builder, ss[i]);
      assert ss[i..][1..] == ss[i + 1..];
    }
  }

  method GenerateDeclarations(builder: B.TacBuilder, ds: seq<Declaration>)
    requires builder.Open()
    modifies builder
    ensures builder.Open() && builder.Snapshot() == GenDeclarations(ds, old(builder.Snapshot()))
  {
    ghost var st := builder.Snapshot();
    for i := 0 to |ds|
      invariant builder.Open() && GenDeclarations(ds, st) == GenDeclarations(ds[i..], builder.Snapshot())
    {
      builder.CreateSymbol(builder.InsertOwner(), Symbol(NameOf(ds[i].id), false));
      assert ds[i..][1..] == ds[i + 1..];
    }
  }

  method GenerateSubprogram(builder: B.TacBuilder, sp: Subprogram)
    requires builder.Open()
    modifies builder
    ensures builder.Open() && builder.Snapshot() == GenSubprogram(sp, old(builder.Snapshot()))
  {
    if sp.NullSubprogram? {
      return;
    }
    var oldBlock := builder.insertBlock.value;
    var newFunction := builder.NewFunction(NameOf(sp.name));
    var functionBlock := builder.CreateBasicBlock("", Some(newFunction));
    builder.SetInsertBlock(functionBlock);
    if sp.declarations.Declarations? {
      GenerateDeclarations(builder, sp.declarations.list);
    }
    GenerateStatement(builder, sp.body);
    builder.Append([Return]);
    builder.SetInsertBlock(oldBlock);
  }

  method GenerateSubprograms(builder: B.TacBuilder, sps: seq<Subprogram>)
    requires builder.Open()
    modifies builder
    ensures builder.Open() && builder.Snapshot() == GenSubprograms(sps, old(builder.Snapshot()))
  {
    ghost var st := builder.Snapshot();
    for i := 0 to |sps|
      invariant builder.Open() && GenSubprograms(sps, st) == GenSubprograms(sps[i..], builder.Snapshot())
    {
      GenerateSubprogram(builder, sps[i]);
      assert sps[i..][1..] == sps[i + 1..];
    }
  }

  method GenerateProgram(program: Program) returns (builder: B.TacBuilder)
    requires program.Program? && NameOf(program.programName) != ""
    ensures fresh(builder) && builder.Open() && builder.Snapshot() == GenProgram(program)
    ensures IsUserName(NameOf(program.programName)) ==>
      && UniqueTargets(builder.blocks) && Closed(builder.blocks)
      && forall b: nat :: b < |builder.blocks| && Some(b) != builder.insertBlock ==> Ended(builder.blocks[b])
  {
    hide GenStatement, GenDeclarations, GenSubprograms, Ok, Extends, Inline, UniqueTargets, Closed, Ended, IsUserName;
    builder := new B.TacBuilder();
    var mainFunction := builder.CreateBasicBlock(NameOf(program.programName), None);
    if program.variables.Declarations? {
      GenerateDeclarations(builder, program.variables.list);
    }
    if program.functions.Subprograms? {
      GenerateSubprograms(builder, program.functions.list);
    }
    builder.SetInsertBlock(mainFunction);
    GenerateStatement(builder, program.mainProgram);
    if IsUserName(NameOf(program.programName)) {
      ProgramClosed(program);
    }
  }
}
