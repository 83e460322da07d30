/** The syntax trees of the compiler. A child the source can leave null has a `Null` form. */
module Ast {

  datatype Operator =
    | Equal | Greater | GreaterOrEqual | Less | LessOrEqual | NotEqual
    | Add | Or | Subtract
    | And | Divide | IntegerDivide | Modulus | Multiply
    | Invalid

  predicate IsRelOp(op: Operator) {
    op.Equal? || op.Greater? || op.GreaterOrEqual? || op.Less? || op.LessOrEqual? || op.NotEqual?
  }

  predicate IsAddOp(op: Operator) {
    op.Add? || op.Or? || op.Subtract?
  }

  predicate IsMulOp(op: Operator) {
    op.And? || op.Divide? || op.IntegerDivide? || op.Modulus? || op.Multiply?
  }

  datatype NumberType = Integer | Real

  datatype Number = NullNumber | Number(text: string, kind: NumberType)

  datatype Identifier = NullIdentifier | Identifier(name: string, index: Expression, parameters: Parameters)

  datatype Parameters = NoParameters | Parameters(list: seq<Expression>)

  datatype Identifiers = NoIdentifiers | Identifiers(list: seq<Identifier>)

  /** A relation between two expressions, or a sum: `rest` is a sum or null. */
  datatype Expression =
    | NullExpression
    | RelOp(lhs: Expression, relOp: Operator, rhs: Expression)
    | AddOp(negated: bool, term: Term, addOp: Operator, rest: Expression)

  datatype Term = NullTerm | Term(factor: Factor, mulOp: Operator, rest: Term)

  datatype Factor =
    | NullFactor
    | NumberFactor(number: Number)
    | NotFactor(factor: Factor)
    | ParenFactor(expression: Expression)
    | IdFactor(id: Identifier)

  datatype Statement =
    | NullStatement
    | AssignmentOrCall(id: Identifier, value: Expression)
    | Compound(statements: Statements)
    | If(expression: Expression, thenPart: Statement, elsePart: Statement)
    | While(expression: Expression, doPart: Statement)

  datatype Statements = NoStatements | Statements(list: seq<Statement>)

  datatype Type = NullType | Type(standardType: NumberType, isArray: bool, startsAt: Number, endsAt: Number)

  datatype Declaration = Declaration(id: Identifier, kind: Type)

  datatype Declarations = NoDeclarations | Declarations(list: seq<Declaration>)

  datatype Subprogram = NullSubprogram
    | Subprogram(isFunction: bool, name: Identifier, arguments: Declarations, returnType: Type,
                 declarations: Declarations, body: Statement)

  datatype Subprograms = NoSubprograms | Subprograms(list: seq<Subprogram>)

  datatype Program = NullProgram
    | Program(programName: Identifier, inputOutput: Identifiers, variables: Declarations,
              functions: Subprograms, mainProgram: Statement)
}
