/** Tokens, as the scanner hands them to the parser. */
module Tokens {
  import opened Ast

  datatype Kind =
    | TIdentifier | TNumber
    | TArray | TBegin | TDo | TElse | TEnd | TFunction | TIf | TInteger | TOf | TProcedure | TProgram | TReal
    | TThen | TVar | TWhile
    | TAssign | TAddOp | TMulOp | TNot | TRange | TRelOp
    | TLBracket | TRBracket | TColon | TComma | TLParen | TRParen | TPeriod | TSemicolon
    | TEof | TError

  datatype Token = Token(kind: Kind, text: string, op: Operator, number: NumberType)

  /** Operator tokens carry an operator of their class. */
  predicate Scanned(t: Token) {
    && (t.kind.TAddOp? ==> IsAddOp(t.op)) && (t.kind.TMulOp? ==> IsMulOp(t.op)) && (t.kind.TRelOp? ==> IsRelOp(t.op))
    && (!t.kind.TAddOp? && !t.kind.TMulOp? && !t.kind.TRelOp? ==> t.op.Invalid?)
  }

  predicate AllScanned(ts: seq<Token>) {
    forall i :: 0 <= i < |ts| ==> Scanned(ts[i])
  }

  /** A keyword or punctuation mark. */
  function Word(k: Kind): Token {
    Token(k, "", Invalid, Integer)
  }

  function IdToken(name: string): Token {
    Token(TIdentifier, name, Invalid, Integer)
  }

  function NumberToken(n: Number): Token
    requires n.Number?
  {
    Token(TNumber, n.text, Invalid, n.kind)
  }

  function OpToken(k: Kind, op: Operator): Token {
    Token(k, "", op, Integer)
  }

  /** The token at `i`; the input is followed by end-of-file forever. */
  function Cur(ts: seq<Token>, i: nat): Token {
    if i < |ts| then ts[i] else Word(TEof)
  }

  predicate Is(ts: seq<Token>, i: nat, k: Kind) {
    Cur(ts, i).kind == k
  }

  function Following(ts: seq<Token>, i: nat): (r: nat)
    ensures i <= r && (i < |ts| ==> i < r)
  {
    if i < |ts| then i + 1 else i
  }

  predicate StartsFactor(k: Kind) {
    k.TIdentifier? || k.TNumber? || k.TLParen? || k.TNot?
  }

  predicate StartsExpression(k: Kind) {
    StartsFactor(k) || k.TAddOp?
  }

  predicate StartsStatement(k: Kind) {
    k.TIdentifier? || k.TBegin? || k.TIf? || k.TWhile?
  }
}
