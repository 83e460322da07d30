/** Three-address code in basic blocks, and what it means to run it. */
module Tac {
  import opened Ast

  datatype UnaryOp = Negate | Not

  datatype Operand = NullOperand | Const(n: int) | RealConst(text: string) | Var(name: string)

  datatype Instr =
    | Binary(op: Operator, a: Operand, b: Operand, dst: string)
    | Unary(uop: UnaryOp, a: Operand, dst: string)
    | Assign(src: Operand, into: Operand)
    | Goto(target: string)
    | Branch(rel: Operator, a: Operand, b: Operand, target: string)
    | Mark(target: string)
    | Param(a: Operand)
    | Call(callee: Operand)
    | Return

  /** `owner` is the index of the function the block belongs to. */
  datatype Block = Block(name: string, owner: nat, code: seq<Instr>)

  // ----- meaning -----

  type Store = map<string, int>

  /** The meaning of the arithmetic operators; `None` is a trap such as a division by zero. */
  datatype Option<T> = None | Some(value: T)

  datatype Arithmetic = Arithmetic(binary: (Operator, int, int) -> Option<int>, unary: (UnaryOp, int) -> int)

  function Read(s: Store, x: string): int {
    if x in s then s[x] else 0
  }

  function Value(v: Operand, s: Store): int {
    match v
    case Const(n) => n
    case Var(x) => Read(s, x)
    case _ => 0
  }

  predicate Holds(rel: Operator, a: int, b: int) {
    match rel
    case Equal => a == b
    case Greater => a > b
    case GreaterOrEqual => a >= b
    case Less => a < b
    case LessOrEqual => a <= b
    case NotEqual => a != b
    case _ => false
  }

  /** Where execution is: block `b`, before instruction `i` of it. */
  datatype Config = Config(b: nat, i: nat, store: Store)

  /** One step leads to another configuration, or execution has halted there, or it traps. */
  datatype Outcome = At(c: Config) | Halted(c: Config) | Trapped

  /** `l` names the start of block `b`, or marks instruction `i` inside it. */
  ghost predicate TargetAt(blocks: seq<Block>, l: string, b: nat, i: nat) {
    && b < |blocks|
    && ((i == 0 && blocks[b].name == l) || (i < |blocks[b].code| && blocks[b].code[i] == Mark(l)))
  }

  ghost predicate HasTarget(blocks: seq<Block>, l: string) {
    exists b: nat, i: nat :: TargetAt(blocks, l, b, i)
  }

  /** No label has two targets. */
  ghost predicate UniqueTargets(blocks: seq<Block>) {
    forall l, b: nat, i: nat, b': nat, i': nat :: TargetAt(blocks, l, b, i) && TargetAt(blocks, l, b', i') ==>
      b == b' && i == i'
  }

  ghost function Jump(blocks: seq<Block>, l: string, s: Store): Outcome {
    if HasTarget(blocks, l) then
      var b: nat, i: nat :| TargetAt(blocks, l, b, i);
      At(Config(b, i, s))
    else Trapped
  }

  lemma JumpTo(blocks: seq<Block>, l: string, b: nat, i: nat, s: Store)
    requires UniqueTargets(blocks) && TargetAt(blocks, l, b, i)
    ensures Jump(blocks, l, s) == At(Config(b, i, s))
  {
  }

  /** One step. A block that ends without a jump halts there. */
  ghost function Step(ar: Arithmetic, blocks: seq<Block>, c: Config): Outcome {
    if c.b >= |blocks| || c.i >= |blocks[c.b].code| then Halted(c)
    else
      var next := c.(i := c.i + 1);
      match blocks[c.b].code[c.i]
      case Binary(op, a, b, dst) =>
        (match ar.binary(op, Value(a, c.store), Value(b, c.store))
         case None => Trapped
         case Some(v) => At(next.(store := c.store[dst := v])))
      case Unary(op, a, dst) => At(next.(store := c.store[dst := ar.unary(op, Value(a, c.store))]))
      case Assign(src, into) => if into.Var? then At(next.(store := c.store[into.name := Value(src, c.store)]))
        else Trapped
      case Goto(l) => Jump(blocks, l, c.store)
      case Branch(rel, a, b, l) =>
        if Holds(rel, Value(a, c.store), Value(b, c.store)) then Jump(blocks, l, c.store) else At(next)
      case Mark(_) => At(next)
      case Param(_) => At(next)
      case Call(_) => Trapped
      case Return => Halted(c)
  }

  /** What `n` steps lead to. */
  ghost function Run(ar: Arithmetic, blocks: seq<Block>, c: Config, n: nat): Outcome
    decreases n
  {
    if n == 0 then At(c)
    else
      var o := Step(ar, blocks, c);
      if o.At? then Run(ar, blocks, o.c, n - 1) else o
  }

  lemma {:induction false} RunThen(ar: Arithmetic, blocks: seq<Block>, c: Config, m: nat, d: Config, n: nat)
    requires Run(ar, blocks, c, m) == At(d)
    ensures Run(ar, blocks, c, m + n) == Run(ar, blocks, d, n)
    decreases m
  {
    if m > 0 {
      RunThen(ar, blocks, Step(ar, blocks, c).c, m - 1, d, n);
    }
  }

  /** Once execution has ended it stays ended the same way. */
  lemma {:induction false} RunEnded(ar: Arithmetic, blocks: seq<Block>, c: Config, m: nat, n: nat)
    requires !Run(ar, blocks, c, m).At? && m <= n
    ensures Run(ar, blocks, c, n) == Run(ar, blocks, c, m)
    decreases m
  {
    if Step(ar, blocks, c).At? {
      RunEnded(ar, blocks, Step(ar, blocks, c).c, m - 1, n - 1);
    }
  }
}
