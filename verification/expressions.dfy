/** Arithmetic expressions as trees: the meaning the compiler's output is
    meant to have.  `Print` prints a tree the way a user types it (with the
    parentheses that precedence and left grouping demand, and a pair for
    every `Group` node the user adds on top of them), `PostfixOf` is the postfix order read off the
    tree, `Compile` is a recursive reference compiler to three-address
    instructions, and `Eval` and `Exec` give trees and instruction lists
    their values. */
module Expressions {
  import opened Text
  import opened Tokens
  import opened Tac

  datatype Op = Add | Sub | Mul | Div

  /** `Group` is a pair of parentheses the user writes around a
      subexpression; it changes how the line reads, not what it means. */
  datatype Expr = Var(name: string) | Bin(op: Op, left: Expr, right: Expr) | Group(inner: Expr)

  function OpToken(op: Op): Token {
    match op
    case Add => Operator(Plus)
    case Sub => Operator(Minus)
    case Mul => Operator(Times)
    case Div => Operator(Divide)
  }

  /** Every variable is a valid operand token (letters and digits). */
  predicate ValidNames(e: Expr) {
    match e
    case Var(name) => IsOperand(name)
    case Bin(_, l, r) => ValidNames(l) && ValidNames(r)
    case Group(i) => ValidNames(i)
  }

  /** How tightly an operator binds: its rank in the converter's table. */
  function Prec(op: Op): int {
    match op
    case Add => 1
    case Sub => 1
    case Mul => 2
    case Div => 2
  }

  /** A binary left operand must be parenthesised when it binds more
      loosely than the operator. */
  predicate WrapLeft(op: Op, l: Expr) {
    l.Bin? && Prec(l.op) < Prec(op)
  }

  /** A binary right operand must be parenthesised also when it binds
      exactly as tightly: `a - (b - c)` is not `a - b - c`. */
  predicate WrapRight(op: Op, r: Expr) {
    r.Bin? && Prec(r.op) <= Prec(op)
  }

  function Parens(tokens: seq<Token>): seq<Token> {
    [Open] + tokens + [Close]
  }

  /** One operand of a binary operator, parenthesised or not. */
  function Side(e: Expr, wrap: bool): seq<Token>
    decreases e, 1
  {
    if wrap then Parens(Print(e)) else Print(e)
  }

  /** A tree as a line of input. */
  function Print(e: Expr): seq<Token>
    decreases e, 0
  {
    match e
    case Var(name) => [Operand(name)]
    case Bin(op, l, r) => Side(l, WrapLeft(op, l)) + [OpToken(op)] + Side(r, WrapRight(op, r))
    case Group(i) => Parens(Print(i))
  }

  /** The postfix order of a tree: both operands, then the operator. */
  function PostfixOf(e: Expr): seq<Token> {
    match e
    case Var(name) => [Operand(name)]
    case Bin(op, l, r) => PostfixOf(l) + PostfixOf(r) + [OpToken(op)]
    case Group(i) => PostfixOf(i)
  }

  /** Instructions, the name holding the value, and the counter after them. */
  datatype Code = Code(instrs: seq<Instr>, result: string, count: nat)

  /** A reference compiler: the operands first, left to right, then one
      instruction into the next temporary. */
  function Compile(e: Expr, count: nat): (c: Code)
    ensures c.count >= count
  {
    match e
    case Var(name) => Code([], name, count)
    case Bin(op, l, r) =>
      var cl := Compile(l, count);
      var cr := Compile(r, cl.count);
      var temp := TempName(cr.count + 1);
      Code(cl.instrs + cr.instrs + [Binary(temp, cl.result, Spell(OpToken(op)), cr.result)], temp, cr.count + 1)
    case Group(i) => Compile(i, count)
  }

  /** The value of a tree, given the values of the variables and the
      meaning of each operator (by its text). */
  function Eval<V>(e: Expr, env: string -> V, apply: (string, V, V) -> V): V {
    match e
    case Var(name) => env(name)
    case Bin(op, l, r) => apply(Spell(OpToken(op)), Eval(l, env, apply), Eval(r, env, apply))
    case Group(i) => Eval(i, env, apply)
  }

  function Assign<V>(env: string -> V, name: string, v: V): string -> V {
    x => if x == name then v else env(x)
  }

  /** Run one instruction: its target takes the value computed from the
      current values of its sources. */
  function ExecOne<V>(i: Instr, env: string -> V, apply: (string, V, V) -> V): string -> V {
    match i
    case Copy(target, source) => Assign(env, target, env(source))
    case Binary(target, left, op, right) => Assign(env, target, apply(op, env(left), env(right)))
  }

  /** Run the instructions in order. */
  function Exec<V>(instrs: seq<Instr>, env: string -> V, apply: (string, V, V) -> V): string -> V
    decreases |instrs|
  {
    if instrs == [] then env else Exec(instrs[1..], ExecOne(instrs[0], env, apply), apply)
  }

  /** The variables of a tree. */
  function Vars(e: Expr): set<string> {
    match e
    case Var(name) => {name}
    case Bin(_, l, r) => Vars(l) + Vars(r)
    case Group(i) => Vars(i)
  }

  /** No variable of the tree is named like a temporary numbered above
      `count`, which the compiled code would overwrite. */
  ghost predicate NoTempAbove(e: Expr, count: nat) {
    forall x, k :: x in Vars(e) && k > count ==> x != TempName(k)
  }
}
