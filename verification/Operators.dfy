/** Operator tables (nucleus/lang/ast.h) and the table of builtin functions
    (nucleus/lang/builtin.h). */
module Operators {
  import opened Options
  import opened Tokens

  datatype Binop =
    | Add | Sub | Mul | Div | Equal | Nequal | Lequal | Gequal | Less | Greater | And | Or

  datatype Unop = Not | Neg

  /** TOKEN_SUB is not in the source's table: `-` is only ever a prefix. */
  predicate IsBinop(t: Token) {
    t in {ADD, MUL, DIV, EQUAL, NEQUAL, LEQUAL, GEQUAL, LESS, GREATER, AND, OR}
  }

  predicate IsUnop(t: Token) {
    t == SUB || t == NOT
  }

  function BinopFromToken(t: Token): Binop {
    match t
    case ADD => Add
    case SUB => Sub
    case MUL => Mul
    case DIV => Div
    case EQUAL => Equal
    case NEQUAL => Nequal
    case LEQUAL => Lequal
    case GEQUAL => Gequal
    case LESS => Less
    case GREATER => Greater
    case AND => And
    case OR => Or
    case _ => Add
  }

  function UnopFromToken(t: Token): Unop {
    if t == NOT then Not else Neg
  }

  function TokenOfBinop(op: Binop): Token {
    match op
    case Add => ADD
    case Sub => SUB
    case Mul => MUL
    case Div => DIV
    case Equal => EQUAL
    case Nequal => NEQUAL
    case Lequal => LEQUAL
    case Gequal => GEQUAL
    case Less => LESS
    case Greater => GREATER
    case And => AND
    case Or => OR
  }

  function TokenOfUnop(op: Unop): Token {
    match op
    case Not => NOT
    case Neg => SUB
  }

  function Precedence(t: Token): nat {
    if t in {ADD, SUB} then 1
    else if t in {MUL, DIV} then 2
    else if t in {EQUAL, NEQUAL, LEQUAL, GEQUAL, LESS, GREATER, AND, OR} then 3
    else 0
  }

  predicate IsLeftAssociative(t: Token) {
    t in {ADD, SUB, MUL, DIV}
  }

  /** The least precedence the right operand of `t` is parsed with. */
  function NextMin(t: Token): nat {
    if IsLeftAssociative(t) then Precedence(t) + 1 else Precedence(t)
  }

  datatype BuiltinFunction = Norm | Dist

  function BuiltinPrimitive(f: BuiltinFunction): Primitive {
    match f
    case Norm => VEC2
    case Dist => VEC2
  }

  function BuiltinName(f: BuiltinFunction): string {
    match f
    case Norm => "norm"
    case Dist => "dist"
  }


  function FindBuiltin(p: Primitive, name: string): (r: Option<BuiltinFunction>)
    ensures r.Some? ==> BuiltinPrimitive(r.value) == p && BuiltinName(r.value) == name
    ensures r.None? ==> forall f :: !(BuiltinPrimitive(f) == p && BuiltinName(f) == name)
  {
    if p == VEC2 && name == "norm" then Some(Norm)
    else if p == VEC2 && name == "dist" then Some(Dist)
    else None
  }

  /** Reading a printed operator back gives the operator, for every operator the
      parser accepts between two operands. */
  lemma {:induction false} BinopTokens(op: Binop)
    requires op != Sub
    ensures IsBinop(TokenOfBinop(op)) && BinopFromToken(TokenOfBinop(op)) == op
    ensures 1 <= Precedence(TokenOfBinop(op)) <= NextMin(TokenOfBinop(op))
  {
  }
}
