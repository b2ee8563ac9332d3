/** Abstract syntax (src/ast.rs), without spans. */
module Ast {

  import opened Wrappers

  datatype Ty =
    | TCon(name: string, args: seq<Ty>)
    | TVar(name: string)
    | TFun(dom: Ty, cod: Ty)
    | TRef(inner: Ty)
    | TEff(inner: Ty)
    | TTuple(parts: seq<Ty>)

  datatype BinOp = Or | And | Eq | Ne | Lt | Le | Gt | Ge | Concat | Add | Sub | Mul | Div

  /** The operators whose right operand may not be evaluated. */
  predicate ShortCircuit(op: BinOp) { op == And || op == Or }

  datatype Pat =
    | PWild
    | PVar(name: string)
    | PInt(n: int)
    | PFloat(x: real)
    | PStr(s: string)
    | PChar(c: nat)
    | PBool(b: bool)
    | PCtor(ctor: string, args: seq<Pat>)
    | PList(items: seq<Pat>)
    | PTuple(parts: seq<Pat>)

  datatype Arm = Arm(pat: Pat, body: Expr)

  datatype Field = Field(name: string, value: Expr)

  datatype Expr =
    | Int(n: int)
    | Float(x: real)
    | Str(s: string)
    | Char(c: nat)
    | Bool(b: bool)
    | Unit
    | Var(name: string)
    | Ctor(name: string)
    | App(head: Expr, args: seq<Expr>)
    | Binop(op: BinOp, left: Expr, right: Expr)
    | Neg(operand: Expr)
    | Not(operand: Expr)
    | Match(scrut: Expr, arms: seq<Arm>)
    | Bind(name: string, value: Expr, body: Expr)
    | Let(name: string, value: Expr, body: Expr)
    | Lambda(params: seq<string>, body: Expr)
    | Record(base: Option<Expr>, fields: seq<Field>)
    | Proj(of: Expr, field: string)
    | Borrow(operand: Expr)
    | Arena(name: string, body: Expr)
    | Tuple(items: seq<Expr>)
    | List(items: seq<Expr>)

  /** The names that matching `p` puts in scope, with repeats. */
  function Names(p: Pat): seq<string> {
    match p
    case PVar(n) => [n]
    case PCtor(_, ps) => NamesOf(ps)
    case PList(ps) => NamesOf(ps)
    case PTuple(ps) => NamesOf(ps)
    case _ => []
  }

  function NamesOf(ps: seq<Pat>): seq<string> {
    if ps == [] then [] else Names(ps[0]) + NamesOf(ps[1..])
  }

  /** One level down; each child is structurally smaller. */
  function Children(e: Expr): (r: seq<Expr>)
    ensures forall i :: 0 <= i < |r| ==> r[i] < e
  {
    match e
    case App(h, args) => [h] + args
    case Binop(_, a, b) => [a, b]
    case Bind(_, a, b) => [a, b]
    case Let(_, a, b) => [a, b]
    case Neg(i) => [i]
    case Not(i) => [i]
    case Borrow(i) => [i]
    case Proj(i, _) => [i]
    case Lambda(_, i) => [i]
    case Arena(_, i) => [i]
    case Match(s, arms) => [s] + seq(|arms|, k requires 0 <= k < |arms| => arms[k].body)
    case Record(base, fields) =>
      (if base.Some? then [base.value] else []) + seq(|fields|, k requires 0 <= k < |fields| => fields[k].value)
    case Tuple(xs) => xs
    case List(xs) => xs
    case _ => []
  }
}
