/** One-line printing with the fewest parentheses, to tokens (src/view.rs). */
module Printer {
  import opened Ast

  /** The tokens of one line. A qualified constructor name is one token, as the
      parser reads it; `TOp(Sub)` is the minus sign, prefix or infix. */
  datatype Tok =
    | TInt(n: int) | TFloat(x: real) | TStr(s: string) | TChar(c: nat) | TBool(b: bool)
    | TName(name: string) | TCtor(name: string)
    | TOp(op: BinOp)
    | TBang | TAmp | TDot | TComma | TArrow | TBackslash | TEffect
    | TOpen | TClose | TOpenList | TCloseList
    | TEnd

  function Prec(op: BinOp): nat {
    match op
    case Or => 1
    case And => 2
    case Concat => 4
    case Add => 5
    case Sub => 5
    case Mul => 6
    case Div => 6
    case _ => 3
  }

  /** How tightly the outermost construct of `e` holds together; `Flat` compares it
      with what the place needs. */
  function Power(e: Expr): nat {
    match e
    case App(_, _) => 7
    case Binop(op, _, _) => Prec(op)
    case Match(_, _) => 0
    case Bind(_, _, _) => 0
    case Let(_, _, _) => 0
    case Lambda(_, _) => 0
    case _ => 10
  }

  /** What a context of binding power `need` prints of `e`. */
  function Flat(e: Expr, need: nat): seq<Tok>
    decreases e, 1
  {
    if Power(e) < need then [TOpen] + Raw(e) + [TClose] else Raw(e)
  }

  function Raw(e: Expr): seq<Tok>
    decreases e, 0
  {
    match e
    case Int(n) => [TInt(n)]
    case Float(x) => [TFloat(x)]
    case Str(s) => [TStr(s)]
    case Char(c) => [TChar(c)]
    case Bool(b) => [TBool(b)]
    case Unit => [TOpen, TClose]
    case Var(n) => [TName(n)]
    case Ctor(n) => [TCtor(n)]
    case App(f, args) => Flat(f, 10) + FlatArgs(e, args)
    case Binop(op, l, r) => Flat(l, Prec(op)) + [TOp(op)] + Flat(r, Prec(op) + 1)
    case Neg(x) => [TOp(Sub)] + Flat(x, 10)
    case Not(x) => [TBang] + Flat(x, 10)
    case Borrow(x) => [TAmp] + Flat(x, 10)
    case Proj(x, f) => Flat(x, 10) + [TDot, TName(f)]
    case Tuple(xs) => [TOpen] + FlatItems(e, xs) + [TClose]
    case List(xs) => [TOpenList] + FlatItems(e, xs) + [TCloseList]
    case Lambda(ps, b) => [TBackslash] + NameToks(ps) + [TArrow] + Flat(b, 0)
    case _ => []
  }

  function NameToks(ps: seq<string>): seq<Tok> {
    if ps == [] then [] else [TName(ps[0])] + NameToks(ps[1..])
  }

  /** Arguments, one after the other. */
  function FlatArgs(parent: Expr, es: seq<Expr>): seq<Tok>
    requires forall i :: 0 <= i < |es| ==> es[i] < parent
    decreases parent, 0, |es|
  {
    if es == [] then [] else Flat(es[0], 10) + FlatArgs(parent, es[1..])
  }

  /** Items, with commas between. */
  function FlatItems(parent: Expr, es: seq<Expr>): seq<Tok>
    requires forall i :: 0 <= i < |es| ==> es[i] < parent
    decreases parent, 0, |es|
  {
    if es == [] then []
    else if |es| == 1 then Flat(es[0], 0)
    else Flat(es[0], 0) + [TComma] + FlatItems(parent, es[1..])
  }

  // ------------------------------------------------------------------ patterns

  function PatToks(p: Pat): seq<Tok>
    decreases p, 1
  {
    match p
    case PWild => [TName("_")]
    case PVar(n) => [TName(n)]
    case PInt(n) => [TInt(n)]
    case PFloat(x) => [TFloat(x)]
    case PStr(s) => [TStr(s)]
    case PChar(c) => [TChar(c)]
    case PBool(b) => [TBool(b)]
    case PCtor(n, args) => [TCtor(n)] + PatAtoms(p, args)
    case PList(ps) => [TOpenList] + PatItems(p, ps) + [TCloseList]
    case PTuple(ps) => [TOpen] + PatItems(p, ps) + [TClose]
  }

  function PatAtom(p: Pat): seq<Tok>
    decreases p, 2
  {
    if p.PCtor? && p.args != [] then [TOpen] + PatToks(p) + [TClose] else PatToks(p)
  }

  function PatAtoms(parent: Pat, ps: seq<Pat>): seq<Tok>
    requires forall i :: 0 <= i < |ps| ==> ps[i] < parent
    decreases parent, 0, |ps|
  {
    if ps == [] then [] else PatAtom(ps[0]) + PatAtoms(parent, ps[1..])
  }

  function PatItems(parent: Pat, ps: seq<Pat>): seq<Tok>
    requires forall i :: 0 <= i < |ps| ==> ps[i] < parent
    decreases parent, 0, |ps|
  {
    if ps == [] then []
    else if |ps| == 1 then PatToks(ps[0])
    else PatToks(ps[0]) + [TComma] + PatItems(parent, ps[1..])
  }

  // --------------------------------------------------------------------- types

  function TyToks(t: Ty): seq<Tok>
    decreases t, 2
  {
    match t
    case TFun(a, b) => TyApp(a) + [TArrow] + TyToks(b)
    case _ => TyApp(t)
  }

  function TyApp(t: Ty): seq<Tok>
    decreases t, 1
  {
    match t
    case TCon(n, args) => [TCtor(n)] + TyAtoms(t, args)
    case TVar(v) => [TName(v)]
    case TRef(x) => [TAmp] + TyApp(x)
    case TEff(x) => [TEffect] + TyApp(x)
    case TTuple(ts) => [TOpen] + TyItems(t, ts) + [TClose]
    case TFun(a, b) => [TOpen] + (TyApp(a) + [TArrow] + TyToks(b)) + [TClose]
  }

  function TyAtom(t: Ty): seq<Tok>
    decreases t, 3
  {
    match t
    case TCon(_, args) => if args != [] then [TOpen] + TyToks(t) + [TClose] else TyApp(t)
    case TFun(_, _) => [TOpen] + TyToks(t) + [TClose]
    case TEff(_) => [TOpen] + TyToks(t) + [TClose]
    case TRef(x) => [TAmp] + TyAtom(x)
    case _ => TyApp(t)
  }

  function TyAtoms(parent: Ty, ts: seq<Ty>): seq<Tok>
    requires forall i :: 0 <= i < |ts| ==> ts[i] < parent
    decreases parent, 0, |ts|
  {
    if ts == [] then [] else TyAtom(ts[0]) + TyAtoms(parent, ts[1..])
  }

  function TyItems(parent: Ty, ts: seq<Ty>): seq<Tok>
    requires forall i :: 0 <= i < |ts| ==> ts[i] < parent
    decreases parent, 0, |ts|
  {
    if ts == [] then []
    else if |ts| == 1 then TyToks(ts[0])
    else TyToks(ts[0]) + [TComma] + TyItems(parent, ts[1..])
  }
}
