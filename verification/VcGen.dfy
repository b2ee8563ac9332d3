/** Proof obligations for arithmetic (src/refine.rs): how they are generated, and
    what their validity says about a run. */
module VcGen {
  import opened Wrappers
  import opened Ast

  // ---------------------------------------------------------------- formulas

  datatype Sort = IntS | BoolS

  /** A solver symbol: a source name, numbered when the name was taken. */
  datatype Sym = Sym(base: string, k: nat)

  datatype Smt =
    | Num(n: int)
    | Truth(b: bool)
    | Name(sym: Sym, sort: Sort)
    | Minus(x: Smt)
    | Nope(x: Smt)
    | Apply(op: BinOp, l: Smt, r: Smt)

  datatype Value = IntV(n: int) | BoolV(b: bool)

  /** A reading of every symbol at either sort, and of division by zero. */
  datatype Interp = Interp(ints: Sym -> int, bools: Sym -> bool, byZero: int -> int)

  function AsInt(v: Value): int { match v case IntV(n) => n case BoolV(b) => if b then 1 else 0 }

  function AsBool(v: Value): bool { match v case IntV(n) => n != 0 case BoolV(b) => b }

  function Read(i: Interp, s: Sym, k: Sort): Value { if k == IntS then IntV(i.ints(s)) else BoolV(i.bools(s)) }

  function Means(t: Smt, i: Interp): Value {
    match t
    case Num(n) => IntV(n)
    case Truth(b) => BoolV(b)
    case Name(s, k) => Read(i, s, k)
    case Minus(x) => IntV(-AsInt(Means(x, i)))
    case Nope(x) => BoolV(!AsBool(Means(x, i)))
    case Apply(op, l, r) => Operate(op, Means(l, i), Means(r, i), i)
  }

  function Operate(op: BinOp, l: Value, r: Value, i: Interp): Value {
    match op
    case Add => IntV(AsInt(l) + AsInt(r))
    case Sub => IntV(AsInt(l) - AsInt(r))
    case Mul => IntV(AsInt(l) * AsInt(r))
    case Div => IntV(if AsInt(r) == 0 then i.byZero(AsInt(l)) else AsInt(l) / AsInt(r))
    case _ => Decide(op, l, r)
  }

  function Decide(op: BinOp, l: Value, r: Value): Value {
    match op
    case Eq => BoolV(l == r)
    case Ne => BoolV(l != r)
    case Lt => BoolV(AsInt(l) < AsInt(r))
    case Le => BoolV(AsInt(l) <= AsInt(r))
    case Gt => BoolV(AsInt(l) > AsInt(r))
    case Ge => BoolV(AsInt(l) >= AsInt(r))
    case And => BoolV(AsBool(l) && AsBool(r))
    case Or => BoolV(AsBool(l) || AsBool(r))
    case _ => IntV(0)
  }

  ghost predicate Holds(t: Smt, i: Interp) { Means(t, i) == BoolV(true) }

  ghost predicate AllHold(hyps: seq<Smt>, i: Interp) {
    forall k :: 0 <= k < |hyps| ==> Holds(hyps[k], i)
  }

  datatype Kind = DivZero | Underflow | Overflow

  datatype Ob = Ob(kind: Kind, hyps: seq<Smt>, goal: Smt)

  /** What the solver answers `unsat` about: the hypotheses force the goal. */
  ghost predicate Valid(o: Ob) {
    forall i :: AllHold(o.hyps, i) ==> Holds(o.goal, i)
  }

  // ------------------------------------------------------------------- types

  /** The least value of an integer type and the greatest, where it has one. */
  function Range(ty: string): Option<(int, Option<int>)> {
    if ty == "Nat" then Some((0, None))
    else if ty == "U8" then Some((0, Some(0xFF)))
    else if ty == "U16" then Some((0, Some(0xFFFF)))
    else if ty == "U32" then Some((0, Some(0xFFFF_FFFF)))
    else if ty == "U64" || ty == "Size" then Some((0, Some(0xFFFF_FFFF_FFFF_FFFF)))
    else if ty == "I8" then Some((-0x80, Some(0x7F)))
    else if ty == "I16" then Some((-0x8000, Some(0x7FFF)))
    else if ty == "I32" then Some((-0x8000_0000, Some(0x7FFF_FFFF)))
    else if ty == "I64" then Some((-0x8000_0000_0000_0000, Some(0x7FFF_FFFF_FFFF_FFFF)))
    else None
  }

  predicate IsUnsigned(ty: string) { ty in {"Nat", "U8", "U16", "U32", "U64", "Size"} }

  predicate InRange(n: int, ty: string) {
    match Range(ty)
    case None => true
    case Some(r) => r.0 <= n && (r.1.Some? ==> n <= r.1.value)
  }

  function SortOf(ty: string): Sort { if ty == "Bool" then BoolS else IntS }

  // -------------------------------------------------------------- generation

  datatype Gen = Gen(tys: map<Sym, string>, syms: map<Sym, Sort>, hyps: seq<Smt>, obs: seq<Ob>,
                     renames: map<string, Sym>, seen: set<string>, shadows: nat, skipped: nat)

  /** What `renames` makes of `n`, or its first symbol. */
  function SymOf(g: Gen, n: string): Sym { if n in g.renames then g.renames[n] else Sym(n, 0) }

  /** The sort a symbol has, or is given when it is first met. */
  function SortAt(g: Gen, s: Sym): Sort {
    if s in g.syms then g.syms[s] else if s in g.tys then SortOf(g.tys[s]) else IntS
  }

  /** Introduces `n`, with a symbol of its own if the name is taken. */
  function Fresh(g: Gen, n: string): (Sym, Gen) {
    if n !in g.seen then (Sym(n, 0), g.(seen := g.seen + {n}, renames := g.renames - {n}))
    else
      var s := Sym(n, g.shadows + 1);
      (s, g.(shadows := g.shadows + 1, renames := g.renames[n := s]))
  }

  function Strip(e: Expr): Expr { if e.Borrow? then Strip(e.operand) else e }

  /** The expression as a term, unless it is outside the solver's fragment. */
  function Term(g: Gen, e: Expr): Option<(Smt, Sort)> {
    match e
    case Int(n) => Some((Num(n), IntS))
    case Bool(b) => Some((Truth(b), BoolS))
    case Var(n) => Some((Name(SymOf(g, n), SortAt(g, SymOf(g, n))), SortAt(g, SymOf(g, n))))
    case Borrow(x) => Term(g, x)
    case Neg(x) => (match Term(g, x) case None => None case Some(t) => Some((Minus(t.0), t.1)))
    case Not(x) => (match Term(g, x) case None => None case Some(t) => Some((Nope(t.0), BoolS)))
    case Binop(op, a, b) =>
      var ta, tb := Term(g, a), Term(g, b);
      if ta == None || tb == None || op == Concat then None
      else if op == Ne then Some((Nope(Apply(Eq, ta.value.0, tb.value.0)), BoolS))
      else Some((Apply(op, ta.value.0, tb.value.0), if Arithmetic(op) then ta.value.1 else BoolS))
    case _ => None
  }

  predicate Arithmetic(op: BinOp) { op == Add || op == Sub || op == Mul || op == Div }

  /** The static type of an expression, where a declared type makes it obvious. */
  function TyOf(g: Gen, e: Expr): Option<string> {
    match e
    case Var(n) => if SymOf(g, n) in g.tys then Some(g.tys[SymOf(g, n)]) else None
    case Borrow(x) => TyOf(g, x)
    case Neg(x) => TyOf(g, x)
    case Binop(op, a, b) =>
      if !Arithmetic(op) then None else if TyOf(g, a).Some? then TyOf(g, a) else TyOf(g, b)
    case _ => None
  }

  /** A conjunction taken apart, in the order of its parts. */
  function Conjuncts(e: Expr): seq<Expr>
    decreases e
  {
    if e.Binop? && e.op == And then
      StripSmaller(e.left);
      StripSmaller(e.right);
      Conjuncts(Strip(e.left)) + Conjuncts(Strip(e.right))
    else [e]
  }

  lemma StripSmaller(e: Expr)
    ensures Strip(e) == e || Strip(e) < e
  {}

  /** What is known once each of `es` has been found true. */
  function Truths(g: Gen, es: seq<Expr>): seq<Smt> {
    if es == [] then []
    else
      var t := Term(g, es[0]);
      (if t.Some? && t.value.1 == BoolS then [t.value.0] else []) + Truths(g, es[1..])
  }

  /** What the right operand of `op` may assume. */
  function Guard(g: Gen, op: BinOp, a: Expr): seq<Smt> {
    if op == And then Truths(g, Conjuncts(Strip(a)))
    else if op == Or then
      var t := Term(g, a);
      if t.Some? && t.value.1 == BoolS then [Nope(t.value.0)] else []
    else []
  }

  function RangeHyps(s: Sym, ty: string): seq<Smt> {
    match Range(ty)
    case None => []
    case Some(r) =>
      [Apply(Ge, Name(s, IntS), Num(r.0))] + if r.1.Some? then [Apply(Le, Name(s, IntS), Num(r.1.value))] else []
  }

  function Push(g: Gen, kind: Kind, goal: Smt): Gen { g.(obs := g.obs + [Ob(kind, g.hyps, goal)]) }

  function Skip(g: Gen): Gen { g.(skipped := g.skipped + 1) }

  function Arith(g: Gen, op: BinOp, a: Expr, b: Expr): Gen {
    var ta, tb := Term(g, a), Term(g, b);
    var ty := if TyOf(g, a).Some? then TyOf(g, a) else TyOf(g, b);
    match op
    case Div => if tb == None then Skip(g) else Push(g, DivZero, Nope(Apply(Eq, tb.value.0, Num(0))))
    case Add => Bounded(g, op, ta, tb, ty)
    case Mul => Bounded(g, op, ta, tb, ty)
    case Sub =>
      if ty.Some? && IsUnsigned(ty.value) then
        if ta == None || tb == None then Skip(g) else Push(g, Underflow, Apply(Ge, ta.value.0, tb.value.0))
      else Bounded(g, op, ta, tb, ty)
    case _ => g
  }

  /** Obliges the result to lie between both bounds, where there is an upper one. */
  function Bounded(g: Gen, op: BinOp, ta: Option<(Smt, Sort)>, tb: Option<(Smt, Sort)>, ty: Option<string>): Gen {
    if ty == None || Range(ty.value) == None || Range(ty.value).value.1 == None then g
    else if ta == None || tb == None then Skip(g)
    else
      var t, r := Apply(op, ta.value.0, tb.value.0), Range(ty.value).value;
      Push(g, Overflow, Apply(And, Apply(Le, t, Num(r.1.value)), Apply(Ge, t, Num(r.0))))
  }

  /** What a literal or boolean pattern says of the scrutinee's term. */
  function ArmHyp(s: Option<(Smt, Sort)>, p: Pat): Option<Smt> {
    if s == None then None
    else
      match p
      case PInt(n) => if s.value.1 == IntS then Some(Apply(Eq, s.value.0, Num(n))) else None
      case PBool(b) => if s.value.1 == BoolS then Some(if b then s.value.0 else Nope(s.value.0)) else None
      case _ => None
  }

  function LetGen(g: Gen, n: string, v: Expr): Gen {
    var val, ty, (s, g') := Term(g, v), TyOf(g, v), Fresh(g, n);
    var eqn := if val.Some? then [Apply(Eq, Name(s, val.value.1), val.value.0)] else [];
    var ranges := if ty.Some? then RangeHyps(s, ty.value) else [];
    g'.(syms := if val.Some? then g'.syms[s := val.value.1] else g'.syms,
        tys := if ty.Some? then g'.tys[s := ty.value] else g'.tys,
        hyps := g'.hyps + eqn + ranges)
  }

  function Generate(g: Gen, e: Expr): Gen
    decreases e
  {
    match e
    case Binop(op, a, b) =>
      var g1 := Generate(g, a);
      var g2 := Generate(g1.(hyps := g1.hyps + Guard(g1, op, a)), b);
      Arith(g2.(hyps := g1.hyps), op, a, b)
    case Neg(x) => Generate(g, x)
    case Not(x) => Generate(g, x)
    case Borrow(x) => Generate(g, x)
    case Let(n, v, rest) =>
      var g1 := Generate(g, v);
      var g2 := Generate(LetGen(g1, n, v), rest);
      g2.(hyps := g1.hyps, renames := g1.renames)
    case Match(scrut, arms) =>
      var g1 := Generate(g, scrut);
      GenerateArms(g1, e, Term(g1, scrut), scrut, arms, [])
    case _ => g
  }

  function ArmGuard(g: Gen, s: Option<(Smt, Sort)>, scrut: Expr, p: Pat): seq<Smt> {
    var h := ArmHyp(s, p);
    if h.Some? then [h.value]
    else if p == PBool(true) then Truths(g, Conjuncts(Strip(scrut)))
    else []
  }

  function Refuted(s: Option<(Smt, Sort)>, p: Pat): seq<Smt> {
    if ArmHyp(s, p).Some? then [Nope(ArmHyp(s, p).value)] else []
  }

  /** The arms, each below the refutations `past` of those above it. */
  function GenerateArms(g: Gen, parent: Expr, s: Option<(Smt, Sort)>, scrut: Expr, arms: seq<Arm>, past: seq<Smt>): Gen
    requires forall k :: 0 <= k < |arms| ==> arms[k] < parent
    decreases parent, |arms|
  {
    if arms == [] then g
    else
      var g1 := Generate(g.(hyps := g.hyps + past + ArmGuard(g, s, scrut, arms[0].pat)), arms[0].body);
      GenerateArms(g1.(hyps := g.hyps, tys := g.tys), parent, s, scrut, arms[1..], past + Refuted(s, arms[0].pat))
  }

  /** The generator itself: the hypotheses are a stack, cut back where a scope
      or a branch ends; the obligations only grow. */
  class Generator {
    var tys: map<Sym, string>
    var syms: map<Sym, Sort>
    var hyps: seq<Smt>
    var obs: seq<Ob>
    var renames: map<string, Sym>
    var seen: set<string>
    var shadows: nat
    var skipped: nat

    function Now(): Gen
      reads this
    {
      Gen(tys, syms, hyps, obs, renames, seen, shadows, skipped)
    }

    constructor (g: Gen)
      ensures Now() == g
    {
      tys, syms, hyps, obs, renames, seen, shadows, skipped :=
        g.tys, g.syms, g.hyps, g.obs, g.renames, g.seen, g.shadows, g.skipped;
    }

    method FreshName(n: string) returns (s: Sym)
      modifies this`seen, this`renames, this`shadows
      ensures (s, Now()) == Fresh(old(Now()), n)
    {
      if n !in seen {
        seen, renames := seen + {n}, renames - {n};
        return Sym(n, 0);
      }
      shadows := shadows + 1;
      s := Sym(n, shadows);
      renames := renames[n := s];
    }

    method Ask(kind: Kind, goal: Smt)
      modifies this`obs
      ensures Now() == Push(old(Now()), kind, goal)
    {
      obs := obs + [Ob(kind, hyps, goal)];
    }

    method Arithmetics(op: BinOp, a: Expr, b: Expr)
      modifies this`obs, this`skipped
      ensures Now() == Arith(old(Now()), op, a, b)
    {
      hide Term, TyOf, Bounded;
      var ta, tb := Term(Now(), a), Term(Now(), b);
      var ty := if TyOf(Now(), a).Some? then TyOf(Now(), a) else TyOf(Now(), b);
      match op
      case Div =>
        if tb == None { skipped := skipped + 1; } else { Ask(DivZero, Nope(Apply(Eq, tb.value.0, Num(0)))); }
      case Add => Overflows(op, ta, tb, ty);
      case Mul => Overflows(op, ta, tb, ty);
      case Sub =>
        if ty.Some? && IsUnsigned(ty.value) {
          if ta == None || tb == None {
            skipped := skipped + 1;
          } else {
            Ask(Underflow, Apply(Ge, ta.value.0, tb.value.0));
          }
        } else {
          Overflows(op, ta, tb, ty);
        }
      case _ =>
    }

    method Overflows(op: BinOp, ta: Option<(Smt, Sort)>, tb: Option<(Smt, Sort)>, ty: Option<string>)
      modifies this`obs, this`skipped
      ensures Now() == Bounded(old(Now()), op, ta, tb, ty)
    {
      if ty == None || Range(ty.value) == None || Range(ty.value).value.1 == None { return; }
      if ta == None || tb == None { skipped := skipped + 1; return; }
      var t, r := Apply(op, ta.value.0, tb.value.0), Range(ty.value).value;
      Ask(Overflow, Apply(And, Apply(Le, t, Num(r.1.value)), Apply(Ge, t, Num(r.0))));
    }

    method Visit(e: Expr)
      modifies this
      ensures Now() == Generate(old(Now()), e)
      decreases e, 1
    {
      hide Term, TyOf, Guard, Arith, GenerateArms;
      match e
      case Binop(_, _, _) => VisitBinop(e);
      case Neg(x) => Visit(x);
      case Not(x) => Visit(x);
      case Borrow(x) => Visit(x);
      case Let(n, v, rest) => VisitLet(e);
      case Match(scrut, arms) =>
        Visit(scrut);
        VisitArms(e, Term(Now(), scrut));
      case _ =>
    }

    /** The right operand runs under what the left one, having let it, tells. */
    method VisitBinop(e: Expr)
      requires e.Binop?
      modifies this
      ensures Now() == Generate(old(Now()), e)
      decreases e, 0
    {
      hide Term, TyOf, Guard, Arith, GenerateArms;
      Visit(e.left);
      var k := |hyps|;
      ghost var before := hyps;
      hyps := hyps + Guard(Now(), e.op, e.left);
      Visit(e.right);
      HypsKept(old(Now()), e);
      hyps := hyps[..k];
      assert hyps == before;
      Arithmetics(e.op, e.left, e.right);
    }

    /** Enters the scope of a `let`. The order matters where `v` mentions `n`: it means
        the `n` outside. */
    method EnterLet(n: string, v: Expr)
      modifies this
      ensures Now() == LetGen(old(Now()), n, v)
    {
      hide Term, TyOf, RangeHyps;
      var val, ty := Term(Now(), v), TyOf(Now(), v);
      var s := FreshName(n);
      if val.Some? {
        syms := syms[s := val.value.1];
        hyps := hyps + [Apply(Eq, Name(s, val.value.1), val.value.0)];
      }
      if ty.Some? {
        tys := tys[s := ty.value];
        hyps := hyps + RangeHyps(s, ty.value);
      }
      assert hyps == LetGen(old(Now()), n, v).hyps;
    }

    method VisitLet(e: Expr)
      requires e.Let?
      modifies this
      ensures Now() == Generate(old(Now()), e)
      decreases e, 0
    {
      hide LetGen;
      Visit(e.value);
      var k, saved := |hyps|, renames;
      ghost var g1 := Now();
      EnterLet(e.name, e.value);
      Visit(e.body);
      HypsKept(LetGen(g1, e.name, e.value), e.body);
      LetHypsGrow(g1, e.name, e.value);
      assert hyps[..k] == g1.hyps;
      hyps := hyps[..k];
      renames := saved;
    }

    method VisitArms(e: Expr, s: Option<(Smt, Sort)>)
      requires e.Match?
      modifies this
      ensures Now() == GenerateArms(old(Now()), e, s, e.scrut, e.arms, [])
      decreases e, 0
    {
      hide Generate, ArmGuard, Refuted, GenerateArms;
      ghost var g := Now();
      var past: seq<Smt> := [];
      var i := 0;
      assert e.arms[0..] == e.arms;
      while i < |e.arms|
        invariant 0 <= i <= |e.arms|
        invariant GenerateArms(Now(), e, s, e.scrut, e.arms[i..], past) == GenerateArms(g, e, s, e.scrut, e.arms, [])
      {
        ghost var g0 := Now();
        assert e.arms[i..][1..] == e.arms[i + 1..] && e.arms[i..][0] == e.arms[i];
        NextArm(g0, e, s, e.scrut, e.arms[i..], past);
        var k, types := |hyps|, tys;
        var p := e.arms[i].pat;
        var known := ArmGuard(Now(), s, e.scrut, p);
        hyps := hyps + past + known;
        Visit(e.arms[i].body);
        HypsKept(g0.(hyps := g0.hyps + past + known), e.arms[i].body);
        assert hyps[..k] == g0.hyps;
        hyps, tys := hyps[..k], types;
        past := past + Refuted(s, p);
        i := i + 1;
      }
      LastArm(Now(), e, s, e.scrut, e.arms[i..], past);
    }
  }

  lemma LetHypsGrow(g: Gen, n: string, v: Expr)
    ensures g.hyps <= LetGen(g, n, v).hyps
  {
    hide Term, TyOf, RangeHyps;
  }

  lemma NextArm(g: Gen, parent: Expr, s: Option<(Smt, Sort)>, scrut: Expr, arms: seq<Arm>, past: seq<Smt>)
    requires arms != [] && forall k :: 0 <= k < |arms| ==> arms[k] < parent
    ensures var g1 := Generate(g.(hyps := g.hyps + past + ArmGuard(g, s, scrut, arms[0].pat)), arms[0].body);
            GenerateArms(g, parent, s, scrut, arms, past)
              == GenerateArms(g1.(hyps := g.hyps, tys := g.tys), parent, s, scrut, arms[1..],
                              past + Refuted(s, arms[0].pat))
  {}

  lemma LastArm(g: Gen, parent: Expr, s: Option<(Smt, Sort)>, scrut: Expr, arms: seq<Arm>, past: seq<Smt>)
    requires arms == []
    ensures GenerateArms(g, parent, s, scrut, arms, past) == g
  {}

  /** Generation leaves the stack of hypotheses as it found it. */
  lemma HypsKept(g: Gen, e: Expr)
    ensures Generate(g, e).hyps == g.hyps
    ensures e.Binop? ==> var g1 := Generate(g, e.left);
                         var h := g1.(hyps := g1.hyps + Guard(g1, e.op, e.left)); Generate(h, e.right).hyps == h.hyps
  {
    hide Guard, Arith, Later, Generate;
    Framed(g, e);
    if e.Binop? {
      var g1 := Generate(g, e.left);
      Framed(g1.(hyps := g1.hyps + Guard(g1, e.op, e.left)), e.right);
    }
  }

  // ------------------------------------------------------- what a run computes

  type Env = map<string, Value>

  /** The types the generator can know, by source name. */
  type Types = map<string, string>

  function KnownTy(e: Expr, known: Types): Option<string> {
    match e
    case Var(n) => if n in known then Some(known[n]) else None
    case Borrow(x) => KnownTy(x, known)
    case Neg(x) => KnownTy(x, known)
    case Binop(op, a, b) =>
      if !Arithmetic(op) then None else if KnownTy(a, known).Some? then KnownTy(a, known) else KnownTy(b, known)
    case _ => None
  }

  function Known(known: Types, n: string, ty: Option<string>): Types {
    if ty.Some? then known[n := ty.value] else known - {n}
  }

  /** A mathematical run that stops at the first fault. */
  datatype Outcome = Val(v: Value) | Fault(kind: Kind) | NoArm | Stuck

  function Run(e: Expr, env: Env, known: Types): Outcome
    decreases e
  {
    match e
    case Int(n) => Val(IntV(n))
    case Bool(b) => Val(BoolV(b))
    case Var(n) => if n in env then Val(env[n]) else Stuck
    case Borrow(x) => Run(x, env, known)
    case Not(x) => (match Run(x, env, known) case Val(v) => Val(BoolV(!AsBool(v))) case o => o)
    case Binop(op, a, b) =>
      var l := Run(a, env, known);
      if !l.Val? then l
      else if op == And && !AsBool(l.v) then Val(BoolV(false))
      else if op == Or && AsBool(l.v) then Val(BoolV(true))
      else
        var r := Run(b, env, known);
        if !r.Val? then r else Compute(op, l.v, r.v, KnownTy(e, known))
    case Let(n, v, rest) =>
      var o := Run(v, env, known);
      if !o.Val? then o else Run(rest, env[n := o.v], Known(known, n, KnownTy(v, known)))
    case Match(scrut, arms) =>
      var o := Run(scrut, env, known);
      if !o.Val? then o else RunArms(e, arms, o.v, env, known)
    case _ => Stuck
  }

  function Compute(op: BinOp, l: Value, r: Value, ty: Option<string>): Outcome {
    match op
    case Div => if AsInt(r) == 0 then Fault(DivZero) else Val(IntV(AsInt(l) / AsInt(r)))
    case Add => Within(AsInt(l) + AsInt(r), ty)
    case Mul => Within(AsInt(l) * AsInt(r), ty)
    case Sub =>
      if ty.Some? && IsUnsigned(ty.value) then
        if AsInt(l) < AsInt(r) then Fault(Underflow) else Val(IntV(AsInt(l) - AsInt(r)))
      else Within(AsInt(l) - AsInt(r), ty)
    case Concat => Stuck
    case _ => Val(Decide(op, l, r))
  }

  function Within(n: int, ty: Option<string>): Outcome {
    if ty.Some? && !InRange(n, ty.value) then Fault(Overflow) else Val(IntV(n))
  }

  /** First-match order; a name in a pattern is a wildcard that binds. */
  function RunArms(parent: Expr, arms: seq<Arm>, v: Value, env: Env, known: Types): Outcome
    requires forall k :: 0 <= k < |arms| ==> arms[k] < parent
    decreases parent, |arms|
  {
    if arms == [] then NoArm
    else if Fits(arms[0].pat, v) then
      Run(arms[0].body, Bound(arms[0].pat, v, env), Hidden(arms[0].pat, known))
    else RunArms(parent, arms[1..], v, env, known)
  }

  predicate Fits(p: Pat, v: Value) {
    match p
    case PInt(n) => v == IntV(n)
    case PBool(b) => v == BoolV(b)
    case PWild => true
    case PVar(_) => true
    case _ => false
  }

  function Bound(p: Pat, v: Value, env: Env): Env { if p.PVar? then env[p.name := v] else env }

  function Hidden(p: Pat, known: Types): Types { if p.PVar? then known - {p.name} else known }

  // ------------------------------------------------------------ the fragment

  predicate IsTy(ty: string) { IsUnsigned(ty) || ty == "Bool" }

  const WORD: int := 0x1_0000_0000_0000_0000

  /** A value of a type. */
  predicate ValueOk(v: Value, ty: string) {
    if ty == "Bool" then v.BoolV? else v.IntV? && InRange(v.n, ty) && 0 <= v.n
  }

  /** Whether the expression is a term already, without a binder or a branch. */
  predicate Phrased(e: Expr) {
    match e
    case Int(_) => true
    case Bool(_) => true
    case Var(_) => true
    case Borrow(x) => Phrased(x)
    case Not(x) => Phrased(x)
    case Binop(op, a, b) => op != Concat && Phrased(a) && Phrased(b)
    case _ => false
  }

  /** Scalar unsigned code of type `ty`: every literal in range of its type and of
      a word, every arithmetic node with an operand whose type the generator
      knows, and no name bound to a Bool the solver cannot phrase. */
  ghost predicate Typed(e: Expr, ty: string, gamma: Types, known: Types)
    decreases e
  {
    match e
    case Int(n) => IsUnsigned(ty) && ValueOk(IntV(n), ty) && n < WORD
    case Bool(_) => ty == "Bool"
    case Var(n) => n in gamma && gamma[n] == ty
    case Borrow(x) => Typed(x, ty, gamma, known)
    case Not(x) => ty == "Bool" && Typed(x, "Bool", gamma, known)
    case Binop(op, a, b) =>
      if Arithmetic(op) then
        && IsUnsigned(ty) && Typed(a, ty, gamma, known) && Typed(b, ty, gamma, known)
        && KnownTy(e, known).Some?
      else if op == And || op == Or then
        ty == "Bool" && Typed(a, "Bool", gamma, known) && Typed(b, "Bool", gamma, known)
      else
        && ty == "Bool" && op != Concat
        && exists t :: Operands(op, t) && Typed(a, t, gamma, known) && Typed(b, t, gamma, known)
    case Let(n, v, rest) =>
      exists t :: IsTy(t) && Typed(v, t, gamma, known) && (t == "Bool" ==> Phrased(v))
        && Typed(rest, ty, gamma[n := t], Known(known, n, KnownTy(v, known)))
    case Match(scrut, arms) =>
      exists t :: IsTy(t) && Typed(scrut, t, gamma, known)
        && forall k :: 0 <= k < |arms| ==>
             PatFor(arms[k].pat, t) && Typed(arms[k].body, ty, Hidden(arms[k].pat, gamma), Hidden(arms[k].pat, known))
    case _ => false
  }

  /** Equality is of any type, order of the unsigned ones. */
  predicate Operands(op: BinOp, t: string) { IsUnsigned(t) || (t == "Bool" && (op == Eq || op == Ne)) }

  /** A literal of the scrutinee's type, or a wildcard. */
  predicate PatFor(p: Pat, ty: string) {
    match p
    case PInt(n) => IsUnsigned(ty) && 0 <= n < WORD
    case PBool(_) => ty == "Bool"
    case PWild => true
    case PVar(_) => true
    case _ => false
  }

  // --------------------------------------------------- the state and its model

  /** A symbol some binder has introduced. */
  predicate Old(g: Gen, s: Sym) { if s.k == 0 then s.base in g.seen else s.k <= g.shadows }

  predicate OldTerm(g: Gen, t: Smt) {
    match t
    case Name(s, _) => Old(g, s)
    case Minus(x) => OldTerm(g, x)
    case Nope(x) => OldTerm(g, x)
    case Apply(_, l, r) => OldTerm(g, l) && OldTerm(g, r)
    case _ => true
  }

  ghost predicate OldTerms(g: Gen, ts: seq<Smt>) {
    forall k :: 0 <= k < |ts| ==> OldTerm(g, ts[k])
  }

  /** The name `n` stands for its value, at its sort and with its type. */
  predicate Stands(g: Gen, n: string, v: Value, ty: string, i: Interp, known: Types) {
    var s := SymOf(g, n);
    && Old(g, s) && Read(i, s, SortAt(g, s)) == v && ValueOk(v, ty) && IsTy(ty)
    && (n in known <==> s in g.tys) && (n in known ==> g.tys[s] == known[n] == ty)
  }

  ghost predicate Scope(g: Gen, env: Env, i: Interp, gamma: Types, known: Types) {
    forall n :: n in gamma ==> n in env && Stands(g, n, env[n], gamma[n], i, known)
  }

  /** Nothing in the tables is about a symbol still to come. */
  ghost predicate Tidy(g: Gen) {
    (forall s :: s in g.syms ==> Old(g, s)) && (forall s :: s in g.tys ==> Old(g, s)) && OldTerms(g, g.hyps)
  }

  /** The state describes this moment of the run. */
  ghost predicate Models(g: Gen, env: Env, i: Interp, gamma: Types, known: Types) {
    Scope(g, env, i, gamma, known) && Tidy(g) && AllHold(g.hyps, i)
  }

  /** What generation keeps: the hypotheses and names in force, and what it knew
      of the symbols there were. */
  ghost predicate Frame(g: Gen, g': Gen) {
    && g'.hyps == g.hyps && g'.renames == g.renames && g.obs <= g'.obs && g.skipped <= g'.skipped
    && Later(g, g')
  }

  ghost predicate Later(g: Gen, g': Gen) {
    && g.seen <= g'.seen && g.shadows <= g'.shadows
    && (forall s :: Old(g, s) ==> (s in g'.syms <==> s in g.syms) && (s in g.syms ==> g'.syms[s] == g.syms[s]))
    && (forall s :: Old(g, s) ==> (s in g'.tys <==> s in g.tys) && (s in g.tys ==> g'.tys[s] == g.tys[s]))
    && (forall s :: s in g'.syms ==> s in g.syms || Old(g', s))
    && (forall s :: s in g'.tys ==> s in g.tys || Old(g', s))
  }

  lemma OldLater(g: Gen, g': Gen, s: Sym)
    requires g.seen <= g'.seen && g.shadows <= g'.shadows && Old(g, s)
    ensures Old(g', s)
  {}

  lemma {:induction false} OldTermLater(g: Gen, g': Gen, t: Smt)
    requires g.seen <= g'.seen && g.shadows <= g'.shadows && OldTerm(g, t)
    ensures OldTerm(g', t)
  {
    match t
    case Name(s, _) => OldLater(g, g', s);
    case Minus(x) => OldTermLater(g, g', x);
    case Nope(x) => OldTermLater(g, g', x);
    case Apply(_, l, r) => OldTermLater(g, g', l); OldTermLater(g, g', r);
    case _ =>
  }

  lemma LaterChain(g: Gen, g1: Gen, g2: Gen)
    requires Later(g, g1) && Later(g1, g2)
    ensures Later(g, g2)
  {
    forall s | Old(g, s) ensures Old(g1, s) { OldLater(g, g1, s); }
    forall s | Old(g1, s) ensures Old(g2, s) { OldLater(g1, g2, s); }
  }

  lemma LaterSelf(g: Gen)
    ensures Later(g, g) && Frame(g, g)
  {}

  lemma LaterHyps(g: Gen, g': Gen, hyps: seq<Smt>, hyps': seq<Smt>)
    requires Later(g, g')
    ensures Later(g.(hyps := hyps), g'.(hyps := hyps'))
  {}

  lemma FreshIsNew(g: Gen, n: string)
    ensures var (s, g') := Fresh(g, n);
            && !Old(g, s) && Old(g', s) && SymOf(g', n) == s
            && g.seen <= g'.seen && g.shadows <= g'.shadows
            && g'.tys == g.tys && g'.syms == g.syms && g'.hyps == g.hyps && g'.obs == g.obs && g'.skipped == g.skipped
            && forall m :: m != n ==> SymOf(g', m) == SymOf(g, m)
  {}

  lemma LetLater(g: Gen, n: string, v: Expr)
    ensures var g' := LetGen(g, n, v); Later(g, g') && g'.obs == g.obs && g'.skipped == g.skipped
  {
    FreshIsNew(g, n);
    hide Term, TyOf, RangeHyps, Fresh, SymOf;
  }

  lemma {:induction false} Framed(g: Gen, e: Expr)
    ensures Frame(g, Generate(g, e))
    decreases e, 1
  {
    hide Later, Term, Guard, LetGen, Bounded, Arith;
    match e
    case Binop(op, a, b) =>
      var g1 := Generate(g, a);
      var h := g1.(hyps := g1.hyps + Guard(g1, op, a));
      var g2 := Generate(h, b);
      var g3 := g2.(hyps := g1.hyps);
      Framed(g, a);
      Framed(h, b);
      LaterHyps(h, g2, g1.hyps, g1.hyps);
      assert h.(hyps := g1.hyps) == g1;
      ArithFrame(g3, op, a, b);
      LaterChain(g, g1, g3);
      LaterChain(g, g3, Arith(g3, op, a, b));
    case Neg(x) => Framed(g, x);
    case Not(x) => Framed(g, x);
    case Borrow(x) => Framed(g, x);
    case Let(n, v, rest) =>
      var g1 := Generate(g, v);
      var l := LetGen(g1, n, v);
      var g2 := Generate(l, rest);
      Framed(g, v);
      LetLater(g1, n, v);
      Framed(l, rest);
      LaterChain(g1, l, g2);
      LaterChain(g, g1, g2);
      LaterNames(g, g2, g1.hyps, g1.renames);
    case Match(scrut, arms) =>
      var g1 := Generate(g, scrut);
      Framed(g, scrut);
      FramedArms(g1, e, Term(g1, scrut), scrut, arms, []);
      LaterChain(g, g1, Generate(g, e));
    case _ => LaterSelf(g);
  }

  lemma LaterNames(g: Gen, g': Gen, hyps: seq<Smt>, renames: map<string, Sym>)
    requires Later(g, g')
    ensures Later(g, g'.(hyps := hyps, renames := renames))
  {}

  lemma PushFrame(g: Gen, kind: Kind, goal: Smt)
    ensures Frame(g, Push(g, kind, goal)) && Frame(g, Skip(g))
  {}

  lemma BoundedFrame(g: Gen, op: BinOp, ta: Option<(Smt, Sort)>, tb: Option<(Smt, Sort)>, ty: Option<string>)
    ensures Frame(g, Bounded(g, op, ta, tb, ty))
  {
    hide Frame, Push, Skip, Range;
    LaterSelf(g);
    forall kind, goal ensures Frame(g, Push(g, kind, goal)) && Frame(g, Skip(g)) { PushFrame(g, kind, goal); }
    if ty.Some? && ta.Some? && tb.Some? {
      PushFrame(g, Overflow, ta.value.0);
    } else {
      PushFrame(g, Overflow, Truth(true));
    }
  }

  lemma ArithFrame(g: Gen, op: BinOp, a: Expr, b: Expr)
    ensures Frame(g, Arith(g, op, a, b))
  {
    hide Term, TyOf, Frame, Push, Skip, Bounded, IsUnsigned;
    var ta, tb := Term(g, a), Term(g, b);
    var ty := if TyOf(g, a).Some? then TyOf(g, a) else TyOf(g, b);
    LaterSelf(g);
    BoundedFrame(g, op, ta, tb, ty);
    if tb == None { PushFrame(g, DivZero, Truth(true)); }
    else { PushFrame(g, DivZero, Nope(Apply(Eq, tb.value.0, Num(0)))); }
    if ta == None || tb == None { PushFrame(g, Underflow, Truth(true)); }
    else { PushFrame(g, Underflow, Apply(Ge, ta.value.0, tb.value.0)); }
  }

  lemma {:induction false} FramedArms(g: Gen, parent: Expr, s: Option<(Smt, Sort)>, scrut: Expr, arms: seq<Arm>,
                                      past: seq<Smt>)
    requires forall k :: 0 <= k < |arms| ==> arms[k] < parent
    ensures Frame(g, GenerateArms(g, parent, s, scrut, arms, past))
    decreases parent, 0, |arms|
  {
    hide Later, ArmGuard, Refuted, Generate;
    if arms == [] {
      LaterSelf(g);
    } else {
      var h := g.(hyps := g.hyps + past + ArmGuard(g, s, scrut, arms[0].pat));
      var g1 := Generate(h, arms[0].body);
      var g2 := g1.(hyps := g.hyps, tys := g.tys);
      Framed(h, arms[0].body);
      LaterRestore(g, h, g1);
      FramedArms(g2, parent, s, scrut, arms[1..], past + Refuted(s, arms[0].pat));
      LaterChain(g, g2, GenerateArms(g, parent, s, scrut, arms, past));
    }
  }

  lemma LaterRestore(g: Gen, h: Gen, g1: Gen)
    requires h == g.(hyps := h.hyps) && Later(h, g1)
    ensures Later(g, g1.(hyps := g.hyps, tys := g.tys))
  {}

  /** A reading with one symbol changed. */
  function With(i: Interp, s: Sym, v: Value): Interp {
    if v.IntV? then i.(ints := (x: Sym) => if x == s then v.n else i.ints(x))
    else i.(bools := (x: Sym) => if x == s then v.b else i.bools(x))
  }

  lemma ReadWith(i: Interp, s: Sym, v: Value, x: Sym, k: Sort)
    ensures x != s ==> Read(With(i, s, v), x, k) == Read(i, x, k)
    ensures Read(With(i, s, v), s, if v.IntV? then IntS else BoolS) == v
    ensures With(i, s, v).byZero == i.byZero
  {}

  lemma {:induction false} OldMeans(g: Gen, t: Smt, i: Interp, s: Sym, v: Value)
    requires OldTerm(g, t) && !Old(g, s)
    ensures Means(t, With(i, s, v)) == Means(t, i)
  {
    hide With, Read;
    match t
    case Name(x, k) => ReadWith(i, s, v, x, k);
    case Minus(x) => OldMeans(g, x, i, s, v);
    case Nope(x) => OldMeans(g, x, i, s, v);
    case Apply(_, l, r) =>
      ReadWith(i, s, v, s, IntS);
      OldMeans(g, l, i, s, v);
      OldMeans(g, r, i, s, v);
    case _ =>
  }

  // ---------------------------------------------------------- values and types

  ghost predicate EnvOk(env: Env, gamma: Types) {
    forall n :: n in gamma ==> n in env && ValueOk(env[n], gamma[n])
  }

  /** What the generator knows of a name in scope is its type. */
  ghost predicate Honest(known: Types, gamma: Types) {
    forall n :: n in known && n in gamma ==> known[n] == gamma[n]
  }

  lemma {:induction false} KnownIs(e: Expr, ty: string, gamma: Types, known: Types)
    requires Typed(e, ty, gamma, known) && Honest(known, gamma)
    ensures KnownTy(e, known).Some? ==> KnownTy(e, known).value == ty
    decreases e
  {
    match e
    case Borrow(x) => KnownIs(x, ty, gamma, known);
    case Binop(op, a, b) =>
      if Arithmetic(op) { KnownIs(a, ty, gamma, known); KnownIs(b, ty, gamma, known); }
    case _ =>
  }

  lemma KnownHonest(known: Types, gamma: Types, n: string, t: string, k: Option<string>)
    requires Honest(known, gamma) && (k.Some? ==> k.value == t)
    ensures Honest(Known(known, n, k), gamma[n := t])
  {}

  lemma HiddenHonest(known: Types, gamma: Types, p: Pat)
    requires Honest(known, gamma)
    ensures Honest(Hidden(p, known), Hidden(p, gamma))
  {}

  lemma QuotientBound(x: int, y: int)
    requires 0 <= x && 0 < y
    ensures 0 <= x / y <= x
  {
    var q, r := x / y, x % y;
    assert x == q * y + r && 0 <= r < y;
    if q < 0 { TimesLow(-q, y); } else { TimesLow(q, y); }
  }

  lemma {:induction false} TimesLow(q: int, y: int)
    requires 0 <= q && 0 < y
    ensures q <= q * y && (q > 0 ==> y <= q * y)
    decreases q
  {
    if q > 0 { TimesLow(q - 1, y); assert q * y == (q - 1) * y + y; }
  }

  lemma ComputeOk(op: BinOp, l: Value, r: Value, ty: string)
    requires Arithmetic(op) && IsUnsigned(ty) && ValueOk(l, ty) && ValueOk(r, ty)
    requires Compute(op, l, r, Some(ty)).Val?
    ensures ValueOk(Compute(op, l, r, Some(ty)).v, ty)
  {
    if op == Div { QuotientBound(l.n, r.n); }
  }

  /** A run's value is of its type. */
  lemma {:induction false} RunTyped(e: Expr, ty: string, env: Env, gamma: Types, known: Types)
    requires Typed(e, ty, gamma, known) && EnvOk(env, gamma) && Honest(known, gamma)
    ensures Run(e, env, known).Val? ==> ValueOk(Run(e, env, known).v, ty)
    ensures Run(e, env, known) != Stuck
    decreases e, 1
  {
    hide ValueOk, EnvOk, Honest, Compute;
    match e
    case Int(_) =>
    case Bool(_) => assert ValueOk(BoolV(e.b), "Bool") by { BoolOk(e.b); }
    case Var(n) => assert n in env && ValueOk(env[n], ty) by { EnvAt(env, gamma, n); }
    case Borrow(x) => RunTyped(x, ty, env, gamma, known);
    case Not(x) =>
      RunTyped(x, "Bool", env, gamma, known);
      BoolOk(true);
      BoolOk(false);
    case Binop(op, a, b) => BinopTyped(e, ty, env, gamma, known);
    case Let(n, v, rest) =>
      var t :| IsTy(t) && Typed(v, t, gamma, known) && (t == "Bool" ==> Phrased(v))
        && Typed(rest, ty, gamma[n := t], Known(known, n, KnownTy(v, known)));
      RunTyped(v, t, env, gamma, known);
      var o := Run(v, env, known);
      if o.Val? {
        EnvMore(env, gamma, n, o.v, t);
        KnownIs(v, t, gamma, known);
        KnownHonest(known, gamma, n, t, KnownTy(v, known));
        RunTyped(rest, ty, env[n := o.v], gamma[n := t], Known(known, n, KnownTy(v, known)));
      }
    case Match(scrut, arms) =>
      var t :| IsTy(t) && Typed(scrut, t, gamma, known)
        && forall k :: 0 <= k < |arms| ==>
             PatFor(arms[k].pat, t) && Typed(arms[k].body, ty, Hidden(arms[k].pat, gamma), Hidden(arms[k].pat, known));
      RunTyped(scrut, t, env, gamma, known);
      var o := Run(scrut, env, known);
      if o.Val? { ArmsTyped(e, arms, o.v, ty, env, gamma, known); }
  }

  lemma BoolOk(b: bool)
    ensures ValueOk(BoolV(b), "Bool")
  {}

  lemma EnvAt(env: Env, gamma: Types, n: string)
    requires EnvOk(env, gamma) && n in gamma
    ensures n in env && ValueOk(env[n], gamma[n])
  {}

  lemma EnvMore(env: Env, gamma: Types, n: string, v: Value, t: string)
    requires EnvOk(env, gamma) && ValueOk(v, t)
    ensures EnvOk(env[n := v], gamma[n := t])
  {
    hide ValueOk;
  }

  lemma EnvArm(env: Env, gamma: Types, p: Pat, v: Value)
    requires EnvOk(env, gamma)
    ensures EnvOk(Bound(p, v, env), Hidden(p, gamma))
  {
    hide ValueOk;
  }

  lemma {:induction false} BinopTyped(e: Expr, ty: string, env: Env, gamma: Types, known: Types)
    requires e.Binop? && Typed(e, ty, gamma, known) && EnvOk(env, gamma) && Honest(known, gamma)
    ensures Run(e, env, known).Val? ==> ValueOk(Run(e, env, known).v, ty)
    ensures Run(e, env, known) != Stuck
    decreases e, 0
  {
    hide EnvOk, Honest, Compute, ValueOk;
    var op, a, b := e.op, e.left, e.right;
    KnownIs(e, ty, gamma, known);
    if Arithmetic(op) {
      RunTyped(a, ty, env, gamma, known);
      RunTyped(b, ty, env, gamma, known);
      var l, r := Run(a, env, known), Run(b, env, known);
      if l.Val? && r.Val? {
        ComputeStuck(op, l.v, r.v, Some(ty));
        if Compute(op, l.v, r.v, Some(ty)).Val? { ComputeOk(op, l.v, r.v, ty); }
      }
    } else {
      BoolOk(true);
      BoolOk(false);
      var t := OperandTy(e, ty, gamma, known);
      RunTyped(a, t, env, gamma, known);
      RunTyped(b, t, env, gamma, known);
      var l, r := Run(a, env, known), Run(b, env, known);
      if l.Val? && r.Val? { ComputeStuck(op, l.v, r.v, KnownTy(e, known)); }
    }
  }

  lemma ComputeStuck(op: BinOp, l: Value, r: Value, ty: Option<string>)
    requires op != Concat
    ensures Compute(op, l, r, ty) != Stuck && Compute(op, l, r, ty) != NoArm
    ensures !Arithmetic(op) ==> Compute(op, l, r, ty) == Val(Decide(op, l, r)) && Decide(op, l, r).BoolV?
  {}

  lemma {:induction false} ArmsTyped(parent: Expr, arms: seq<Arm>, v: Value, ty: string, env: Env, gamma: Types,
                                     known: Types)
    requires forall k :: 0 <= k < |arms| ==> arms[k] < parent
    requires forall k :: 0 <= k < |arms| ==> Typed(arms[k].body, ty, Hidden(arms[k].pat, gamma),
                                                   Hidden(arms[k].pat, known))
    requires EnvOk(env, gamma) && Honest(known, gamma)
    ensures RunArms(parent, arms, v, env, known).Val? ==> ValueOk(RunArms(parent, arms, v, env, known).v, ty)
    ensures RunArms(parent, arms, v, env, known) != Stuck
    decreases parent, 0, |arms|
  {
    hide ValueOk, EnvOk, Honest, Typed, Run, Hidden, Bound;
    if arms != [] {
      if Fits(arms[0].pat, v) {
        EnvArm(env, gamma, arms[0].pat, v);
        HiddenHonest(known, gamma, arms[0].pat);
        RunTyped(arms[0].body, ty, Bound(arms[0].pat, v, env), Hidden(arms[0].pat, gamma), Hidden(arms[0].pat, known));
      } else {
        ArmsTyped(parent, arms[1..], v, ty, env, gamma, known);
      }
    }
  }

  // ------------------------------------------------ terms mean what runs compute

  lemma ScopeHonest(g: Gen, env: Env, i: Interp, gamma: Types, known: Types)
    requires Scope(g, env, i, gamma, known)
    ensures EnvOk(env, gamma) && Honest(known, gamma)
  {
    forall n | n in gamma ensures n in env && ValueOk(env[n], gamma[n]) && (n in known ==> known[n] == gamma[n]) {
      assert Stands(g, n, env[n], gamma[n], i, known);
    }
  }

  lemma {:induction false} TyOfKnown(g: Gen, e: Expr, ty: string, env: Env, i: Interp, gamma: Types, known: Types)
    requires Typed(e, ty, gamma, known) && Scope(g, env, i, gamma, known)
    ensures TyOf(g, e) == KnownTy(e, known)
    decreases e
  {
    hide Scope, Stands;
    match e
    case Var(n) => StandsAt(g, n, env, i, gamma, known);
    case Borrow(x) => TyOfKnown(g, x, ty, env, i, gamma, known);
    case Binop(op, a, b) =>
      if Arithmetic(op) {
        TyOfKnown(g, a, ty, env, i, gamma, known);
        TyOfKnown(g, b, ty, env, i, gamma, known);
      }
    case _ =>
  }

  lemma StandsAt(g: Gen, n: string, env: Env, i: Interp, gamma: Types, known: Types)
    requires Scope(g, env, i, gamma, known) && n in gamma
    ensures var s, ty := SymOf(g, n), gamma[n];
            && n in env && Old(g, s) && Read(i, s, SortAt(g, s)) == env[n] && ValueOk(env[n], ty) && IsTy(ty)
            && SortAt(g, s) == SortOf(ty)
            && (n in known <==> s in g.tys) && (n in known ==> g.tys[s] == known[n] == ty)
  {
    assert Stands(g, n, env[n], gamma[n], i, known);
  }

  /** The term of an expression is old, of its type's sort, and reads as what the
      run computes. */
  lemma {:induction false} TermMeans(g: Gen, e: Expr, ty: string, env: Env, i: Interp, gamma: Types, known: Types)
    requires Typed(e, ty, gamma, known) && Scope(g, env, i, gamma, known) && Term(g, e).Some?
    ensures var t := Term(g, e).value;
            && OldTerm(g, t.0) && t.1 == SortOf(ty)
            && (Run(e, env, known).Val? ==> Means(t.0, i) == Run(e, env, known).v)
    decreases e
  {
    hide Scope, Stands, SymOf, SortAt, Read;
    match e
    case Int(_) =>
    case Bool(_) =>
    case Var(n) => StandsAt(g, n, env, i, gamma, known);
    case Borrow(x) => TermMeans(g, x, ty, env, i, gamma, known);
    case Not(x) => TermMeans(g, x, "Bool", env, i, gamma, known);
    case Binop(op, a, b) =>
      var t := OperandTy(e, ty, gamma, known);
      TermMeans(g, a, t, env, i, gamma, known);
      TermMeans(g, b, t, env, i, gamma, known);
      BinopTerm(g, e, ty, t, env, i, gamma, known);
  }

  /** The type both operands have. */
  lemma OperandTy(e: Expr, ty: string, gamma: Types, known: Types) returns (t: string)
    requires e.Binop? && Typed(e, ty, gamma, known)
    ensures Typed(e.left, t, gamma, known) && Typed(e.right, t, gamma, known) && e.op != Concat
    ensures if Arithmetic(e.op) then t == ty && IsUnsigned(ty) else ty == "Bool"
  {
    if Arithmetic(e.op) {
      t := ty;
    } else if e.op == And || e.op == Or {
      t := "Bool";
    } else {
      t :| Operands(e.op, t) && Typed(e.left, t, gamma, known) && Typed(e.right, t, gamma, known);
    }
  }

  lemma BinopTerm(g: Gen, e: Expr, ty: string, t: string, env: Env, i: Interp, gamma: Types, known: Types)
    requires e.Binop? && e.op != Concat && Term(g, e).Some?
    requires if Arithmetic(e.op) then t == ty && IsUnsigned(ty) else ty == "Bool"
    requires var ta, tb := Term(g, e.left).value, Term(g, e.right).value;
             && OldTerm(g, ta.0) && ta.1 == SortOf(t)
               && (Run(e.left, env, known).Val? ==> Means(ta.0, i) == Run(e.left, env, known).v)
             && OldTerm(g, tb.0) && (Run(e.right, env, known).Val? ==> Means(tb.0, i) == Run(e.right, env, known).v)
    ensures var t := Term(g, e).value;
            && OldTerm(g, t.0) && t.1 == SortOf(ty)
            && (Run(e, env, known).Val? ==> Means(t.0, i) == Run(e, env, known).v)
  {
    hide Means, Compute, Decide;
    BinopMeans(e.op, Term(g, e.left).value.0, Term(g, e.right).value.0, Run(e.left, env, known),
               Run(e.right, env, known),
               KnownTy(e, known), i);
  }

  lemma BinopMeans(op: BinOp, ta: Smt, tb: Smt, l: Outcome, r: Outcome, ty: Option<string>, i: Interp)
    requires op != Concat && (l.Val? ==> Means(ta, i) == l.v) && (r.Val? ==> Means(tb, i) == r.v)
    ensures var t := if op == Ne then Nope(Apply(Eq, ta, tb)) else Apply(op, ta, tb);
            && (l.Val? && op == And && !AsBool(l.v) ==> Means(t, i) == BoolV(false))
            && (l.Val? && op == Or && AsBool(l.v) ==> Means(t, i) == BoolV(true))
            && (l.Val? && r.Val? && Compute(op, l.v, r.v, ty).Val? ==> Means(t, i) == Compute(op, l.v, r.v, ty).v)
  {
    hide Range, IsUnsigned;
  }

  lemma {:induction false} PhrasedTerm(g: Gen, e: Expr)
    requires Phrased(e)
    ensures Term(g, e).Some?
  {
    match e
    case Borrow(x) => PhrasedTerm(g, x);
    case Not(x) => PhrasedTerm(g, x);
    case Binop(_, a, b) => PhrasedTerm(g, a); PhrasedTerm(g, b);
    case _ =>
  }

  // ------------------------------------------------------- what guards teach

  lemma {:induction false} StripTyped(e: Expr, ty: string, env: Env, gamma: Types, known: Types)
    requires Typed(e, ty, gamma, known)
    ensures Typed(Strip(e), ty, gamma, known) && Run(Strip(e), env, known) == Run(e, env, known)
    decreases e
  {
    if e.Borrow? { StripTyped(e.operand, ty, env, gamma, known); }
  }

  ghost predicate True(e: Expr, env: Env, gamma: Types, known: Types) {
    Typed(e, "Bool", gamma, known) && Run(e, env, known) == Val(BoolV(true))
  }

  /** A conjunction found true makes each of its conjuncts true. */
  lemma {:induction false} ConjunctsTrue(e: Expr, env: Env, gamma: Types, known: Types)
    requires True(e, env, gamma, known) && EnvOk(env, gamma) && Honest(known, gamma)
    ensures forall k :: 0 <= k < |Conjuncts(e)| ==> True(Conjuncts(e)[k], env, gamma, known)
    decreases e
  {
    hide EnvOk, Honest, True;
    if e.Binop? && e.op == And {
      AndTrue(e, env, gamma, known);
      StripSmaller(e.left);
      StripSmaller(e.right);
      ConjunctsTrue(Strip(e.left), env, gamma, known);
      ConjunctsTrue(Strip(e.right), env, gamma, known);
    }
  }

  lemma AndTrue(e: Expr, env: Env, gamma: Types, known: Types)
    requires e.Binop? && e.op == And && True(e, env, gamma, known) && EnvOk(env, gamma) && Honest(known, gamma)
    ensures True(Strip(e.left), env, gamma, known) && True(Strip(e.right), env, gamma, known)
  {
    hide EnvOk, Honest;
    RunTyped(e.left, "Bool", env, gamma, known);
    RunTyped(e.right, "Bool", env, gamma, known);
    StripTyped(e.left, "Bool", env, gamma, known);
    StripTyped(e.right, "Bool", env, gamma, known);
  }

  ghost predicate Facts(g: Gen, ts: seq<Smt>, i: Interp) { AllHold(ts, i) && OldTerms(g, ts) }

  lemma NoFacts(g: Gen, i: Interp)
    ensures Facts(g, [], i)
  {}

  lemma OneFact(g: Gen, t: Smt, i: Interp)
    requires Holds(t, i) && OldTerm(g, t)
    ensures Facts(g, [t], i)
  {}

  lemma MoreFacts(g: Gen, a: seq<Smt>, b: seq<Smt>, i: Interp)
    requires Facts(g, a, i) && Facts(g, b, i)
    ensures Facts(g, a + b, i)
  {
    hide Holds, OldTerm;
    forall k | 0 <= k < |a + b| ensures Holds((a + b)[k], i) && OldTerm(g, (a + b)[k]) {
      if k < |a| { assert (a + b)[k] == a[k]; } else { assert (a + b)[k] == b[k - |a|]; }
    }
  }

  lemma {:induction false} TruthsHold(g: Gen, es: seq<Expr>, env: Env, i: Interp, gamma: Types, known: Types)
    requires Scope(g, env, i, gamma, known) && forall k :: 0 <= k < |es| ==> True(es[k], env, gamma, known)
    ensures Facts(g, Truths(g, es), i)
  {
    hide Scope, Facts, Term, OldTerm, Means, Run, Typed;
    if es == [] {
      NoFacts(g, i);
    } else {
      assert True(es[0], env, gamma, known);
      TruthsHold(g, es[1..], env, i, gamma, known);
      var t := Term(g, es[0]);
      if t.Some? && t.value.1 == BoolS {
        TermMeans(g, es[0], "Bool", env, i, gamma, known);
        OneFact(g, t.value.0, i);
        MoreFacts(g, [t.value.0], Truths(g, es[1..]), i);
      } else {
        assert Truths(g, es) == Truths(g, es[1..]);
      }
    }
  }

  /** Past a guard that let the right operand run, what it assumes is so. */
  lemma GuardHolds(g: Gen, e: Expr, env: Env, i: Interp, gamma: Types, known: Types)
    requires e.Binop? && Typed(e, "Bool", gamma, known) && (e.op == And || e.op == Or) && Scope(g, env, i, gamma, known)
    requires Run(e.left, env, known).Val? && AsBool(Run(e.left, env, known).v) == (e.op == And)
    ensures Facts(g, Guard(g, e.op, e.left), i)
  {
    hide Scope, Facts, Conjuncts, Truths;
    ScopeHonest(g, env, i, gamma, known);
    RunTyped(e.left, "Bool", env, gamma, known);
    NoFacts(g, i);
    if e.op == And {
      StripTyped(e.left, "Bool", env, gamma, known);
      ConjunctsTrue(Strip(e.left), env, gamma, known);
      TruthsHold(g, Conjuncts(Strip(e.left)), env, i, gamma, known);
    } else {
      var t := Term(g, e.left);
      if t.Some? && t.value.1 == BoolS {
        TermMeans(g, e.left, "Bool", env, i, gamma, known);
        OneFact(g, Nope(t.value.0), i);
      }
    }
  }
}
