/** An obligation that is not valid is a run that faults: nothing is asked in vain and
    no hypothesis is missing, where the solver can be told everything (src/refine.rs). */
module VcExact {
  import opened Wrappers
  import opened Ast
  import opened VcGen
  import opened VcSound

  predicate Irrefutable(p: Pat) { p.PWild? || p.PVar? }

  /** Some arm applies to every value of the type the patterns are for, and an arm
      that always applies is the last. */
  ghost predicate Complete(arms: seq<Arm>) {
    && (forall k :: 0 <= k < |arms| && Irrefutable(arms[k].pat) ==> k == |arms| - 1)
    && ((arms != [] && Irrefutable(arms[|arms| - 1].pat))
        || ((exists k :: 0 <= k < |arms| && arms[k].pat == PBool(true))
            && exists k :: 0 <= k < |arms| && arms[k].pat == PBool(false)))
  }

  /** The solver can be told all of it: what is computed with, bound, matched on or tested by
      `&&` and `||` is a term, and every match is complete. */
  ghost predicate Told(e: Expr)
    decreases e
  {
    match e
    case Int(_) => true
    case Bool(_) => true
    case Var(_) => true
    case Borrow(x) => Told(x)
    case Not(x) => Told(x)
    case Binop(op, a, b) =>
      && Told(a) && Told(b) && op != Concat
      && (Arithmetic(op) ==> Phrased(a) && Phrased(b)) && (ShortCircuit(op) ==> Phrased(a))
    case Let(_, v, rest) => Phrased(v) && Told(v) && Told(rest)
    case Match(scrut, arms) =>
      Phrased(scrut) && Told(scrut) && Complete(arms) && forall k :: 0 <= k < |arms| ==> Told(arms[k].body)
    case _ => false
  }

  /** The reading makes the hypotheses true and the goal false. */
  ghost predicate Fails(o: Ob, i: Interp) { AllHold(o.hyps, i) && !Holds(o.goal, i) }

  // ------------------------------------------------- obligations keep hypotheses

  /** What was asked between the two states was asked under `hyps` at least. */
  ghost predicate Extends(g: Gen, g': Gen, hyps: seq<Smt>) {
    forall k :: |g.obs| <= k < |g'.obs| ==> hyps <= g'.obs[k].hyps
  }

  lemma ExtendsChain(g: Gen, g1: Gen, g2: Gen, hyps: seq<Smt>)
    requires Extends(g, g1, hyps) && Extends(g1, g2, hyps) && g.obs <= g1.obs <= g2.obs
    ensures Extends(g, g2, hyps)
  {
    forall k | |g.obs| <= k < |g2.obs| ensures hyps <= g2.obs[k].hyps {
      if k < |g1.obs| { assert g2.obs[k] == g1.obs[k]; }
    }
  }

  lemma ExtendsLess(g: Gen, g': Gen, hyps: seq<Smt>, more: seq<Smt>)
    requires Extends(g, g', hyps + more)
    ensures Extends(g, g', hyps)
  {}

  lemma SameObs(g: Gen, h: Gen, g': Gen, h': Gen, hyps: seq<Smt>)
    requires Extends(g, g', hyps) && g.obs == h.obs && g'.obs == h'.obs
    ensures Extends(h, h', hyps)
  {}

  lemma ArithExtends(g: Gen, op: BinOp, a: Expr, b: Expr)
    ensures Extends(g, Arith(g, op, a, b), g.hyps)
  {
    hide Term, TyOf, Range, IsUnsigned;
  }

  lemma {:induction false} Extended(g: Gen, e: Expr)
    ensures Extends(g, Generate(g, e), g.hyps)
    decreases e, 1
  {
    hide Extends, Frame, Later, Arith, Guard, LetGen, Term, GenerateArms;
    match e
    case Binop(op, a, b) =>
      var g1 := Generate(g, a);
      var more := Guard(g1, op, a);
      var h := g1.(hyps := g1.hyps + more);
      var g2 := Generate(h, b);
      var g3 := g2.(hyps := g1.hyps);
      BinopSteps(g, e);
      FrameParts(g, g1);
      FrameParts(h, g2);
      FrameParts(g3, Generate(g, e));
      Extended(g, a);
      Extended(h, b);
      ExtendsLess(h, g2, g1.hyps, more);
      SameObs(h, g1, g2, g3, g.hyps);
      ArithExtends(g3, op, a, b);
      ExtendsChain(g, g1, g3, g.hyps);
      ExtendsChain(g, g3, Generate(g, e), g.hyps);
    case Neg(x) => Extended(g, x);
    case Not(x) => Extended(g, x);
    case Borrow(x) => Extended(g, x);
    case Let(n, v, rest) =>
      var g1 := Generate(g, v);
      var l := LetGen(g1, n, v);
      var g2 := Generate(l, rest);
      LetSteps(g, e);
      FrameParts(g, g1);
      FrameParts(l, g2);
      Extended(g, v);
      Extended(l, rest);
      LetHypsGrow(g1, n, v);
      assert l.hyps == g.hyps + l.hyps[|g.hyps|..];
      ExtendsLess(l, g2, g.hyps, l.hyps[|g.hyps|..]);
      SameObs(l, g1, g2, Generate(g, e), g.hyps);
      ExtendsChain(g, g1, Generate(g, e), g.hyps);
    case Match(scrut, arms) =>
      var g1 := Generate(g, scrut);
      MatchSteps(g, e);
      FrameParts(g, g1);
      FrameParts(g1, Generate(g, e));
      Extended(g, scrut);
      ExtendedArms(g1, e, Term(g1, scrut), scrut, arms, []);
      ExtendsLess(g1, Generate(g, e), g.hyps, []);
      ExtendsChain(g, g1, Generate(g, e), g.hyps);
    case _ => NothingAsked(g, g.hyps);
  }

  lemma NothingAsked(g: Gen, hyps: seq<Smt>)
    ensures Extends(g, g, hyps)
  {}

  lemma {:induction false} ExtendedArms(g: Gen, parent: Expr, s: Option<(Smt, Sort)>, scrut: Expr, arms: seq<Arm>,
                                        past: seq<Smt>)
    requires forall k :: 0 <= k < |arms| ==> arms[k] < parent
    ensures Extends(g, GenerateArms(g, parent, s, scrut, arms, past), g.hyps + past)
    decreases parent, 0, |arms|
  {
    hide Extends, Frame, Later, ArmGuard, Refuted, Generate, GenerateArms;
    if arms == [] {
      LastArm(g, parent, s, scrut, arms, past);
      NothingAsked(g, g.hyps + past);
    } else {
      var known := ArmGuard(g, s, scrut, arms[0].pat);
      var more := past + known;
      var h := g.(hyps := g.hyps + more);
      var g1 := Generate(h, arms[0].body);
      var g2 := g1.(hyps := g.hyps, tys := g.tys);
      var g3 := GenerateArms(g, parent, s, scrut, arms, past);
      ArmsStep(g, parent, s, scrut, arms, past);
      FrameParts(g, g2);
      FrameParts(g2, g3);
      Extended(h, arms[0].body);
      assert h.hyps == (g.hyps + past) + known;
      ExtendsLess(h, g1, g.hyps + past, known);
      SameObs(h, g, g1, g2, g.hyps + past);
      var refuted := Refuted(s, arms[0].pat);
      ExtendedArms(g2, parent, s, scrut, arms[1..], past + refuted);
      assert g2.hyps + (past + refuted) == (g.hyps + past) + refuted;
      ExtendsLess(g2, g3, g.hyps + past, refuted);
      ExtendsChain(g, g2, g3, g.hyps + past);
    }
  }

  // ------------------------------------------------------------ nothing unasked

  lemma ArithTold(g: Gen, op: BinOp, a: Expr, b: Expr)
    requires Arithmetic(op) ==> Phrased(a) && Phrased(b)
    ensures Arith(g, op, a, b).skipped == g.skipped
  {
    hide Term, TyOf, Range, IsUnsigned;
    if Arithmetic(op) {
      PhrasedTerm(g, a);
      PhrasedTerm(g, b);
    }
  }

  /** Every operation in such an expression is asked about. */
  lemma {:induction false} NoneSkipped(g: Gen, e: Expr)
    requires Told(e)
    ensures Generate(g, e).skipped == g.skipped
    decreases e, 1
  {
    hide Arith, Guard, LetGen, Term, GenerateArms, Complete, Phrased, Frame;
    match e
    case Binop(op, a, b) =>
      var g1 := Generate(g, a);
      var h := g1.(hyps := g1.hyps + Guard(g1, op, a));
      NoneSkipped(g, a);
      NoneSkipped(h, b);
      ArithTold(Generate(h, b).(hyps := g1.hyps), op, a, b);
    case Borrow(x) => NoneSkipped(g, x);
    case Not(x) => NoneSkipped(g, x);
    case Let(n, v, rest) =>
      NoneSkipped(g, v);
      LetSteps(g, e);
      NoneSkipped(LetGen(Generate(g, v), n, v), rest);
    case Match(scrut, arms) =>
      NoneSkipped(g, scrut);
      NoneSkippedArms(Generate(g, scrut), e, Term(Generate(g, scrut), scrut), scrut, arms, []);
    case _ =>
  }

  lemma {:induction false} NoneSkippedArms(g: Gen, parent: Expr, s: Option<(Smt, Sort)>, scrut: Expr, arms: seq<Arm>,
                                           past: seq<Smt>)
    requires forall k :: 0 <= k < |arms| ==> arms[k] < parent && Told(arms[k].body)
    ensures GenerateArms(g, parent, s, scrut, arms, past).skipped == g.skipped
    decreases parent, 0, |arms|
  {
    hide ArmGuard, Refuted, Generate, GenerateArms, Told, Frame;
    if arms == [] {
      LastArm(g, parent, s, scrut, arms, past);
    } else {
      ArmsStep(g, parent, s, scrut, arms, past);
      var h := g.(hyps := g.hyps + (past + ArmGuard(g, s, scrut, arms[0].pat)));
      var g1 := Generate(h, arms[0].body);
      NoneSkipped(h, arms[0].body);
      NoneSkippedArms(g1.(hyps := g.hyps, tys := g.tys), parent, s, scrut, arms[1..], past + Refuted(s, arms[0].pat));
    }
  }

  // -------------------------------------------------------- what guards leave out

  lemma {:induction false} StripTerm(g: Gen, e: Expr)
    ensures Term(g, Strip(e)) == Term(g, e)
  {
    if e.Borrow? { StripTerm(g, e.operand); }
  }

  ghost predicate False(g: Gen, e: Expr, env: Env, gamma: Types, known: Types) {
    Typed(e, "Bool", gamma, known) && Run(e, env, known) == Val(BoolV(false)) && Term(g, e).Some?
  }

  /** A conjunction found false has a conjunct found false. */
  lemma {:induction false} ConjunctFalse(g: Gen, e: Expr, env: Env, gamma: Types, known: Types) returns (j: nat)
    requires False(g, e, env, gamma, known) && EnvOk(env, gamma) && Honest(known, gamma)
    ensures j < |Conjuncts(e)| && False(g, Conjuncts(e)[j], env, gamma, known)
    decreases e
  {
    hide EnvOk, Honest, False;
    if e.Binop? && e.op == And {
      AndFalse(g, e, env, gamma, known);
      StripSmaller(e.left);
      StripSmaller(e.right);
      if False(g, Strip(e.left), env, gamma, known) {
        j := ConjunctFalse(g, Strip(e.left), env, gamma, known);
      } else {
        var k := ConjunctFalse(g, Strip(e.right), env, gamma, known);
        j := |Conjuncts(Strip(e.left))| + k;
      }
    } else {
      j := 0;
    }
  }

  lemma AndFalse(g: Gen, e: Expr, env: Env, gamma: Types, known: Types)
    requires e.Binop? && e.op == And && False(g, e, env, gamma, known) && EnvOk(env, gamma) && Honest(known, gamma)
    ensures False(g, Strip(e.left), env, gamma, known) || False(g, Strip(e.right), env, gamma, known)
  {
    hide EnvOk, Honest;
    RunTyped(e.left, "Bool", env, gamma, known);
    RunTyped(e.right, "Bool", env, gamma, known);
    StripTyped(e.left, "Bool", env, gamma, known);
    StripTyped(e.right, "Bool", env, gamma, known);
    StripTerm(g, e.left);
    StripTerm(g, e.right);
  }

  lemma {:induction false} TruthsFail(g: Gen, es: seq<Expr>, j: nat, env: Env, i: Interp, gamma: Types, known: Types)
    requires Scope(g, env, i, gamma, known) && j < |es| && False(g, es[j], env, gamma, known)
    ensures !AllHold(Truths(g, es), i)
    decreases |es|
  {
    hide Scope, Term, Means, Run, Typed;
    var t := Term(g, es[0]);
    var here := if t.Some? && t.value.1 == BoolS then [t.value.0] else [];
    assert Truths(g, es) == here + Truths(g, es[1..]);
    if j == 0 {
      TermMeans(g, es[0], "Bool", env, i, gamma, known);
      assert Truths(g, es)[0] == t.value.0;
    } else {
      TruthsFail(g, es[1..], j - 1, env, i, gamma, known);
      var k :| 0 <= k < |Truths(g, es[1..])| && !Holds(Truths(g, es[1..])[k], i);
      assert Truths(g, es)[|here| + k] == Truths(g, es[1..])[k];
    }
  }

  lemma NopeMeans(t: Smt, i: Interp)
    ensures Means(Nope(t), i) == BoolV(!AsBool(Means(t, i)))
  {}

  /** What the right operand may assume holds exactly where it is evaluated. */
  lemma GuardExact(g: Gen, e: Expr, env: Env, i: Interp, gamma: Types, known: Types)
    requires e.Binop? && Typed(e, "Bool", gamma, known) && ShortCircuit(e.op) && Scope(g, env, i, gamma, known)
    requires Run(e.left, env, known).Val? && Term(g, e.left).Some?
    ensures AllHold(Guard(g, e.op, e.left), i) <==> AsBool(Run(e.left, env, known).v) == (e.op == And)
  {
    hide Scope, Conjuncts, Truths, Run, Term, Means;
    ScopeHonest(g, env, i, gamma, known);
    RunTyped(e.left, "Bool", env, gamma, known);
    TermMeans(g, e.left, "Bool", env, i, gamma, known);
    if AsBool(Run(e.left, env, known).v) == (e.op == And) {
      GuardHolds(g, e, env, i, gamma, known);
    } else if e.op == And {
      var s := Strip(e.left);
      StripTyped(e.left, "Bool", env, gamma, known);
      StripTerm(g, e.left);
      var j := ConjunctFalse(g, s, env, gamma, known);
      TruthsFail(g, Conjuncts(s), j, env, i, gamma, known);
    } else {
      assert Guard(g, e.op, e.left) == [Nope(Term(g, e.left).value.0)];
      NopeMeans(Term(g, e.left).value.0, i);
      assert !Holds(Guard(g, e.op, e.left)[0], i);
    }
  }

  /** An arm on a literal assumes what holds exactly where it is taken, and leaves those
      below it what holds exactly where it is not. */
  lemma ArmExact(g: Gen, scrut: Expr, t: string, p: Pat, env: Env, i: Interp, gamma: Types, known: Types)
    requires Typed(scrut, t, gamma, known) && IsTy(t) && Scope(g, env, i, gamma, known)
    requires Run(scrut, env, known).Val? && Term(g, scrut).Some? && PatFor(p, t) && !Irrefutable(p)
    ensures AllHold(ArmGuard(g, Term(g, scrut), scrut, p), i) <==> Fits(p, Run(scrut, env, known).v)
    ensures AllHold(Refuted(Term(g, scrut), p), i) <==> !Fits(p, Run(scrut, env, known).v)
  {
    hide Scope, Typed, Run, Term, Means;
    var s, v := Term(g, scrut), Run(scrut, env, known).v;
    ScopeHonest(g, env, i, gamma, known);
    RunTyped(scrut, t, env, gamma, known);
    TermMeans(g, scrut, t, env, i, gamma, known);
    assert ArmHyp(s, p).Some?;
    LiteralFact(s.value.0, s.value.1, p, v, i);
    var h := ArmHyp(s, p).value;
    assert ArmGuard(g, s, scrut, p) == [h] && Refuted(s, p) == [Nope(h)];
  }

  lemma LiteralFact(t: Smt, k: Sort, p: Pat, v: Value, i: Interp)
    requires Means(t, i) == v && ArmHyp(Some((t, k)), p).Some? && (k == BoolS ==> v.BoolV?)
    ensures var h := ArmHyp(Some((t, k)), p).value;
            (AllHold([h], i) <==> Fits(p, v)) && (AllHold([Nope(h)], i) <==> !Fits(p, v))
  {
    var h := ArmHyp(Some((t, k)), p).value;
    assert Means(h, i) == BoolV(Fits(p, v));
    assert Holds([h][0], i) <==> Fits(p, v);
    assert Holds([Nope(h)][0], i) <==> !Fits(p, v);
  }

  // ------------------------------------------------------------- one operation

  lemma DivFails(tb: Smt, r: Value, i: Interp)
    requires Means(tb, i) == r && r.IntV? && !Holds(Nope(Apply(Eq, tb, Num(0))), i)
    ensures AsInt(r) == 0
  {
    assert Means(Apply(Eq, tb, Num(0)), i) == BoolV(r == IntV(0));
  }

  lemma SubFails(ta: Smt, tb: Smt, l: Value, r: Value, i: Interp)
    requires Means(ta, i) == l && Means(tb, i) == r && !Holds(Apply(Ge, ta, tb), i)
    ensures AsInt(l) < AsInt(r)
  {}

  lemma BoundsFail(t: Smt, lo: int, hi: int, i: Interp)
    requires !Holds(Apply(And, Apply(Le, t, Num(hi)), Apply(Ge, t, Num(lo))), i)
    ensures !(lo <= AsInt(Means(t, i)) <= hi)
  {
    hide Means;
    MeansApply(And, Apply(Le, t, Num(hi)), Apply(Ge, t, Num(lo)), i);
    MeansApply(Le, t, Num(hi), i);
    MeansApply(Ge, t, Num(lo), i);
    NumMeans(lo, i);
    NumMeans(hi, i);
  }

  /** A goal about an operation that does not hold is an operation that faults in the way the
      obligation names. */
  lemma OperationFails(g: Gen, e: Expr, ty: string, l: Value, r: Value, k: nat, i: Interp)
    requires e.Binop? && Arithmetic(e.op) && TyOf(g, e) == Some(ty)
    requires Operand(g, e.left, l, ty, i) && Operand(g, e.right, r, ty, i)
    requires Term(g, e.left).Some? && Term(g, e.right).Some?
    requires |g.obs| <= k < |Arith(g, e.op, e.left, e.right).obs|
    requires !Holds(Arith(g, e.op, e.left, e.right).obs[k].goal, i)
    ensures Compute(e.op, l, r, Some(ty)) == Fault(Arith(g, e.op, e.left, e.right).obs[k].kind)
  {
    hide Term, Means, TyOf, Holds, Range, Bounded;
    TyOfParts(g, e);
    var ta, tb := Term(g, e.left).value, Term(g, e.right).value;
    if e.op == Div {
      DivFails(tb.0, r, i);
    } else if e.op == Sub {
      SubFails(ta.0, tb.0, l, r, i);
    } else {
      BoundedFails(g, e.op, ta, tb, ty, l, r, k, i);
    }
  }

  lemma BoundedFails(g: Gen, op: BinOp, ta: (Smt, Sort), tb: (Smt, Sort), ty: string, l: Value, r: Value, k: nat,
                     i: Interp)
    requires (op == Add || op == Mul) && Means(ta.0, i) == l && Means(tb.0, i) == r
    requires |g.obs| <= k < |Bounded(g, op, Some(ta), Some(tb), Some(ty)).obs|
    requires !Holds(Bounded(g, op, Some(ta), Some(tb), Some(ty)).obs[k].goal, i)
    ensures !InRange(if op == Add then AsInt(l) + AsInt(r) else AsInt(l) * AsInt(r), ty)
    ensures Bounded(g, op, Some(ta), Some(tb), Some(ty)).obs[k].kind == Overflow
  {
    hide Means, Holds;
    var range := Range(ty).value;
    BoundsFail(Apply(op, ta.0, tb.0), range.0, range.1.value, i);
    MeansApply(op, ta.0, tb.0, i);
  }

  /** The same at the moment of a run that has both operands. */
  lemma ArithFails(g: Gen, e: Expr, ty: string, env: Env, k: nat, i: Interp, gamma: Types, known: Types)
    requires e.Binop? && Arithmetic(e.op) && Typed(e, ty, gamma, known) && Scope(g, env, i, gamma, known)
    requires Phrased(e.left) && Phrased(e.right)
    requires Run(e.left, env, known).Val? && Run(e.right, env, known).Val?
    requires |g.obs| <= k < |Arith(g, e.op, e.left, e.right).obs|
    requires !Holds(Arith(g, e.op, e.left, e.right).obs[k].goal, i)
    ensures Compute(e.op, Run(e.left, env, known).v, Run(e.right, env, known).v, KnownTy(e, known))
         == Fault(Arith(g, e.op, e.left, e.right).obs[k].kind)
  {
    hide Run, Typed, Term, Means, Scope, EnvOk, Honest, TyOf, KnownTy, Arith, ValueOk, Compute, Holds, Phrased;
    var a, b := e.left, e.right;
    ArithTyped(e, ty, gamma, known);
    ScopeHonest(g, env, i, gamma, known);
    KnownIs(e, ty, gamma, known);
    TyOfKnown(g, e, ty, env, i, gamma, known);
    RunTyped(a, ty, env, gamma, known);
    RunTyped(b, ty, env, gamma, known);
    PhrasedTerm(g, a);
    PhrasedTerm(g, b);
    TermMeans(g, a, ty, env, i, gamma, known);
    TermMeans(g, b, ty, env, i, gamma, known);
    OperationFails(g, e, ty, Run(a, env, known).v, Run(b, env, known).v, k, i);
  }

  lemma ArithAsksOnly(g: Gen, op: BinOp, a: Expr, b: Expr)
    requires !Arithmetic(op)
    ensures Arith(g, op, a, b) == g
  {}

  // ------------------------------------------------------------------- binders

  lemma PrefixHolds(a: seq<Smt>, b: seq<Smt>, i: Interp)
    requires a <= b && AllHold(b, i)
    ensures AllHold(a, i)
  {
    hide Holds;
    forall k | 0 <= k < |a| ensures Holds(a[k], i) { assert a[k] == b[k]; }
  }

  /** The equation of a `let` makes its symbol read as the value. */
  lemma EquationReads(g: Gen, n: string, v: Expr, x: Value, i: Interp)
    requires Term(g, v).Some? && Means(Term(g, v).value.0, i) == x && AllHold(LetGen(g, n, v).hyps, i)
    ensures Read(i, Fresh(g, n).0, Term(g, v).value.1) == x
  {
    hide Term, TyOf, RangeHyps, Fresh, Read;
    FreshIsNew(g, n);
    var val, s := Term(g, v).value, Fresh(g, n).0;
    var hyps := LetGen(g, n, v).hyps;
    assert hyps[|g.hyps|] == Apply(Eq, Name(s, val.1), val.0);
    assert Holds(hyps[|g.hyps|], i);
    EquationAt(hyps, |g.hyps|, i);
    assert Means(Name(s, val.1), i) == Read(i, s, val.1);
  }

  /** Any reading in which what a `let` adds holds describes the start of its body. */
  lemma LetTold(g: Gen, n: string, v: Expr, t: string, env: Env, i: Interp, gamma: Types, known: Types)
    requires Typed(v, t, gamma, known) && IsTy(t) && Phrased(v) && Models(g, env, i, gamma, known)
    requires Run(v, env, known).Val? && AllHold(LetGen(g, n, v).hyps, i)
    ensures Models(LetGen(g, n, v), env[n := Run(v, env, known).v], i, gamma[n := t],
                   Known(known, n, KnownTy(v, known)))
  {
    hide Typed, Run, Models, Scope, Tidy, AllHold, EnvOk, Honest, LetGen, Term, Means, KnownTy, Known, Phrased, Read,
         With, Fresh, ValueOk;
    var x, s := Run(v, env, known).v, Fresh(g, n).0;
    var g', gamma', known' := LetGen(g, n, v), gamma[n := t], Known(known, n, KnownTy(v, known));
    LetModels(g, n, v, t, env, i, gamma, known);
    ModelsScope(g, env, i, gamma, known);
    PhrasedTerm(g, v);
    RunTyped(v, t, env, gamma, known);
    TermMeans(g, v, t, env, i, gamma, known);
    EquationReads(g, n, v, x, i);
    ModelsScope(g', env[n := x], With(i, s, x), gamma', known');
    ModelsTidy(g', env[n := x], With(i, s, x), gamma', known');
    SortFits(x, t);
    ScopeReads(g', env[n := x], i, s, x, t, gamma', known', n) by {
      LetSym(g, n, v);
      FreshIsNew(g, n);
      forall m | m in gamma' && SymOf(g', m) == s ensures gamma'[m] == t {
        if m != n { StandsAt(g, m, env, i, gamma, known); }
      }
    }
    ModelsAre(g', env[n := x], i, gamma', known');
  }

  lemma ScopeReads(g: Gen, env: Env, i: Interp, s: Sym, x: Value, t: string, gamma: Types, known: Types, n: string)
    requires Scope(g, env, With(i, s, x), gamma, known)
    requires Read(i, s, SortOf(t)) == x && (if x.IntV? then IntS else BoolS) == SortOf(t)
    requires forall m :: m in gamma && SymOf(g, m) == s ==> gamma[m] == t
    ensures Scope(g, env, i, gamma, known)
  {
    hide Read, With, ValueOk, IsTy, Old, SymOf, SortOf;
    forall m | m in gamma ensures m in env && Stands(g, m, env[m], gamma[m], i, known) {
      StandsAt(g, m, env, With(i, s, x), gamma, known);
      ReadWith(i, s, x, SymOf(g, m), SortOf(gamma[m]));
    }
  }

  // ------------------------------------------------------------------ the runs

  ghost predicate Faulty(o: Outcome) { !o.Val? }

  /** A reading of the moment in which something asked of `e` fails shows a run of `e` that
      does not end in a value. */
  lemma {:induction false} Shows(g: Gen, e: Expr, ty: string, env: Env, k: nat, i: Interp, gamma: Types, known: Types)
    requires Typed(e, ty, gamma, known) && Told(e) && Models(g, env, i, gamma, known)
    requires |g.obs| <= k < |Generate(g, e).obs| && Fails(Generate(g, e).obs[k], i)
    ensures Faulty(Run(e, env, known))
    decreases e, 1
  {
    hide Models, Generate, Compute, KnownTy, Hidden, Known, Fails, Complete, Phrased;
    match e
    case Int(_) => LeafAsks(g, e);
    case Bool(_) => LeafAsks(g, e);
    case Var(_) => LeafAsks(g, e);
    case Borrow(x) => SameGenerate(g, e); Shows(g, x, ty, env, k, i, gamma, known);
    case Not(x) => SameGenerate(g, e); Shows(g, x, "Bool", env, k, i, gamma, known);
    case Binop(_, _, _) => ShowsBinop(g, e, ty, env, k, i, gamma, known);
    case Let(_, _, _) => ShowsLet(g, e, ty, env, k, i, gamma, known);
    case Match(_, _) => ShowsMatch(g, e, ty, env, k, i, gamma, known);
  }

  lemma LeafAsks(g: Gen, e: Expr)
    requires e.Int? || e.Bool? || e.Var?
    ensures Generate(g, e) == g
  {}

  lemma FailsUnder(o: Ob, hyps: seq<Smt>, i: Interp)
    requires Fails(o, i) && hyps <= o.hyps
    ensures AllHold(hyps, i)
  {
    hide AllHold, Holds;
    PrefixHolds(hyps, o.hyps, i);
  }

  lemma ExtendsAt(g: Gen, g': Gen, hyps: seq<Smt>, k: nat)
    requires Extends(g, g', hyps) && |g.obs| <= k < |g'.obs|
    ensures hyps <= g'.obs[k].hyps
  {}

  lemma {:induction false} ShowsBinop(g: Gen, e: Expr, ty: string, env: Env, k: nat, i: Interp, gamma: Types,
                                      known: Types)
    requires e.Binop? && Typed(e, ty, gamma, known) && Told(e) && Models(g, env, i, gamma, known)
    requires |g.obs| <= k < |Generate(g, e).obs| && Fails(Generate(g, e).obs[k], i)
    ensures Faulty(Run(e, env, known))
    decreases e, 0
  {
    hide Models, Generate, Compute, KnownTy, Frame, Later, Guard, Arith, Typed, Facts, Scope, AllHold, EnvOk, Honest,
         Fails, Extends, Phrased;
    var op, a, b := e.op, e.left, e.right;
    var g1 := Generate(g, a);
    var more := Guard(g1, op, a);
    var h := g1.(hyps := g1.hyps + more);
    var g2 := Generate(h, b);
    var g3 := g2.(hyps := g1.hyps);
    BinopSteps(g, e);
    FrameParts(g, g1);
    FrameParts(h, g2);
    FrameParts(g3, Generate(g, e));
    var t := OperandTy(e, ty, gamma, known);
    if k < |g1.obs| {
      assert Generate(g, e).obs[k] == g1.obs[k];
      Shows(g, a, t, env, k, i, gamma, known);
    } else if Run(a, env, known).Val? {
      ModelsFrame(g, g1, env, i, gamma, known);
      if k < |g3.obs| {
        assert Generate(g, e).obs[k] == g2.obs[k];
        Extended(h, b);
        ExtendsAt(h, g2, h.hyps, k);
        FailsUnder(g2.obs[k], h.hyps, i);
        ShowsRight(g1, e, ty, t, env, k, i, gamma, known);
      } else if !Arithmetic(op) {
        ArithAsksOnly(g3, op, a, b);
      } else if Run(b, env, known).Val? {
        ModelsFrame(g1, g3, env, i, gamma, known);
        ShowsOperation(g3, e, ty, env, k, i, gamma, known);
      }
    }
  }

  /** An obligation of the right operand: the reading says that it is evaluated. */
  lemma {:induction false} ShowsRight(g: Gen, e: Expr, ty: string, t: string, env: Env, k: nat, i: Interp,
                                      gamma: Types, known: Types)
    requires e.Binop? && Typed(e, ty, gamma, known) && Told(e) && Models(g, env, i, gamma, known)
    requires Typed(e.right, t, gamma, known) && Run(e.left, env, known).Val?
    requires var h := g.(hyps := g.hyps + Guard(g, e.op, e.left));
             && AllHold(h.hyps, i) && |h.obs| <= k < |Generate(h, e.right).obs|
             && Fails(Generate(h, e.right).obs[k], i)
    ensures Faulty(Run(e, env, known))
    decreases e, 0, 0
  {
    hide Models, Generate, Compute, KnownTy, Typed, Facts, Scope, AllHold, EnvOk, Honest, Fails, Phrased, Guard;
    var more := Guard(g, e.op, e.left);
    ModelsScope(g, env, i, gamma, known);
    SuffixHolds(g.hyps, more, i);
    RightRuns(g, e, ty, env, i, gamma, known);
    GuardFacts(g, e, ty, env, i, gamma, known);
    ModelsMore(g, more, env, i, gamma, known);
    Shows(g.(hyps := g.hyps + more), e.right, t, env, k, i, gamma, known);
  }

  lemma SuffixHolds(a: seq<Smt>, b: seq<Smt>, i: Interp)
    requires AllHold(a + b, i)
    ensures AllHold(b, i)
  {
    hide Holds;
    forall k | 0 <= k < |b| ensures Holds(b[k], i) { assert b[k] == (a + b)[|a| + k]; }
  }

  lemma RightRuns(g: Gen, e: Expr, ty: string, env: Env, i: Interp, gamma: Types, known: Types)
    requires e.Binop? && Typed(e, ty, gamma, known) && Told(e) && Scope(g, env, i, gamma, known)
    requires Run(e.left, env, known).Val? && AllHold(Guard(g, e.op, e.left), i)
    ensures var l := Run(e.left, env, known).v;
            !(e.op == And && !AsBool(l)) && !(e.op == Or && AsBool(l))
  {
    hide Run, Scope, AllHold, Guard, Phrased;
    if ShortCircuit(e.op) {
      PhrasedTerm(g, e.left);
      GuardExact(g, e, env, i, gamma, known);
    }
  }

  lemma ShowsOperation(g: Gen, e: Expr, ty: string, env: Env, k: nat, i: Interp, gamma: Types, known: Types)
    requires e.Binop? && Arithmetic(e.op) && Typed(e, ty, gamma, known) && Told(e) && Models(g, env, i, gamma, known)
    requires Run(e.left, env, known).Val? && Run(e.right, env, known).Val?
    requires |g.obs| <= k < |Arith(g, e.op, e.left, e.right).obs|
    requires Fails(Arith(g, e.op, e.left, e.right).obs[k], i)
    ensures Faulty(Run(e, env, known))
  {
    hide Models, Typed, Scope, AllHold, Arith, Compute, KnownTy, Phrased, Holds;
    ModelsScope(g, env, i, gamma, known);
    ArithFails(g, e, ty, env, k, i, gamma, known);
  }

  lemma {:induction false} ShowsLet(g: Gen, e: Expr, ty: string, env: Env, k: nat, i: Interp, gamma: Types,
                                    known: Types)
    requires e.Let? && Typed(e, ty, gamma, known) && Told(e) && Models(g, env, i, gamma, known)
    requires |g.obs| <= k < |Generate(g, e).obs| && Fails(Generate(g, e).obs[k], i)
    ensures Faulty(Run(e, env, known))
    decreases e, 0
  {
    hide Models, Generate, KnownTy, Frame, Later, LetGen, Known, Fails, Extends, Phrased, AllHold;
    var g1 := Generate(g, e.value);
    var l := LetGen(g1, e.name, e.value);
    var g2 := Generate(l, e.body);
    LetSteps(g, e);
    FrameParts(g, g1);
    FrameParts(l, g2);
    var t :| IsTy(t) && Typed(e.value, t, gamma, known) && (t == "Bool" ==> Phrased(e.value))
      && Typed(e.body, ty, gamma[e.name := t], Known(known, e.name, KnownTy(e.value, known)));
    if k < |g1.obs| {
      assert Generate(g, e).obs[k] == g1.obs[k];
      Shows(g, e.value, t, env, k, i, gamma, known);
    } else if Run(e.value, env, known).Val? {
      ModelsFrame(g, g1, env, i, gamma, known);
      Extended(l, e.body);
      ExtendsAt(l, g2, l.hyps, k);
      FailsUnder(g2.obs[k], l.hyps, i);
      LetTold(g1, e.name, e.value, t, env, i, gamma, known);
      Shows(l, e.body, ty, env[e.name := Run(e.value, env, known).v], k, i, gamma[e.name := t],
            Known(known, e.name, KnownTy(e.value, known)));
    }
  }

  lemma {:induction false} ShowsMatch(g: Gen, e: Expr, ty: string, env: Env, k: nat, i: Interp, gamma: Types,
                                      known: Types)
    requires e.Match? && Typed(e, ty, gamma, known) && Told(e) && Models(g, env, i, gamma, known)
    requires |g.obs| <= k < |Generate(g, e).obs| && Fails(Generate(g, e).obs[k], i)
    ensures Faulty(Run(e, env, known))
    decreases e, 0
  {
    hide Models, Generate, Frame, Later, RunArms, Fails, Phrased, GenerateArms, Term, Facts, AllHold;
    var g1 := Generate(g, e.scrut);
    MatchSteps(g, e);
    FrameParts(g, g1);
    FrameParts(g1, Generate(g, e));
    var t :| IsTy(t) && Typed(e.scrut, t, gamma, known) && ArmsTy(e.arms, t, ty, gamma, known);
    if k < |g1.obs| {
      assert Generate(g, e).obs[k] == g1.obs[k];
      Shows(g, e.scrut, t, env, k, i, gamma, known);
    } else if Run(e.scrut, env, known).Val? {
      ModelsFrame(g, g1, env, i, gamma, known);
      NoFacts(g1, i);
      ShowsArms(g1, e, Term(g1, e.scrut), e.scrut, t, e.arms, [], ty, env, k, i, gamma, known);
    }
  }

  ghost predicate LastOnly(arms: seq<Arm>) {
    forall k :: 0 <= k < |arms| && Irrefutable(arms[k].pat) ==> k == |arms| - 1
  }

  lemma {:induction false} ShowsArms(g: Gen, parent: Expr, s: Option<(Smt, Sort)>, scrut: Expr, t: string,
                                     arms: seq<Arm>, past: seq<Smt>, ty: string, env: Env, k: nat, i: Interp,
                                     gamma: Types, known: Types)
    requires forall j :: 0 <= j < |arms| ==> arms[j] < parent && Told(arms[j].body)
    requires Typed(scrut, t, gamma, known) && IsTy(t) && ArmsTy(arms, t, ty, gamma, known) && LastOnly(arms)
    requires Models(g, env, i, gamma, known) && Facts(g, past, i) && Phrased(scrut)
    requires Run(scrut, env, known).Val? && s == Term(g, scrut)
    requires |g.obs| <= k < |GenerateArms(g, parent, s, scrut, arms, past).obs|
    requires Fails(GenerateArms(g, parent, s, scrut, arms, past).obs[k], i)
    ensures Faulty(RunArms(parent, arms, Run(scrut, env, known).v, env, known))
    decreases parent, 0, |arms|
  {
    hide Models, Generate, GenerateArms, Frame, Later, Facts, Run, Typed, Fits, ArmGuard, Refuted, Term, Hidden, Bound,
         Scope, AllHold, EnvOk, Honest, Fails, Extends, Told, Phrased;
    if arms == [] {
      LastArm(g, parent, s, scrut, arms, past);
    } else {
      var v, p, body := Run(scrut, env, known).v, arms[0].pat, arms[0].body;
      var more := past + ArmGuard(g, s, scrut, p);
      var h := g.(hyps := g.hyps + more);
      var g1 := Generate(h, body);
      var g2 := g1.(hyps := g.hyps, tys := g.tys);
      var g3 := GenerateArms(g, parent, s, scrut, arms, past);
      ArmsStep(g, parent, s, scrut, arms, past);
      FrameParts(h, g1);
      FrameParts(g, g2);
      FrameParts(g2, g3);
      ModelsScope(g, env, i, gamma, known);
      PhrasedTerm(g, scrut);
      ArmFacts(g, scrut, t, p, env, i, gamma, known);
      if k < |g2.obs| {
        assert g3.obs[k] == g1.obs[k];
        Extended(h, body);
        ExtendsAt(h, g1, h.hyps, k);
        FailsUnder(g1.obs[k], h.hyps, i);
        assert h.hyps == (g.hyps + past) + ArmGuard(g, s, scrut, p);
        SuffixHolds(g.hyps + past, ArmGuard(g, s, scrut, p), i);
        ArmTaken(g, scrut, t, p, env, i, gamma, known);
        MoreFacts(g, past, ArmGuard(g, s, scrut, p), i);
        ModelsMore(g, more, env, i, gamma, known);
        ModelsArm(h, p, v, env, i, gamma, known);
        assert Typed(body, ty, Hidden(p, gamma), Hidden(p, known));
        Shows(h, body, ty, Bound(p, v, env), k, i, Hidden(p, gamma), Hidden(p, known));
      } else {
        ExtendedArms(g2, parent, s, scrut, arms[1..], past + Refuted(s, p));
        ExtendsAt(g2, g3, g2.hyps + (past + Refuted(s, p)), k);
        FailsUnder(g3.obs[k], g2.hyps + (past + Refuted(s, p)), i);
        assert g2.hyps + (past + Refuted(s, p)) == (g2.hyps + past) + Refuted(s, p);
        SuffixHolds(g2.hyps + past, Refuted(s, p), i);
        LaterArms(g2, parent, s, scrut, arms, past, k, g3);
        ArmPassed(g, scrut, t, p, env, i, gamma, known);
        MoreFacts(g, past, Refuted(s, p), i);
        FactsLater(g, g2, past + Refuted(s, p), i);
        ModelsFrame(g, g2, env, i, gamma, known);
        TermKept(g, g2, scrut, t, env, i, gamma, known);
        ShowsArms(g2, parent, s, scrut, t, arms[1..], past + Refuted(s, p), ty, env, k, i, gamma, known);
      }
    }
  }

  /** Something asked below an arm: that arm does not always apply. */
  lemma LaterArms(g: Gen, parent: Expr, s: Option<(Smt, Sort)>, scrut: Expr, arms: seq<Arm>, past: seq<Smt>, k: nat,
                  g': Gen)
    requires arms != [] && (forall j :: 0 <= j < |arms| ==> arms[j] < parent) && LastOnly(arms)
    requires g' == GenerateArms(g, parent, s, scrut, arms[1..], past + Refuted(s, arms[0].pat))
    requires |g.obs| <= k < |g'.obs|
    ensures !Irrefutable(arms[0].pat) && LastOnly(arms[1..])
  {
    hide GenerateArms, Refuted, Irrefutable;
    if |arms| == 1 { LastArm(g, parent, s, scrut, arms[1..], past + Refuted(s, arms[0].pat)); }
    assert forall j :: 0 <= j < |arms| - 1 ==> arms[1..][j] == arms[j + 1];
  }

  lemma ArmTaken(g: Gen, scrut: Expr, t: string, p: Pat, env: Env, i: Interp, gamma: Types, known: Types)
    requires Typed(scrut, t, gamma, known) && IsTy(t) && Scope(g, env, i, gamma, known)
    requires Run(scrut, env, known).Val? && Term(g, scrut).Some? && PatFor(p, t)
    requires AllHold(ArmGuard(g, Term(g, scrut), scrut, p), i)
    ensures Fits(p, Run(scrut, env, known).v)
  {
    hide Typed, Scope, Run, Term, AllHold, ArmGuard;
    if !Irrefutable(p) { ArmExact(g, scrut, t, p, env, i, gamma, known); }
  }

  lemma ArmPassed(g: Gen, scrut: Expr, t: string, p: Pat, env: Env, i: Interp, gamma: Types, known: Types)
    requires Typed(scrut, t, gamma, known) && IsTy(t) && Scope(g, env, i, gamma, known)
    requires Run(scrut, env, known).Val? && Term(g, scrut).Some? && PatFor(p, t) && !Irrefutable(p)
    requires AllHold(Refuted(Term(g, scrut), p), i)
    ensures !Fits(p, Run(scrut, env, known).v)
  {
    hide Typed, Scope, Run, Term, AllHold, Refuted;
    ArmExact(g, scrut, t, p, env, i, gamma, known);
  }

  // --------------------------------------------------------- every match ends

  lemma SomeArm(arms: seq<Arm>, t: string, v: Value) returns (k: nat)
    requires Complete(arms) && (forall j :: 0 <= j < |arms| ==> PatFor(arms[j].pat, t)) && ValueOk(v, t)
    ensures k < |arms| && Fits(arms[k].pat, v)
  {
    if arms != [] && Irrefutable(arms[|arms| - 1].pat) {
      k := |arms| - 1;
    } else {
      var yes :| 0 <= yes < |arms| && arms[yes].pat == PBool(true);
      var no :| 0 <= no < |arms| && arms[no].pat == PBool(false);
      assert PatFor(arms[yes].pat, t);
      k := if v == BoolV(true) then yes else no;
    }
  }

  lemma ArmsPatFor(arms: seq<Arm>, t: string, ty: string, gamma: Types, known: Types)
    requires ArmsTy(arms, t, ty, gamma, known)
    ensures forall j :: 0 <= j < |arms| ==> PatFor(arms[j].pat, t)
  {}

  lemma {:induction false} Ends(e: Expr, ty: string, env: Env, gamma: Types, known: Types)
    requires Typed(e, ty, gamma, known) && Told(e) && EnvOk(env, gamma) && Honest(known, gamma)
    ensures Run(e, env, known) != NoArm
    decreases e, 1
  {
    hide ValueOk, EnvOk, Honest, Compute, Complete, Phrased, KnownTy, Known, Hidden;
    match e
    case Borrow(x) => Ends(x, ty, env, gamma, known);
    case Not(x) => Ends(x, "Bool", env, gamma, known);
    case Binop(_, _, _) => EndsBinop(e, ty, env, gamma, known);
    case Let(_, _, _) => EndsLet(e, ty, env, gamma, known);
    case Match(scrut, arms) =>
      var t :| IsTy(t) && Typed(scrut, t, gamma, known) && ArmsTy(arms, t, ty, gamma, known);
      Ends(scrut, t, env, gamma, known);
      RunTyped(scrut, t, env, gamma, known);
      var o := Run(scrut, env, known);
      if o.Val? {
        ArmsPatFor(arms, t, ty, gamma, known);
        var k := SomeArm(arms, t, o.v);
        ArmsEnd(e, arms, k, o.v, ty, env, gamma, known);
      }
    case _ =>
  }

  lemma {:induction false} EndsBinop(e: Expr, ty: string, env: Env, gamma: Types, known: Types)
    requires e.Binop? && Typed(e, ty, gamma, known) && Told(e) && EnvOk(env, gamma) && Honest(known, gamma)
    ensures Run(e, env, known) != NoArm
    decreases e, 0
  {
    hide EnvOk, Honest, Compute, Phrased, KnownTy, Typed;
    var t := OperandTy(e, ty, gamma, known);
    Ends(e.left, t, env, gamma, known);
    Ends(e.right, t, env, gamma, known);
    var l, r := Run(e.left, env, known), Run(e.right, env, known);
    if l.Val? && r.Val? { ComputeStuck(e.op, l.v, r.v, KnownTy(e, known)); }
  }

  lemma {:induction false} EndsLet(e: Expr, ty: string, env: Env, gamma: Types, known: Types)
    requires e.Let? && Typed(e, ty, gamma, known) && Told(e) && EnvOk(env, gamma) && Honest(known, gamma)
    ensures Run(e, env, known) != NoArm
    decreases e, 0
  {
    hide ValueOk, EnvOk, Honest, Phrased, KnownTy, Known;
    var n, v, rest := e.name, e.value, e.body;
    var t :| IsTy(t) && Typed(v, t, gamma, known) && (t == "Bool" ==> Phrased(v))
      && Typed(rest, ty, gamma[n := t], Known(known, n, KnownTy(v, known)));
    Ends(v, t, env, gamma, known);
    RunTyped(v, t, env, gamma, known);
    var o := Run(v, env, known);
    if o.Val? {
      EnvMore(env, gamma, n, o.v, t);
      KnownIs(v, t, gamma, known);
      KnownHonest(known, gamma, n, t, KnownTy(v, known));
      Ends(rest, ty, env[n := o.v], gamma[n := t], Known(known, n, KnownTy(v, known)));
    }
  }

  lemma {:induction false} ArmsEnd(parent: Expr, arms: seq<Arm>, k: nat, v: Value, ty: string, env: Env,
                                   gamma: Types, known: Types)
    requires forall j :: 0 <= j < |arms| ==> arms[j] < parent && Told(arms[j].body)
    requires forall j :: 0 <= j < |arms| ==> Typed(arms[j].body, ty, Hidden(arms[j].pat, gamma),
                                                   Hidden(arms[j].pat, known))
    requires k < |arms| && Fits(arms[k].pat, v) && EnvOk(env, gamma) && Honest(known, gamma)
    ensures RunArms(parent, arms, v, env, known) != NoArm
    decreases parent, 0, |arms|
  {
    hide EnvOk, Honest, Typed, Told, Run, Hidden, Bound, Fits;
    if Fits(arms[0].pat, v) {
      EnvArm(env, gamma, arms[0].pat, v);
      HiddenHonest(known, gamma, arms[0].pat);
      Ends(arms[0].body, ty, Bound(arms[0].pat, v, env), Hidden(arms[0].pat, gamma), Hidden(arms[0].pat, known));
    } else {
      assert arms[1..][k - 1] == arms[k];
      ArmsEnd(parent, arms[1..], k - 1, v, ty, env, gamma, known);
    }
  }

  // ---------------------------------------------------------- whole functions

  /** A refinement that compares and combines, and computes nothing. */
  predicate Bare(e: Expr) {
    match e
    case Int(_) => true
    case Bool(_) => true
    case Var(_) => true
    case Borrow(x) => Bare(x)
    case Not(x) => Bare(x)
    case Binop(op, a, b) => op != Concat && !Arithmetic(op) && Bare(a) && Bare(b)
    case _ => false
  }

  lemma {:induction false} BareRuns(g: Gen, e: Expr, ty: string, env: Env, gamma: Types, known: Types)
    requires Bare(e) && Typed(e, ty, gamma, known) && EnvOk(env, gamma) && Honest(known, gamma)
    ensures Run(e, env, known).Val? && Term(g, e).Some?
    decreases e
  {
    hide EnvOk, Honest, Compute, KnownTy;
    match e
    case Var(n) => EnvAt(env, gamma, n);
    case Borrow(x) => BareRuns(g, x, ty, env, gamma, known);
    case Not(x) => BareRuns(g, x, "Bool", env, gamma, known);
    case Binop(op, a, b) =>
      var t := OperandTy(e, ty, gamma, known);
      BareRuns(g, a, t, env, gamma, known);
      BareRuns(g, b, t, env, gamma, known);
      ComputeStuck(op, Run(a, env, known).v, Run(b, env, known).v, KnownTy(e, known));
    case _ =>
  }

  /** The arguments a reading gives the parameters. */
  function Given(params: seq<Param>, i: Interp): Env {
    map n | n in TypesOf(params) :: Read(i, Sym(n, 0), SortOf(TypesOf(params)[n]))
  }

  lemma BoundGives(op: BinOp, s: Sym, n: int, i: Interp)
    requires (op == Ge || op == Le) && Holds(Apply(op, Name(s, IntS), Num(n)), i)
    ensures if op == Ge then i.ints(s) >= n else i.ints(s) <= n
  {
    assert Means(Name(s, IntS), i) == IntV(i.ints(s)) && Means(Num(n), i) == IntV(n);
  }

  lemma RangeGives(s: Sym, ty: string, i: Interp)
    requires AllHold(RangeHyps(s, ty), i)
    ensures InRange(i.ints(s), ty)
  {
    if Range(ty).Some? {
      var r, hyps := Range(ty).value, RangeHyps(s, ty);
      assert Holds(hyps[0], i) && hyps[0] == Apply(Ge, Name(s, IntS), Num(r.0));
      BoundGives(Ge, s, r.0, i);
      if r.1.Some? {
        assert Holds(hyps[1], i) && hyps[1] == Apply(Le, Name(s, IntS), Num(r.1.value));
        BoundGives(Le, s, r.1.value, i);
      }
    }
  }

  lemma {:induction false} RangesGive(params: seq<Param>, k: nat, i: Interp)
    requires AllHold(ParamRanges(params), i) && k < |params|
    ensures InRange(i.ints(Sym(params[k].name, 0)), params[k].ty)
    decreases |params|
  {
    hide RangeHyps, InRange;
    var here, rest := RangeHyps(Sym(params[0].name, 0), params[0].ty), ParamRanges(params[1..]);
    assert ParamRanges(params) == here + rest;
    if k == 0 {
      PrefixHolds(here, here + rest, i);
      RangeGives(Sym(params[0].name, 0), params[0].ty, i);
    } else {
      SuffixHolds(here, rest, i);
      RangesGive(params[1..], k - 1, i);
    }
  }

  lemma {:induction false} ParamNamed(params: seq<Param>, n: string) returns (k: nat)
    requires n in TypesOf(params)
    ensures k < |params| && params[k] == Param(n, TypesOf(params)[n])
    decreases |params|
  {
    if params[0].name == n {
      k := 0;
    } else {
      var j := ParamNamed(params[1..], n);
      k := j + 1;
    }
  }

  lemma GivenOk(params: seq<Param>, pres: seq<Expr>, i: Interp)
    requires Signature(params, pres) && AllHold(ParamRanges(params), i)
    ensures EnvOk(Given(params, i), TypesOf(params))
  {
    hide TypesOf, ParamRanges, Typed, AllHold;
    var gamma := TypesOf(params);
    forall n | n in gamma ensures ValueOk(Given(params, i)[n], gamma[n]) {
      var k := ParamNamed(params, n);
      assert IsTy(params[k].ty);
      RangesGive(params, k, i);
      if gamma[n] != "Bool" { UnsignedNatural(i.ints(Sym(n, 0)), gamma[n]); }
    }
  }

  lemma UnsignedNatural(n: int, ty: string)
    requires IsUnsigned(ty) && InRange(n, ty)
    ensures n >= 0
  {}

  lemma GivenScope(params: seq<Param>, pres: seq<Expr>, i: Interp)
    requires Signature(params, pres) && EnvOk(Given(params, i), TypesOf(params))
    ensures Scope(Start(params), Given(params, i), i, TypesOf(params), TypesOf(params))
    ensures Honest(TypesOf(params), TypesOf(params))
  {
    hide Typed, IsTy, Read, ValueOk, TypesOf, SymTypes, VcSound.NamesOf;
    ParamTypes(params);
    var g, env, gamma := Start(params), Given(params, i), TypesOf(params);
    forall n | n in gamma ensures n in env && Stands(g, n, env[n], gamma[n], i, gamma) {
      EnvAt(env, gamma, n);
      assert SymOf(g, n) == Sym(n, 0);
    }
  }

  ghost predicate AllBare(pres: seq<Expr>) { forall k :: 0 <= k < |pres| ==> Bare(pres[k]) }

  /** The arguments read off satisfy the refinements that hold of the reading. */
  lemma GivenAdmitted(params: seq<Param>, pres: seq<Expr>, i: Interp)
    requires Signature(params, pres) && AllBare(pres) && AllHold(Enter(params, pres).hyps, i)
    ensures Admitted(params, pres, Given(params, i))
  {
    hide Typed, TypesOf, ParamRanges, Truths, AllHold, EnvOk, Scope, Honest, Run, Bare, Term, Given;
    var g, env, gamma := Start(params), Given(params, i), TypesOf(params);
    SuffixHolds(Truths(g, pres), ParamRanges(params), i);
    PrefixHolds(Truths(g, pres), Truths(g, pres) + ParamRanges(params), i);
    GivenOk(params, pres, i);
    GivenScope(params, pres, i);
    forall k | 0 <= k < |pres| ensures Run(pres[k], env, gamma) == Val(BoolV(true)) {
      BareRuns(g, pres[k], "Bool", env, gamma, gamma);
      RunTyped(pres[k], "Bool", env, gamma, gamma);
      if Run(pres[k], env, gamma) == Val(BoolV(false)) { TruthsFail(g, pres, k, env, i, gamma, gamma); }
    }
  }

  lemma GivenModels(params: seq<Param>, pres: seq<Expr>, i: Interp)
    requires Signature(params, pres) && AllBare(pres) && AllHold(Enter(params, pres).hyps, i)
    ensures Models(Enter(params, pres), Given(params, i), i, TypesOf(params), TypesOf(params))
  {
    hide Typed, TypesOf, ParamRanges, Truths, AllHold, EnvOk, Scope, Honest, Run, Tidy, Given, Bare, DistinctParams;
    var g, env, gamma := Start(params), Given(params, i), TypesOf(params);
    GivenAdmitted(params, pres, i);
    GivenScope(params, pres, i);
    EnterModels(params, pres, env);
    ModelsTidy(Enter(params, pres), env, Reading(env), gamma, gamma);
    ScopeHyps(g, Enter(params, pres).hyps, env, i, gamma, gamma);
    ModelsAre(Enter(params, pres), env, i, gamma, gamma);
  }

  lemma ScopeHyps(g: Gen, hyps: seq<Smt>, env: Env, i: Interp, gamma: Types, known: Types)
    requires Scope(g, env, i, gamma, known)
    ensures Scope(g.(hyps := hyps), env, i, gamma, known)
  {
    hide Read, ValueOk, IsTy;
    var h := g.(hyps := hyps);
    forall n | n in gamma ensures n in env && Stands(h, n, env[n], gamma[n], i, known) {
      assert Stands(g, n, env[n], gamma[n], i, known);
      assert SymOf(h, n) == SymOf(g, n);
    }
  }

  /** What is asked of a function and fails in some reading fails for arguments its signature
      admits: on them the function does not yield a value. */
  lemma FailureShows(params: seq<Param>, pres: seq<Expr>, body: Expr, ty: string, k: nat, i: Interp)
    requires Signature(params, pres) && AllBare(pres) && Typed(body, ty, TypesOf(params), TypesOf(params)) && Told(body)
    requires var obs := Generate(Enter(params, pres), body).obs; k < |obs| && Fails(obs[k], i)
    ensures Admitted(params, pres, Given(params, i))
    ensures Faulty(Run(body, Given(params, i), TypesOf(params)))
  {
    hide Signature, Admitted, Typed, Told, Enter, Generate, Models, TypesOf, Fails, Extends, Given, Run, AllBare;
    var g := Enter(params, pres);
    EnterEmpty(params, pres);
    Extended(g, body);
    ExtendsAt(g, Generate(g, body), g.hyps, k);
    FailsUnder(Generate(g, body).obs[k], g.hyps, i);
    GivenAdmitted(params, pres, i);
    GivenModels(params, pres, i);
    Shows(g, body, ty, Given(params, i), k, i, TypesOf(params), TypesOf(params));
  }

  lemma RunsToValue(params: seq<Param>, pres: seq<Expr>, body: Expr, ty: string, env: Env)
    requires Signature(params, pres) && Typed(body, ty, TypesOf(params), TypesOf(params)) && Told(body)
    requires Proved(Generate(Enter(params, pres), body)) && Admitted(params, pres, env)
    ensures Run(body, env, TypesOf(params)).Val?
  {
    hide Signature, Typed, Told, Enter, Generate, TypesOf, Proved, Run, EnvOk;
    FunctionSafe(params, pres, body, ty, env);
    SelfHonest(TypesOf(params));
    Ends(body, ty, env, TypesOf(params), TypesOf(params));
  }

  /** The obligations of a function are all valid if and only if it yields a value on all
      arguments its signature admits. */
  lemma ProvedIff(params: seq<Param>, pres: seq<Expr>, body: Expr, ty: string)
    requires Signature(params, pres) && AllBare(pres) && Typed(body, ty, TypesOf(params), TypesOf(params)) && Told(body)
    ensures Proved(Generate(Enter(params, pres), body))
       <==> forall env :: Admitted(params, pres, env) ==> Run(body, env, TypesOf(params)).Val?
  {
    hide Signature, Admitted, Typed, Told, Enter, Generate, TypesOf, Given, Run, AllBare, AllHold, Holds;
    var g := Enter(params, pres);
    EnterEmpty(params, pres);
    NoneSkipped(g, body);
    if Proved(Generate(g, body)) {
      forall env | Admitted(params, pres, env) ensures Run(body, env, TypesOf(params)).Val? {
        RunsToValue(params, pres, body, ty, env);
      }
    } else {
      var k :| 0 <= k < |Generate(g, body).obs| && !Valid(Generate(g, body).obs[k]);
      var o := Generate(g, body).obs[k];
      var i :| AllHold(o.hyps, i) && !Holds(o.goal, i);
      FailureShows(params, pres, body, ty, k, i);
      assert Admitted(params, pres, Given(params, i));
    }
  }
}
