/** Valid obligations keep a run free of arithmetic faults, and its machine
    arithmetic exact (src/refine.rs, runtime/vibert.c). */
module VcSound {
  import opened Wrappers
  import opened Ast
  import opened VcGen

  /** Everything asked between the two states was answered, and nothing went
      unasked. */
  ghost predicate Clean(g: Gen, g': Gen) {
    g'.skipped == g.skipped && forall k :: |g.obs| <= k < |g'.obs| ==> Valid(g'.obs[k])
  }

  lemma CleanParts(g: Gen, g1: Gen, g2: Gen)
    requires Clean(g, g2) && g.obs <= g1.obs <= g2.obs && g.skipped <= g1.skipped <= g2.skipped
    ensures Clean(g, g1) && Clean(g1, g2)
  {
    hide Valid;
    forall k | |g.obs| <= k < |g1.obs| ensures Valid(g1.obs[k]) { assert g1.obs[k] == g2.obs[k]; }
  }

  lemma FrameParts(g: Gen, g': Gen)
    requires Frame(g, g')
    ensures g'.hyps == g.hyps && g'.renames == g.renames && g.obs <= g'.obs && g.skipped <= g'.skipped && Later(g, g')
  {}

  /** A state generation leaves behind still describes the moment. */
  lemma ModelsFrame(g: Gen, g': Gen, env: Env, i: Interp, gamma: Types, known: Types)
    requires Models(g, env, i, gamma, known) && Frame(g, g')
    ensures Models(g', env, i, gamma, known)
  {
    hide Read, ValueOk, Holds, OldTerm;
    forall n | n in gamma ensures n in env && Stands(g', n, env[n], gamma[n], i, known) {
      assert Stands(g, n, env[n], gamma[n], i, known);
      assert SymOf(g', n) == SymOf(g, n);
      OldLater(g, g', SymOf(g, n));
    }
    forall s | Old(g, s) ensures Old(g', s) { OldLater(g, g', s); }
    forall k | 0 <= k < |g.hyps| ensures OldTerm(g', g.hyps[k]) { OldTermLater(g, g', g.hyps[k]); }
  }

  lemma ModelsScope(g: Gen, env: Env, i: Interp, gamma: Types, known: Types)
    requires Models(g, env, i, gamma, known)
    ensures Scope(g, env, i, gamma, known) && AllHold(g.hyps, i) && EnvOk(env, gamma) && Honest(known, gamma)
  {
    hide Scope, Tidy, AllHold, EnvOk, Honest;
    ScopeHonest(g, env, i, gamma, known);
  }

  lemma ModelsMore(g: Gen, more: seq<Smt>, env: Env, i: Interp, gamma: Types, known: Types)
    requires Models(g, env, i, gamma, known) && Facts(g, more, i)
    ensures Models(g.(hyps := g.hyps + more), env, i, gamma, known)
  {
    hide Holds, Read, ValueOk;
    var h := g.(hyps := g.hyps + more);
    forall n | n in gamma ensures n in env && Stands(h, n, env[n], gamma[n], i, known) {
      assert Stands(g, n, env[n], gamma[n], i, known);
      assert SymOf(h, n) == SymOf(g, n);
    }
    forall k | 0 <= k < |h.hyps| ensures Holds(h.hyps[k], i) && OldTerm(h, h.hyps[k]) {
      var t := h.hyps[k];
      if k < |g.hyps| { assert t == g.hyps[k]; } else { assert t == more[k - |g.hyps|]; }
      OldTermLater(g, h, t);
    }
  }

  /** Back to the hypotheses of before. */
  lemma FrameBack(g: Gen, more: seq<Smt>, g': Gen)
    requires Frame(g.(hyps := g.hyps + more), g')
    ensures Frame(g, g'.(hyps := g.hyps)) && Frame(g, g'.(hyps := g.hyps, tys := g.tys))
  {
    hide Later;
    LaterHyps(g.(hyps := g.hyps + more), g', g.hyps, g.hyps);
    assert g.(hyps := g.hyps + more).(hyps := g.hyps) == g;
    LaterRestore(g, g.(hyps := g.hyps + more), g');
  }

  // ------------------------------------------------------------- one operation

  lemma Answered(g: Gen, kind: Kind, goal: Smt, i: Interp)
    requires Clean(g, Push(g, kind, goal)) && AllHold(g.hyps, i)
    ensures Holds(goal, i)
  {
    hide AllHold, Holds;
    var o := Push(g, kind, goal).obs[|g.obs|];
    assert Valid(o);
  }

  lemma DivSafe(g: Gen, tb: Smt, r: Value, i: Interp)
    requires Clean(g, Push(g, DivZero, Nope(Apply(Eq, tb, Num(0))))) && AllHold(g.hyps, i) && Means(tb, i) == r
    requires r.IntV?
    ensures AsInt(r) != 0
  {
    hide Clean, AllHold;
    Answered(g, DivZero, Nope(Apply(Eq, tb, Num(0))), i);
    assert Means(Apply(Eq, tb, Num(0)), i) == BoolV(r == IntV(0));
  }

  lemma SubSafe(g: Gen, ta: Smt, tb: Smt, l: Value, r: Value, i: Interp)
    requires Clean(g, Push(g, Underflow, Apply(Ge, ta, tb))) && AllHold(g.hyps, i) && Means(ta, i) == l
    requires Means(tb, i) == r
    ensures AsInt(l) >= AsInt(r)
  {
    hide Clean, AllHold;
    Answered(g, Underflow, Apply(Ge, ta, tb), i);
  }

  lemma SumSafe(g: Gen, op: BinOp, ta: Smt, tb: Smt, l: Value, r: Value, lo: int, hi: int, i: Interp)
    requires op == Add || op == Mul
    requires var t := Apply(op, ta, tb);
             Clean(g, Push(g, Overflow, Apply(And, Apply(Le, t, Num(hi)), Apply(Ge, t, Num(lo)))))
    requires AllHold(g.hyps, i) && Means(ta, i) == l && Means(tb, i) == r
    ensures lo <= (if op == Add then AsInt(l) + AsInt(r) else AsInt(l) * AsInt(r)) <= hi
  {
    hide Clean, AllHold, Means, Holds;
    var t := Apply(op, ta, tb);
    Answered(g, Overflow, Apply(And, Apply(Le, t, Num(hi)), Apply(Ge, t, Num(lo))), i);
    Between(t, lo, hi, i);
    MeansApply(op, ta, tb, i);
  }

  lemma MeansApply(op: BinOp, ta: Smt, tb: Smt, i: Interp)
    ensures Means(Apply(op, ta, tb), i) == Operate(op, Means(ta, i), Means(tb, i), i)
  {}

  lemma Between(t: Smt, lo: int, hi: int, i: Interp)
    requires Holds(Apply(And, Apply(Le, t, Num(hi)), Apply(Ge, t, Num(lo))), i)
    ensures lo <= AsInt(Means(t, i)) <= hi
  {
    hide Means;
    MeansApply(And, Apply(Le, t, Num(hi)), Apply(Ge, t, Num(lo)), i);
    MeansApply(Le, t, Num(hi), i);
    MeansApply(Ge, t, Num(lo), i);
    NumMeans(lo, i);
    NumMeans(hi, i);
  }

  lemma NumMeans(n: int, i: Interp)
    ensures Means(Num(n), i) == IntV(n)
  {}

  /** What is known of an operand when an obligation about it is generated. */
  ghost predicate Operand(g: Gen, e: Expr, v: Value, ty: string, i: Interp) {
    ValueOk(v, ty) && IsUnsigned(ty) && (Term(g, e).Some? ==> Means(Term(g, e).value.0, i) == v)
  }

  lemma ArithSafe(g: Gen, e: Expr, ty: string, env: Env, i: Interp, gamma: Types, known: Types)
    requires e.Binop? && Arithmetic(e.op) && Typed(e, ty, gamma, known) && Models(g, env, i, gamma, known)
    requires Clean(g, Arith(g, e.op, e.left, e.right))
    requires Run(e.left, env, known).Val? && Run(e.right, env, known).Val?
    ensures Compute(e.op, Run(e.left, env, known).v, Run(e.right, env, known).v, KnownTy(e, known)).Val?
  {
    hide Models, Run, Typed, Term, Means, Clean, AllHold, Scope, EnvOk, Honest, TyOf, KnownTy, Arith, ValueOk, Compute;
    var a, b := e.left, e.right;
    ArithTyped(e, ty, gamma, known);
    ModelsScope(g, env, i, gamma, known);
    KnownIs(e, ty, gamma, known);
    TyOfKnown(g, e, ty, env, i, gamma, known);
    RunTyped(a, ty, env, gamma, known);
    RunTyped(b, ty, env, gamma, known);
    if Term(g, a).Some? { TermMeans(g, a, ty, env, i, gamma, known); }
    if Term(g, b).Some? { TermMeans(g, b, ty, env, i, gamma, known); }
    OperationSafe(g, e, ty, Run(a, env, known).v, Run(b, env, known).v, i);
  }

  lemma OperationSafe(g: Gen, e: Expr, ty: string, l: Value, r: Value, i: Interp)
    requires e.Binop? && Arithmetic(e.op) && TyOf(g, e) == Some(ty)
    requires Operand(g, e.left, l, ty, i) && Operand(g, e.right, r, ty, i) && AllHold(g.hyps, i)
    requires Clean(g, Arith(g, e.op, e.left, e.right))
    ensures Compute(e.op, l, r, Some(ty)).Val?
  {
    hide Term, Means, Clean, AllHold, TyOf, Push, Skip, Bounded, Range;
    TyOfParts(g, e);
    SkipUnclean(g);
    var ta, tb := Term(g, e.left), Term(g, e.right);
    if e.op == Div {
      if tb.Some? { DivSafe(g, tb.value.0, r, i); }
    } else if e.op == Sub {
      if ta.Some? && tb.Some? { SubSafe(g, ta.value.0, tb.value.0, l, r, i); }
    } else if ty == "Nat" {
      NatSafe(e.op, l, r);
    } else {
      BoundedSafe(g, e.op, ta, tb, ty, l, r, i);
    }
  }

  /** Nothing is asked of a sum or product of type `Nat`, and no value of that type
      can be left: there is no ceiling. */
  lemma NatSafe(op: BinOp, l: Value, r: Value)
    requires (op == Add || op == Mul) && ValueOk(l, "Nat") && ValueOk(r, "Nat")
    ensures Compute(op, l, r, Some("Nat")).Val?
  {
    if op == Mul { ProductNatural(l.n, r.n); }
  }

  lemma ProductNatural(x: nat, y: nat)
    ensures x * y >= 0
  {}

  lemma BoundedSafe(g: Gen, op: BinOp, ta: Option<(Smt, Sort)>, tb: Option<(Smt, Sort)>, ty: string, l: Value, r: Value,
                    i: Interp)
    requires (op == Add || op == Mul) && IsUnsigned(ty) && ty != "Nat" && AllHold(g.hyps, i)
    requires (ta.Some? ==> Means(ta.value.0, i) == l) && (tb.Some? ==> Means(tb.value.0, i) == r)
    requires Clean(g, Bounded(g, op, ta, tb, Some(ty)))
    ensures InRange(if op == Add then AsInt(l) + AsInt(r) else AsInt(l) * AsInt(r), ty)
  {
    hide Means, Clean, AllHold, Push, Skip;
    SkipUnclean(g);
    if ta.Some? && tb.Some? {
      var range := Range(ty).value;
      SumSafe(g, op, ta.value.0, tb.value.0, l, r, range.0, range.1.value, i);
    }
  }

  lemma SkipUnclean(g: Gen)
    ensures !Clean(g, Skip(g))
  {}

  lemma ArithTyped(e: Expr, ty: string, gamma: Types, known: Types)
    requires e.Binop? && Arithmetic(e.op) && Typed(e, ty, gamma, known)
    ensures Typed(e.left, ty, gamma, known) && Typed(e.right, ty, gamma, known) && KnownTy(e, known).Some?
    ensures IsUnsigned(ty)
  {}

  lemma TyOfParts(g: Gen, e: Expr)
    requires e.Binop? && Arithmetic(e.op)
    ensures TyOf(g, e) == if TyOf(g, e.left).Some? then TyOf(g, e.left) else TyOf(g, e.right)
  {}

  // ------------------------------------------------------------------- binders

  /** The state a `let` leaves for its body describes the body's start, once its
      symbol reads as the value. */
  lemma LetModels(g: Gen, n: string, v: Expr, t: string, env: Env, i: Interp, gamma: Types, known: Types)
    requires Typed(v, t, gamma, known) && IsTy(t) && (t == "Bool" ==> Phrased(v)) && Models(g, env, i, gamma, known)
    requires Run(v, env, known).Val?
    ensures var x := Run(v, env, known).v;
            Models(LetGen(g, n, v), env[n := x], With(i, Fresh(g, n).0, x), gamma[n := t],
                   Known(known, n, KnownTy(v, known)))
  {
    hide Typed, Run, Models, Scope, Tidy, AllHold, EnvOk, Honest, LetGen;
    var x, s, i' := Run(v, env, known).v, Fresh(g, n).0, With(i, Fresh(g, n).0, Run(v, env, known).v);
    var g', gamma', known' := LetGen(g, n, v), gamma[n := t], Known(known, n, KnownTy(v, known));
    ModelsScope(g, env, i, gamma, known);
    RunTyped(v, t, env, gamma, known);
    KnownIs(v, t, gamma, known);
    TyOfKnown(g, v, t, env, i, gamma, known);
    if Term(g, v).Some? { TermMeans(g, v, t, env, i, gamma, known); } else if t == "Bool" { PhrasedTerm(g, v); }
    ModelsTidy(g, env, i, gamma, known);
    LetScope(g, n, v, x, t, env, i, gamma, known);
    LetHyps(g, n, v, x, t, i);
    ModelsAre(g', env[n := x], i', gamma', known');
  }

  lemma ModelsTidy(g: Gen, env: Env, i: Interp, gamma: Types, known: Types)
    requires Models(g, env, i, gamma, known)
    ensures Tidy(g)
  {}

  lemma ModelsAre(g: Gen, env: Env, i: Interp, gamma: Types, known: Types)
    requires Scope(g, env, i, gamma, known) && Tidy(g) && AllHold(g.hyps, i)
    ensures Models(g, env, i, gamma, known)
  {}

  lemma LetScope(g: Gen, n: string, v: Expr, x: Value, t: string, env: Env, i: Interp, gamma: Types, known: Types)
    requires Scope(g, env, i, gamma, known) && Tidy(g) && IsTy(t) && ValueOk(x, t)
    requires TyOf(g, v) == KnownTy(v, known) && (TyOf(g, v).Some? ==> TyOf(g, v).value == t)
    requires if Term(g, v).Some? then Term(g, v).value.1 == SortOf(t) else t != "Bool"
    ensures Scope(LetGen(g, n, v), env[n := x], With(i, Fresh(g, n).0, x), gamma[n := t],
                  Known(known, n, KnownTy(v, known)))
  {
    hide Term, TyOf, KnownTy, ValueOk, RangeHyps, Read, With, Old, Fresh, SymOf, OldTerms;
    FreshIsNew(g, n);
    var s, g', i', known' := Fresh(g, n).0, LetGen(g, n, v), With(i, Fresh(g, n).0, x),
        Known(known, n, KnownTy(v, known));
    LetSym(g, n, v);
    var gamma' := gamma[n := t];
    forall m | m in gamma'
      ensures m in env[n := x] && Stands(g', m, env[n := x][m], gamma'[m], i', known')
    {
      if m == n {
        ReadWith(i, s, x, s, IntS);
        SortFits(x, t);
      } else {
        assert Stands(g, m, env[m], gamma[m], i, known);
        var sm := SymOf(g, m);
        ReadWith(i, s, x, sm, SortAt(g, sm));
      }
    }
  }

  lemma SortFits(x: Value, t: string)
    requires IsTy(t) && ValueOk(x, t)
    ensures (if x.IntV? then IntS else BoolS) == SortOf(t)
  {}

  lemma LetSym(g: Gen, n: string, v: Expr)
    ensures var g' := LetGen(g, n, v);
            && SymOf(g', n) == Fresh(g, n).0 && Old(g', Fresh(g, n).0)
            && (forall m :: m != n ==> SymOf(g', m) == SymOf(g, m))
            && (forall s :: Old(g, s) ==> Old(g', s))
  {
    hide Term, TyOf, RangeHyps;
    var g' := LetGen(g, n, v);
    forall s | Old(g, s) ensures Old(g', s) { OldLater(g, g', s); }
  }

  lemma LetHyps(g: Gen, n: string, v: Expr, x: Value, t: string, i: Interp)
    requires Tidy(g) && AllHold(g.hyps, i) && IsTy(t) && ValueOk(x, t) && (TyOf(g, v).Some? ==> TyOf(g, v).value == t)
    requires Term(g, v).Some? ==> OldTerm(g, Term(g, v).value.0) && Means(Term(g, v).value.0, i) == x
    requires Term(g, v).Some? ==> Term(g, v).value.1 == SortOf(t)
    ensures AllHold(LetGen(g, n, v).hyps, With(i, Fresh(g, n).0, x)) && Tidy(LetGen(g, n, v))
  {
    hide Term, TyOf, ValueOk, RangeHyps, With, Old, Fresh, SymOf, Facts, OldTerms, AllHold, Holds, OldTerm, Means;
    FreshIsNew(g, n);
    LetSym(g, n, v);
    var s, g', i' := Fresh(g, n).0, LetGen(g, n, v), With(i, Fresh(g, n).0, x);
    OldFacts(g, g', g.hyps, i, s, x);
    SortFits(x, t);
    var val, ty := Term(g, v), TyOf(g, v);
    var eqn := if val.Some? then [Apply(Eq, Name(s, val.value.1), val.value.0)] else [];
    var ranges := if ty.Some? then RangeHyps(s, ty.value) else [];
    NoFacts(g', i');
    if val.Some? { EquationHolds(g, g', s, val.value, x, i); }
    if ty.Some? { RangesHold(g', s, t, x, i); }
    MoreFacts(g', g.hyps, eqn, i');
    MoreFacts(g', g.hyps + eqn, ranges, i');
    assert g'.hyps == g.hyps + eqn + ranges;
    FactsAre(g', g'.hyps, i');
  }

  lemma FactsAre(g: Gen, ts: seq<Smt>, i: Interp)
    requires Facts(g, ts, i)
    ensures AllHold(ts, i) && OldTerms(g, ts)
  {}

  lemma OldFacts(g: Gen, g': Gen, ts: seq<Smt>, i: Interp, s: Sym, x: Value)
    requires OldTerms(g, ts) && AllHold(ts, i) && !Old(g, s) && g.seen <= g'.seen && g.shadows <= g'.shadows
    ensures Facts(g', ts, With(i, s, x))
  {
    hide With, Old, OldTerm, Means;
    forall k | 0 <= k < |ts| ensures Holds(ts[k], With(i, s, x)) && OldTerm(g', ts[k]) {
      OldMeans(g, ts[k], i, s, x);
      OldTermLater(g, g', ts[k]);
    }
  }

  lemma EquationHolds(g: Gen, g': Gen, s: Sym, val: (Smt, Sort), x: Value, i: Interp)
    requires OldTerm(g, val.0) && !Old(g, s) && Old(g', s) && g.seen <= g'.seen && g.shadows <= g'.shadows
    requires Means(val.0, i) == x && val.1 == if x.IntV? then IntS else BoolS
    ensures Facts(g', [Apply(Eq, Name(s, val.1), val.0)], With(i, s, x))
  {
    hide With, Old, Read, Facts;
    OldMeans(g, val.0, i, s, x);
    OldTermLater(g, g', val.0);
    ReadWith(i, s, x, s, val.1);
    OneFact(g', Apply(Eq, Name(s, val.1), val.0), With(i, s, x));
  }

  lemma RangesHold(g: Gen, s: Sym, t: string, x: Value, i: Interp)
    requires Old(g, s) && IsTy(t) && ValueOk(x, t)
    ensures Facts(g, RangeHyps(s, t), With(i, s, x))
  {
    hide With, Old, Read, Facts;
    var i' := With(i, s, x);
    ReadWith(i, s, x, s, IntS);
    NoFacts(g, i');
    if t != "Bool" {
      var r := Range(t).value;
      OneFact(g, Apply(Ge, Name(s, IntS), Num(r.0)), i');
      if r.1.Some? {
        OneFact(g, Apply(Le, Name(s, IntS), Num(r.1.value)), i');
        MoreFacts(g, [Apply(Ge, Name(s, IntS), Num(r.0))], [Apply(Le, Name(s, IntS), Num(r.1.value))], i');
      } else {
        assert RangeHyps(s, t) == [Apply(Ge, Name(s, IntS), Num(r.0))];
      }
    }
  }

  /** What a `let` tells the solver is so of the run if and only if the value lies
      in the range of the type the generator takes it to have. */
  lemma LetToldIffInRange(g: Gen, n: string, v: Expr, x: Value, i: Interp)
    requires Tidy(g) && AllHold(g.hyps, i)
    requires Term(g, v).Some? ==>
               OldTerm(g, Term(g, v).value.0) && Means(Term(g, v).value.0, i) == x
               && Term(g, v).value.1 == if x.IntV? then IntS else BoolS
    requires TyOf(g, v).Some? ==> SortOf(TyOf(g, v).value) == if x.IntV? then IntS else BoolS
    ensures AllHold(LetGen(g, n, v).hyps, With(i, Fresh(g, n).0, x))
       <==> (TyOf(g, v).Some? && x.IntV? ==> InRange(x.n, TyOf(g, v).value))
  {
    hide Term, TyOf, RangeHyps, With, Old, Fresh, SymOf, Facts, OldTerms, AllHold, Holds, OldTerm, Means, InRange;
    FreshIsNew(g, n);
    LetSym(g, n, v);
    var s, g', i' := Fresh(g, n).0, LetGen(g, n, v), With(i, Fresh(g, n).0, x);
    OldFacts(g, g', g.hyps, i, s, x);
    var val, ty := Term(g, v), TyOf(g, v);
    var eqn := if val.Some? then [Apply(Eq, Name(s, val.value.1), val.value.0)] else [];
    var ranges := if ty.Some? then RangeHyps(s, ty.value) else [];
    NoFacts(g', i');
    if val.Some? { EquationHolds(g, g', s, val.value, x, i); }
    MoreFacts(g', g.hyps, eqn, i');
    FactsAre(g', g.hyps + eqn, i');
    assert g'.hyps == g.hyps + eqn + ranges;
    AllHoldMore(g.hyps + eqn, ranges, i');
    FactsAre(g', [], i');
    if ty.Some? { RangeToldIff(s, ty.value, x, i); }
  }

  lemma AllHoldMore(a: seq<Smt>, b: seq<Smt>, i: Interp)
    requires AllHold(a, i)
    ensures AllHold(a + b, i) <==> AllHold(b, i)
  {
    hide Holds;
    if AllHold(a + b, i) {
      forall k | 0 <= k < |b| ensures Holds(b[k], i) { assert (a + b)[|a| + k] == b[k]; }
    }
  }

  lemma RangeToldIff(s: Sym, ty: string, x: Value, i: Interp)
    requires SortOf(ty) == if x.IntV? then IntS else BoolS
    ensures AllHold(RangeHyps(s, ty), With(i, s, x)) <==> (x.IntV? ==> InRange(x.n, ty))
  {
    hide Read, With, Holds;
    ReadWith(i, s, x, s, IntS);
    if Range(ty).Some? {
      var r := Range(ty).value;
      var low := Apply(Ge, Name(s, IntS), Num(r.0));
      BoundTold(Ge, s, r.0, x, i);
      if r.1.Some? {
        var high := Apply(Le, Name(s, IntS), Num(r.1.value));
        BoundTold(Le, s, r.1.value, x, i);
        assert RangeHyps(s, ty) == [low, high];
        if AllHold(RangeHyps(s, ty), With(i, s, x)) {
          assert Holds([low, high][0], With(i, s, x)) && Holds([low, high][1], With(i, s, x));
        }
      } else {
        assert RangeHyps(s, ty) == [low];
        if AllHold(RangeHyps(s, ty), With(i, s, x)) { assert Holds([low][0], With(i, s, x)); }
      }
    } else {
      assert RangeHyps(s, ty) == [];
    }
  }

  lemma BoundTold(op: BinOp, s: Sym, n: int, x: Value, i: Interp)
    requires (op == Ge || op == Le) && x.IntV?
    ensures Holds(Apply(op, Name(s, IntS), Num(n)), With(i, s, x)) <==> if op == Ge then x.n >= n else x.n <= n
  {
    ReadWith(i, s, x, s, IntS);
    assert Means(Name(s, IntS), With(i, s, x)) == x && Means(Num(n), With(i, s, x)) == IntV(n);
  }

  // ------------------------------------------------------------------ the runs

  predicate Fine(o: Outcome) { o.Val? || o.NoArm? }

  /** Valid obligations rule out every arithmetic fault. */
  lemma {:induction false} Sound(g: Gen, e: Expr, ty: string, env: Env, i: Interp, gamma: Types, known: Types)
    requires Typed(e, ty, gamma, known) && Models(g, env, i, gamma, known) && Clean(g, Generate(g, e))
    ensures Fine(Run(e, env, known))
    decreases e, 1
  {
    hide Models, Clean, Generate, Compute, KnownTy, Hidden, Known;
    match e
    case Int(_) =>
    case Bool(_) =>
    case Var(n) => ModelsScope(g, env, i, gamma, known); EnvAt(env, gamma, n);
    case Borrow(x) => SameGenerate(g, e); Sound(g, x, ty, env, i, gamma, known);
    case Not(x) => SameGenerate(g, e); Sound(g, x, "Bool", env, i, gamma, known);
    case Binop(_, _, _) => SoundBinop(g, e, ty, env, i, gamma, known);
    case Let(_, _, _) => SoundLet(g, e, ty, env, i, gamma, known);
    case Match(_, _) => SoundMatch(g, e, ty, env, i, gamma, known);
  }

  lemma SameGenerate(g: Gen, e: Expr)
    requires e.Borrow? || e.Not?
    ensures Generate(g, e) == Generate(g, e.operand)
  {}

  lemma BinopSteps(g: Gen, e: Expr)
    requires e.Binop?
    ensures var g1 := Generate(g, e.left);
            var more := Guard(g1, e.op, e.left);
            var g2 := Generate(g1.(hyps := g1.hyps + more), e.right);
            var g3 := g2.(hyps := g1.hyps);
            && Generate(g, e) == Arith(g3, e.op, e.left, e.right)
            && Frame(g, g1) && Frame(g1.(hyps := g1.hyps + more), g2) && Frame(g1, g3) && Frame(g3, Generate(g, e))
            && g2.obs == g3.obs && g2.skipped == g3.skipped
  {
    hide Guard, Arith, Frame;
    var g1 := Generate(g, e.left);
    var more := Guard(g1, e.op, e.left);
    var g2 := Generate(g1.(hyps := g1.hyps + more), e.right);
    Framed(g, e.left);
    Framed(g1.(hyps := g1.hyps + more), e.right);
    FrameBack(g1, more, g2);
    ArithFrame(g2.(hyps := g1.hyps), e.op, e.left, e.right);
  }

  lemma {:induction false} SoundBinop(g: Gen, e: Expr, ty: string, env: Env, i: Interp, gamma: Types, known: Types)
    requires e.Binop? && Typed(e, ty, gamma, known) && Models(g, env, i, gamma, known) && Clean(g, Generate(g, e))
    ensures Fine(Run(e, env, known))
    decreases e, 0
  {
    hide Models, Clean, Generate, Compute, KnownTy, Frame, Later, Guard, Arith, Typed, Facts, Scope, AllHold, EnvOk,
         Honest;
    var op, a, b := e.op, e.left, e.right;
    var g1 := Generate(g, a);
    var more := Guard(g1, op, a);
    var h := g1.(hyps := g1.hyps + more);
    var g2 := Generate(h, b);
    var g3 := g2.(hyps := g1.hyps);
    BinopSteps(g, e);
    FrameParts(g, g1);
    FrameParts(h, g2);
    FrameParts(g3, Generate(g, e));
    CleanParts(g, g1, Generate(g, e));
    CleanParts(g1, g3, Generate(g, e));
    var t := OperandTy(e, ty, gamma, known);
    Sound(g, a, t, env, i, gamma, known);
    ModelsFrame(g, g1, env, i, gamma, known);
    var l := Run(a, env, known);
    if l.Val? && !(op == And && !AsBool(l.v)) && !(op == Or && AsBool(l.v)) {
      ModelsScope(g1, env, i, gamma, known);
      GuardFacts(g1, e, ty, env, i, gamma, known);
      ModelsMore(g1, more, env, i, gamma, known);
      CleanSame(g1, h, g3, g2);
      Sound(h, b, t, env, i, gamma, known);
      ModelsFrame(g1, g3, env, i, gamma, known);
      var r := Run(b, env, known);
      if r.Val? {
        ComputeStuck(op, l.v, r.v, KnownTy(e, known));
        if Arithmetic(op) { ArithSafe(g3, e, ty, env, i, gamma, known); }
      }
    }
  }

  lemma CleanSame(g: Gen, h: Gen, g': Gen, h': Gen)
    requires Clean(g, g') && g.obs == h.obs && g.skipped == h.skipped && g'.obs == h'.obs && g'.skipped == h'.skipped
    ensures Clean(h, h')
  {}

  lemma GuardFacts(g: Gen, e: Expr, ty: string, env: Env, i: Interp, gamma: Types, known: Types)
    requires e.Binop? && Typed(e, ty, gamma, known) && Scope(g, env, i, gamma, known)
    requires var l := Run(e.left, env, known);
             l.Val? && !(e.op == And && !AsBool(l.v)) && !(e.op == Or && AsBool(l.v))
    ensures Facts(g, Guard(g, e.op, e.left), i)
  {
    hide Facts, Scope, Run;
    NoFacts(g, i);
    if e.op == And || e.op == Or { GuardHolds(g, e, env, i, gamma, known); }
  }

  lemma LetSteps(g: Gen, e: Expr)
    requires e.Let?
    ensures var g1 := Generate(g, e.value);
            var l := LetGen(g1, e.name, e.value);
            var g2 := Generate(l, e.body);
            && Generate(g, e) == g2.(hyps := g1.hyps, renames := g1.renames)
            && Frame(g, g1) && Frame(l, g2) && l.obs == g1.obs && l.skipped == g1.skipped
  {
    hide LetGen, Frame, Later;
    var g1 := Generate(g, e.value);
    Framed(g, e.value);
    LetLater(g1, e.name, e.value);
    Framed(LetGen(g1, e.name, e.value), e.body);
  }

  lemma {:induction false} SoundLet(g: Gen, e: Expr, ty: string, env: Env, i: Interp, gamma: Types, known: Types)
    requires e.Let? && Typed(e, ty, gamma, known) && Models(g, env, i, gamma, known) && Clean(g, Generate(g, e))
    ensures Fine(Run(e, env, known))
    decreases e, 0
  {
    hide Models, Clean, Generate, KnownTy, Frame, Later, LetGen, Known;
    var g1 := Generate(g, e.value);
    var l := LetGen(g1, e.name, e.value);
    var g2 := Generate(l, e.body);
    LetSteps(g, e);
    FrameParts(g, g1);
    FrameParts(l, g2);
    CleanParts(g, g1, Generate(g, e));
    CleanSame(g1, l, Generate(g, e), g2);
    var t :| IsTy(t) && Typed(e.value, t, gamma, known) && (t == "Bool" ==> Phrased(e.value))
      && Typed(e.body, ty, gamma[e.name := t], Known(known, e.name, KnownTy(e.value, known)));
    Sound(g, e.value, t, env, i, gamma, known);
    var o := Run(e.value, env, known);
    if o.Val? {
      ModelsFrame(g, g1, env, i, gamma, known);
      LetModels(g1, e.name, e.value, t, env, i, gamma, known);
      Sound(l, e.body, ty, env[e.name := o.v], With(i, Fresh(g1, e.name).0, o.v), gamma[e.name := t],
            Known(known, e.name, KnownTy(e.value, known)));
    }
  }

  lemma MatchSteps(g: Gen, e: Expr)
    requires e.Match?
    ensures var g1 := Generate(g, e.scrut);
            && Generate(g, e) == GenerateArms(g1, e, Term(g1, e.scrut), e.scrut, e.arms, [])
            && Frame(g, g1) && Frame(g1, Generate(g, e))
  {
    hide Frame, Later, Term;
    var g1 := Generate(g, e.scrut);
    Framed(g, e.scrut);
    FramedArms(g1, e, Term(g1, e.scrut), e.scrut, e.arms, []);
  }

  ghost predicate ArmsTy(arms: seq<Arm>, t: string, ty: string, gamma: Types, known: Types) {
    forall k :: 0 <= k < |arms| ==>
      PatFor(arms[k].pat, t) && Typed(arms[k].body, ty, Hidden(arms[k].pat, gamma), Hidden(arms[k].pat, known))
  }

  lemma {:induction false} SoundMatch(g: Gen, e: Expr, ty: string, env: Env, i: Interp, gamma: Types, known: Types)
    requires e.Match? && Typed(e, ty, gamma, known) && Models(g, env, i, gamma, known) && Clean(g, Generate(g, e))
    ensures Fine(Run(e, env, known))
    decreases e, 0
  {
    hide Models, Clean, Generate, Frame, Later, RunArms;
    var g1 := Generate(g, e.scrut);
    MatchSteps(g, e);
    FrameParts(g, g1);
    FrameParts(g1, Generate(g, e));
    CleanParts(g, g1, Generate(g, e));
    var t :| IsTy(t) && Typed(e.scrut, t, gamma, known) && ArmsTy(e.arms, t, ty, gamma, known);
    Sound(g, e.scrut, t, env, i, gamma, known);
    var o := Run(e.scrut, env, known);
    if o.Val? {
      ModelsFrame(g, g1, env, i, gamma, known);
      NoFacts(g1, i);
      SoundArms(g1, e, Term(g1, e.scrut), e.scrut, t, e.arms, [], ty, env, i, gamma, known);
    }
  }

  /** What the arms above taught, and what this one teaches if it is taken. */
  lemma ArmFacts(g: Gen, scrut: Expr, t: string, p: Pat, env: Env, i: Interp, gamma: Types, known: Types)
    requires Typed(scrut, t, gamma, known) && Scope(g, env, i, gamma, known) && Run(scrut, env, known).Val?
    ensures var v := Run(scrut, env, known).v;
            && (Fits(p, v) ==> Facts(g, ArmGuard(g, Term(g, scrut), scrut, p), i))
            && (!Fits(p, v) ==> Facts(g, Refuted(Term(g, scrut), p), i))
  {
    hide Scope, Facts, Typed, Run, Conjuncts, Truths, Means;
    var v, s := Run(scrut, env, known).v, Term(g, scrut);
    NoFacts(g, i);
    ScopeHonest(g, env, i, gamma, known);
    RunTyped(scrut, t, env, gamma, known);
    if s.Some? { TermMeans(g, scrut, t, env, i, gamma, known); }
    if ArmHyp(s, p).Some? {
      PatFact(g, s.value.0, s.value.1, p, v, i);
    } else if p == PBool(true) && Fits(p, v) {
      assert t == "Bool" by { BoolTy(v, t); }
      StripTyped(scrut, t, env, gamma, known);
      ConjunctsTrue(Strip(scrut), env, gamma, known);
      TruthsHold(g, Conjuncts(Strip(scrut)), env, i, gamma, known);
    }
  }

  lemma BoolTy(v: Value, t: string)
    requires ValueOk(v, t) && v.BoolV?
    ensures t == "Bool"
  {}

  lemma PatFact(g: Gen, t: Smt, k: Sort, p: Pat, v: Value, i: Interp)
    requires OldTerm(g, t) && Means(t, i) == v && ArmHyp(Some((t, k)), p).Some? && (k == BoolS ==> v.BoolV?)
    ensures var h := ArmHyp(Some((t, k)), p).value;
            Facts(g, if Fits(p, v) then [h] else [Nope(h)], i)
  {
    hide Facts;
    var h := ArmHyp(Some((t, k)), p).value;
    assert Means(h, i) == BoolV(Fits(p, v)) && OldTerm(g, h);
    if Fits(p, v) { OneFact(g, h, i); } else { OneFact(g, Nope(h), i); }
  }

  lemma ModelsArm(g: Gen, p: Pat, v: Value, env: Env, i: Interp, gamma: Types, known: Types)
    requires Models(g, env, i, gamma, known)
    ensures Models(g, Bound(p, v, env), i, Hidden(p, gamma), Hidden(p, known))
  {
    hide Read, ValueOk, Old, Holds, OldTerm;
    forall n | n in Hidden(p, gamma)
      ensures n in Bound(p, v, env) && Stands(g, n, Bound(p, v, env)[n], Hidden(p, gamma)[n], i, Hidden(p, known))
    {
      assert n in gamma && Stands(g, n, env[n], gamma[n], i, known);
    }
  }

  /** Later binders change no term already in scope. */
  lemma {:induction false} TermKept(g: Gen, g': Gen, e: Expr, ty: string, env: Env, i: Interp, gamma: Types,
                                    known: Types)
    requires Typed(e, ty, gamma, known) && Scope(g, env, i, gamma, known) && Frame(g, g')
    ensures Term(g', e) == Term(g, e)
    decreases e
  {
    hide Scope, Frame, Stands, SymOf, SortAt;
    match e
    case Var(n) =>
      StandsAt(g, n, env, i, gamma, known);
      SymKept(g, g', n);
    case Borrow(x) => TermKept(g, g', x, ty, env, i, gamma, known);
    case Not(x) => TermKept(g, g', x, "Bool", env, i, gamma, known);
    case Binop(_, a, b) =>
      var t := OperandTy(e, ty, gamma, known);
      TermKept(g, g', a, t, env, i, gamma, known);
      TermKept(g, g', b, t, env, i, gamma, known);
    case _ =>
  }

  lemma SymKept(g: Gen, g': Gen, n: string)
    requires Frame(g, g') && Old(g, SymOf(g, n))
    ensures SymOf(g', n) == SymOf(g, n) && SortAt(g', SymOf(g, n)) == SortAt(g, SymOf(g, n))
  {}

  lemma ArmsStep(g: Gen, parent: Expr, s: Option<(Smt, Sort)>, scrut: Expr, arms: seq<Arm>, past: seq<Smt>)
    requires arms != [] && forall k :: 0 <= k < |arms| ==> arms[k] < parent
    ensures var more := past + ArmGuard(g, s, scrut, arms[0].pat);
            var g1 := Generate(g.(hyps := g.hyps + more), arms[0].body);
            var g2 := g1.(hyps := g.hyps, tys := g.tys);
            && GenerateArms(g, parent, s, scrut, arms, past)
                 == GenerateArms(g2, parent, s, scrut, arms[1..], past + Refuted(s, arms[0].pat))
            && Frame(g.(hyps := g.hyps + more), g1) && Frame(g, g2) && g1.obs == g2.obs && g1.skipped == g2.skipped
            && Frame(g2, GenerateArms(g, parent, s, scrut, arms, past))
  {
    hide Frame, Later, ArmGuard, Refuted, Generate;
    var more := past + ArmGuard(g, s, scrut, arms[0].pat);
    assert g.hyps + past + ArmGuard(g, s, scrut, arms[0].pat) == g.hyps + more;
    var g1 := Generate(g.(hyps := g.hyps + more), arms[0].body);
    Framed(g.(hyps := g.hyps + more), arms[0].body);
    FrameBack(g, more, g1);
    FramedArms(g1.(hyps := g.hyps, tys := g.tys), parent, s, scrut, arms[1..], past + Refuted(s, arms[0].pat));
  }

  lemma FactsLater(g: Gen, g': Gen, ts: seq<Smt>, i: Interp)
    requires Facts(g, ts, i) && Frame(g, g')
    ensures Facts(g', ts, i)
  {
    hide Holds, OldTerm;
    forall k | 0 <= k < |ts| ensures OldTerm(g', ts[k]) { OldTermLater(g, g', ts[k]); }
  }

  lemma {:induction false} SoundArms(g: Gen, parent: Expr, s: Option<(Smt, Sort)>, scrut: Expr, t: string,
                                     arms: seq<Arm>, past: seq<Smt>, ty: string, env: Env, i: Interp, gamma: Types,
                                     known: Types)
    requires forall k :: 0 <= k < |arms| ==> arms[k] < parent
    requires Typed(scrut, t, gamma, known) && ArmsTy(arms, t, ty, gamma, known) && Models(g, env, i, gamma, known)
    requires Facts(g, past, i) && Run(scrut, env, known).Val? && s == Term(g, scrut)
    requires Clean(g, GenerateArms(g, parent, s, scrut, arms, past))
    ensures Fine(RunArms(parent, arms, Run(scrut, env, known).v, env, known))
    decreases parent, 0, |arms|
  {
    hide Models, Clean, Generate, GenerateArms, Frame, Later, Facts, Run, Typed, Fits, ArmGuard, Refuted, Term, Hidden,
         Bound, Scope, AllHold, EnvOk, Honest;
    if arms != [] {
      var v, p, body := Run(scrut, env, known).v, arms[0].pat, arms[0].body;
      var more := past + ArmGuard(g, s, scrut, p);
      var h := g.(hyps := g.hyps + more);
      var g1 := Generate(h, body);
      var g2 := g1.(hyps := g.hyps, tys := g.tys);
      var g3 := GenerateArms(g, parent, s, scrut, arms, past);
      ArmsStep(g, parent, s, scrut, arms, past);
      FrameParts(h, g1);
      FrameParts(g, g2);
      FrameParts(g2, g3);
      CleanParts(g, g2, g3);
      ModelsScope(g, env, i, gamma, known);
      ArmFacts(g, scrut, t, p, env, i, gamma, known);
      if Fits(p, v) {
        MoreFacts(g, past, ArmGuard(g, s, scrut, p), i);
        ModelsMore(g, more, env, i, gamma, known);
        ModelsArm(h, p, v, env, i, gamma, known);
        CleanSame(g, h, g2, g1);
        assert Typed(body, ty, Hidden(p, gamma), Hidden(p, known));
        Sound(h, body, ty, Bound(p, v, env), i, Hidden(p, gamma), Hidden(p, known));
      } else {
        MoreFacts(g, past, Refuted(s, p), i);
        FactsLater(g, g2, past + Refuted(s, p), i);
        ModelsFrame(g, g2, env, i, gamma, known);
        TermKept(g, g2, scrut, t, env, i, gamma, known);
        SoundArms(g2, parent, s, scrut, t, arms[1..], past + Refuted(s, p), ty, env, i, gamma, known);
      }
    }
  }

  // ---------------------------------------------------------- whole functions

  datatype Param = Param(name: string, ty: string)

  function TypesOf(params: seq<Param>): Types {
    if params == [] then map[] else TypesOf(params[1..])[params[0].name := params[0].ty]
  }

  function SymTypes(params: seq<Param>): map<Sym, string> {
    if params == [] then map[] else SymTypes(params[1..])[Sym(params[0].name, 0) := params[0].ty]
  }

  function NamesOf(params: seq<Param>): set<string> {
    if params == [] then {} else {params[0].name} + NamesOf(params[1..])
  }

  function ParamRanges(params: seq<Param>): seq<Smt> {
    if params == [] then [] else RangeHyps(Sym(params[0].name, 0), params[0].ty) + ParamRanges(params[1..])
  }

  function Start(params: seq<Param>): Gen {
    Gen(SymTypes(params), map[], [], [], map[], NamesOf(params), 0, 0)
  }

  /** The state a body is generated in: the refinements the solver can phrase and
      the ranges of the parameters are hypotheses. */
  function Enter(params: seq<Param>, pres: seq<Expr>): Gen {
    var g := Start(params);
    g.(hyps := Truths(g, pres) + ParamRanges(params))
  }

  ghost predicate DistinctParams(params: seq<Param>) {
    forall i, j :: 0 <= i < j < |params| ==> params[i].name != params[j].name
  }

  /** A signature of unsigned and Bool parameters, with refinements over them. */
  ghost predicate Signature(params: seq<Param>, pres: seq<Expr>) {
    && DistinctParams(params) && (forall k :: 0 <= k < |params| ==> IsTy(params[k].ty))
    && forall k :: 0 <= k < |pres| ==> Typed(pres[k], "Bool", TypesOf(params), TypesOf(params))
  }

  /** Arguments of the declared types that satisfy the refinements. */
  ghost predicate Admitted(params: seq<Param>, pres: seq<Expr>, env: Env) {
    && EnvOk(env, TypesOf(params))
    && forall k :: 0 <= k < |pres| ==> Run(pres[k], env, TypesOf(params)) == Val(BoolV(true))
  }

  lemma {:induction false} ParamTypes(params: seq<Param>)
    requires DistinctParams(params) && forall k :: 0 <= k < |params| ==> IsTy(params[k].ty)
    ensures forall n :: n in TypesOf(params) <==> n in NamesOf(params)
    ensures forall n :: n in TypesOf(params) ==> IsTy(TypesOf(params)[n])
    ensures forall s :: s in SymTypes(params) <==> s.k == 0 && s.base in TypesOf(params)
    ensures forall s :: s in SymTypes(params) ==> SymTypes(params)[s] == TypesOf(params)[s.base]
    ensures forall k :: 0 <= k < |params| ==>
        params[k].name in TypesOf(params) && TypesOf(params)[params[k].name] == params[k].ty
  {
    hide IsTy;
    if params != [] {
      var rest := params[1..];
      ParamTypes(rest);
      forall k | 0 <= k < |params| ensures params[k].name in TypesOf(params)
        && TypesOf(params)[params[k].name] == params[k].ty {
        if k > 0 { assert rest[k - 1] == params[k]; }
      }
    }
  }

  function Reading(env: Env): Interp {
    Interp((s: Sym) => if s.base in env then VcGen.AsInt(env[s.base]) else 0,
           (s: Sym) => s.base in env && AsBool(env[s.base]), (n: int) => 0)
  }

  lemma ReadReading(env: Env, n: string, t: string)
    requires n in env && ValueOk(env[n], t)
    ensures Read(Reading(env), Sym(n, 0), SortOf(t)) == env[n]
  {}

  lemma StartScope(params: seq<Param>, env: Env)
    requires DistinctParams(params) && (forall k :: 0 <= k < |params| ==> IsTy(params[k].ty))
    requires EnvOk(env, TypesOf(params))
    ensures Scope(Start(params), env, Reading(env), TypesOf(params), TypesOf(params)) && Tidy(Start(params))
  {
    hide IsTy, Read, Reading, ValueOk, TypesOf, SymTypes, NamesOf;
    ParamTypes(params);
    var g, gamma := Start(params), TypesOf(params);
    forall n | n in gamma ensures n in env && Stands(g, n, env[n], gamma[n], Reading(env), gamma) {
      EnvAt(env, gamma, n);
      ReadReading(env, n, gamma[n]);
      assert SymOf(g, n) == Sym(n, 0);
    }
  }

  lemma {:induction false} RangesTrue(all: seq<Param>, params: seq<Param>, env: Env)
    requires EnvOk(env, TypesOf(all)) && (forall k :: 0 <= k < |params| ==> IsTy(params[k].ty))
    requires forall k :: 0 <= k < |params| ==>
        params[k].name in TypesOf(all) && TypesOf(all)[params[k].name] == params[k].ty
    requires forall k :: 0 <= k < |params| ==> params[k].name in NamesOf(all)
    ensures Facts(Start(all), ParamRanges(params), Reading(env))
    decreases |params|
  {
    hide Facts, IsTy, TypesOf, RangeHyps, EnvOk, NamesOf, SymTypes, Reading;
    if params == [] {
      NoFacts(Start(all), Reading(env));
    } else {
      var p := params[0];
      RangesTrue(all, params[1..], env);
      EnvAt(env, TypesOf(all), p.name);
      ParamRange(Start(all), p.name, p.ty, env);
      MoreFacts(Start(all), RangeHyps(Sym(p.name, 0), p.ty), ParamRanges(params[1..]), Reading(env));
    }
  }

  lemma ParamRange(g: Gen, n: string, t: string, env: Env)
    requires n in g.seen && n in env && ValueOk(env[n], t) && IsTy(t)
    ensures Facts(g, RangeHyps(Sym(n, 0), t), Reading(env))
  {
    hide With, Facts, RangeHyps;
    var s, i := Sym(n, 0), Reading(env);
    ReadReading(env, n, t);
    NoFacts(g, i);
    if t == "Bool" {
      BoolRange(s);
    } else {
      RangesHold(g, s, t, env[n], i);
      RangesRead(g, s, t, env[n], i);
    }
  }

  lemma BoolRange(s: Sym)
    ensures RangeHyps(s, "Bool") == []
  {}

  /** A symbol already read as `x` need not be changed to be. */
  lemma RangesRead(g: Gen, s: Sym, t: string, x: Value, i: Interp)
    requires Facts(g, RangeHyps(s, t), With(i, s, x)) && x.IntV? && Read(i, s, IntS) == x
    ensures Facts(g, RangeHyps(s, t), i)
  {
    hide OldTerm;
    ReadWith(i, s, x, s, IntS);
    hide With, Read;
    forall k | 0 <= k < |RangeHyps(s, t)| ensures Holds(RangeHyps(s, t)[k], i) {
      var h := RangeHyps(s, t)[k];
      assert h.Apply? && (h.op == Ge || h.op == Le) && h.l == Name(s, IntS) && h.r.Num?;
      assert Means(h.l, i) == Means(h.l, With(i, s, x)) && Means(h.r, i) == Means(h.r, With(i, s, x));
      assert Holds(h, With(i, s, x));
    }
  }

  lemma EnterModels(params: seq<Param>, pres: seq<Expr>, env: Env)
    requires Signature(params, pres) && Admitted(params, pres, env)
    ensures Models(Enter(params, pres), env, Reading(env), TypesOf(params), TypesOf(params))
  {
    hide IsTy, TypesOf, NamesOf, Facts, Truths, ParamRanges, EnvOk, Run, Typed, Reading, Scope, DistinctParams, AllHold;
    var g, i, gamma := Start(params), Reading(env), TypesOf(params);
    StartScope(params, env);
    forall k | 0 <= k < |pres| ensures True(pres[k], env, gamma, gamma) {}
    TruthsHold(g, pres, env, i, gamma, gamma);
    ParamTypes(params);
    RangesTrue(params, params, env);
    MoreFacts(g, Truths(g, pres), ParamRanges(params), i);
    StartModels(g, env, i, gamma);
    ModelsMore(g, Truths(g, pres) + ParamRanges(params), env, i, gamma, gamma);
    assert g.hyps + (Truths(g, pres) + ParamRanges(params)) == Truths(g, pres) + ParamRanges(params);
  }

  lemma StartModels(g: Gen, env: Env, i: Interp, gamma: Types)
    requires Scope(g, env, i, gamma, gamma) && Tidy(g) && g.hyps == []
    ensures Models(g, env, i, gamma, gamma)
  {
    hide Scope, Tidy;
  }

  /** A function all of whose obligations are valid never divides by zero,
      subtracts below zero or leaves a type's range, whatever it is given that
      its signature admits. */
  lemma FunctionSafe(params: seq<Param>, pres: seq<Expr>, body: Expr, ty: string, env: Env)
    requires Signature(params, pres) && Typed(body, ty, TypesOf(params), TypesOf(params))
    requires Proved(Generate(Enter(params, pres), body)) && Admitted(params, pres, env)
    ensures Fine(Run(body, env, TypesOf(params)))
  {
    hide Signature, Admitted, Typed, Enter, Generate, Models, TypesOf, Valid;
    EnterModels(params, pres, env);
    EnterEmpty(params, pres);
    Sound(Enter(params, pres), body, ty, env, Reading(env), TypesOf(params), TypesOf(params));
  }

  ghost predicate Proved(g: Gen) {
    g.skipped == 0 && forall k :: 0 <= k < |g.obs| ==> Valid(g.obs[k])
  }

  lemma EnterEmpty(params: seq<Param>, pres: seq<Expr>)
    ensures Enter(params, pres).obs == [] && Enter(params, pres).skipped == 0
  {}

  // ------------------------------------------------------- machine arithmetic

  /** A scalar at run time: a word tagged signed or unsigned, or a Bool. */
  datatype Word = SignedW(i: int) | UnsignedW(u: int) | BoolW(b: bool)

  type Words = map<string, Word>

  function AsSigned(w: Word): int {
    match w
    case SignedW(i) => i
    case UnsignedW(u) => if u < WORD / 2 then u else u - WORD
    case BoolW(b) => if b then 1 else 0
  }

  function AsUnsigned(w: Word): int {
    match w
    case UnsignedW(u) => u
    case _ => if AsSigned(w) < 0 then AsSigned(w) + WORD else AsSigned(w)
  }

  predicate EitherUnsigned(a: Word, b: Word) { a.UnsignedW? || b.UnsignedW? }

  /** The word of the result's sort with these bits. */
  function Wrap(n: int, unsigned: bool): Word {
    var u := n % WORD;
    if unsigned then UnsignedW(u) else SignedW(if u < WORD / 2 then u else u - WORD)
  }

  function Divide(a: Word, b: Word): Option<Word> {
    var y := AsSigned(b);
    if y == 0 then None
    else if EitherUnsigned(a, b) then
      var d := if y < 0 then y + WORD else y;
      if d == 0 then None else Some(UnsignedW(AsUnsigned(a) / d))
    else
      var x := AsSigned(a);
      var q := (if x < 0 then -x else x) / (if y < 0 then -y else y);
      Some(Wrap(if (x < 0) == (y < 0) then q else -q, false))
  }

  function Compare(a: Word, b: Word): int {
    if EitherUnsigned(a, b) then AsUnsigned(a) - AsUnsigned(b) else AsSigned(a) - AsSigned(b)
  }

  /** An operator of the runtime; nothing when it stops the program. */
  function MachineOp(op: BinOp, a: Word, b: Word): Option<Word> {
    var u := EitherUnsigned(a, b);
    match op
    case Add => Some(Wrap(if u then AsUnsigned(a) + AsUnsigned(b) else AsSigned(a) + AsSigned(b), u))
    case Mul => Some(Wrap(if u then AsUnsigned(a) * AsUnsigned(b) else AsSigned(a) * AsSigned(b), u))
    case Sub =>
      if u then (if AsUnsigned(a) < AsUnsigned(b) then None else Some(UnsignedW(AsUnsigned(a) - AsUnsigned(b))))
      else Some(Wrap(AsSigned(a) - AsSigned(b), false))
    case Div => Divide(a, b)
    case Eq => Some(BoolW(Compare(a, b) == 0))
    case Ne => Some(BoolW(Compare(a, b) != 0))
    case Lt => Some(BoolW(Compare(a, b) < 0))
    case Le => Some(BoolW(Compare(a, b) <= 0))
    case Gt => Some(BoolW(Compare(a, b) > 0))
    case Ge => Some(BoolW(Compare(a, b) >= 0))
    case _ => None
  }

  /** A literal is emitted signed while it fits. */
  function Literal(n: int): Word { if n < WORD / 2 then SignedW(n) else UnsignedW(n) }

  function Machine(e: Expr, ws: Words): Option<Word>
    decreases e
  {
    match e
    case Int(n) => Some(Literal(n))
    case Bool(b) => Some(BoolW(b))
    case Var(n) => if n in ws then Some(ws[n]) else None
    case Borrow(x) => Machine(x, ws)
    case Not(x) => (match Machine(x, ws) case Some(BoolW(b)) => Some(BoolW(!b)) case _ => None)
    case Binop(op, a, b) =>
      var l := Machine(a, ws);
      if l == None then None
      else if op == And || op == Or then
        if !l.value.BoolW? then None
        else if l.value.b == (op == Or) then Some(BoolW(op == Or))
        else (match Machine(b, ws) case Some(BoolW(r)) => Some(BoolW(r)) case _ => None)
      else
        var r := Machine(b, ws);
        if r == None then None else MachineOp(op, l.value, r.value)
    case Let(n, v, rest) =>
      var o := Machine(v, ws);
      if o == None then None else Machine(rest, ws[n := o.value])
    case Match(scrut, arms) =>
      var o := Machine(scrut, ws);
      if o == None then None else MachineArms(e, arms, o.value, ws)
    case _ => None
  }

  function MachineArms(parent: Expr, arms: seq<Arm>, w: Word, ws: Words): Option<Word>
    requires forall k :: 0 <= k < |arms| ==> arms[k] < parent
    decreases parent, |arms|
  {
    if arms == [] then None
    else if MachineFits(arms[0].pat, w) then
      Machine(arms[0].body, if arms[0].pat.PVar? then ws[arms[0].pat.name := w] else ws)
    else MachineArms(parent, arms[1..], w, ws)
  }

  predicate MachineFits(p: Pat, w: Word) {
    match p
    case PInt(n) => Compare(w, Literal(n)) == 0
    case PBool(b) => Compare(w, BoolW(b)) == 0
    case PWild => true
    case PVar(_) => true
    case _ => false
  }

  /** The word stands for the value, whichever way it is tagged. */
  predicate Shows(w: Word, v: Value, ty: string) {
    match v
    case BoolV(b) => ty == "Bool" && w == BoolW(b)
    case IntV(n) => IsUnsigned(ty) && ((0 <= n < WORD && w == UnsignedW(n)) || (0 <= n < WORD / 2 && w == SignedW(n)))
  }

  ghost predicate WordsShow(ws: Words, env: Env, gamma: Types) {
    forall n :: n in gamma ==> n in ws && n in env && Shows(ws[n], env[n], gamma[n])
  }

  predicate SumOrProduct(op: BinOp) { op == Add || op == Mul }

  function Joined(op: BinOp, l: int, r: int): int { if op == Add then l + r else l * r }

  /** The result of a sum or product fits the word it is computed in: a signed one
      where both operands are tagged signed. */
  predicate Room(a: Word, b: Word, n: int) { n < if EitherUnsigned(a, b) then WORD else WORD / 2 }

  /** A sum or product of words that stand for their operands stands for the
      result if and only if it has room: below 2^64, or below 2^63 where neither
      operand is tagged unsigned. */
  lemma SumExactIffRoom(op: BinOp, a: Word, b: Word, l: Value, r: Value, ty: string)
    requires SumOrProduct(op) && l.IntV? && r.IntV? && Shows(a, l, ty) && Shows(b, r, ty)
    ensures var n := Joined(op, l.n, r.n);
            MachineOp(op, a, b).Some? && (Shows(MachineOp(op, a, b).value, IntV(n), ty) <==> Room(a, b, n))
  {
    hide IsUnsigned;
    var n := Joined(op, l.n, r.n);
    assert n >= 0 by { ProductNatural(l.n, r.n); }
    WrapShows(n, EitherUnsigned(a, b), ty);
  }

  lemma WrapShows(n: nat, unsigned: bool, ty: string)
    requires IsUnsigned(ty)
    ensures Shows(Wrap(n, unsigned), IntV(n), ty) <==> n < if unsigned then WORD else WORD / 2
  {
    hide IsUnsigned;
    Small(n);
  }

  /** A difference or quotient that has a value has it on the machine too. */
  lemma DifferenceExact(op: BinOp, a: Word, b: Word, l: Value, r: Value, ty: string)
    requires (op == Sub || op == Div) && IsUnsigned(ty) && Shows(a, l, ty) && Shows(b, r, ty)
    requires Compute(op, l, r, Some(ty)).Val?
    ensures MachineOp(op, a, b).Some? && Shows(MachineOp(op, a, b).value, Compute(op, l, r, Some(ty)).v, ty)
    ensures EitherUnsigned(a, b) ==> MachineOp(op, a, b).value.UnsignedW?
  {
    IntsOnly(a, l, ty);
    IntsOnly(b, r, ty);
    if op == Div { QuotientExact(a, b, l, r, ty); } else { RestExact(a, b, l, r, ty); }
  }

  lemma RestExact(a: Word, b: Word, l: Value, r: Value, ty: string)
    requires IsUnsigned(ty) && Shows(a, l, ty) && Shows(b, r, ty) && l.IntV? && r.IntV? && l.n >= r.n
    ensures MachineOp(Sub, a, b).Some? && Shows(MachineOp(Sub, a, b).value, IntV(l.n - r.n), ty)
    ensures EitherUnsigned(a, b) ==> MachineOp(Sub, a, b).value.UnsignedW?
  {
    hide IsUnsigned;
    if !EitherUnsigned(a, b) { WrapShows(l.n - r.n, false, ty); }
  }

  lemma QuotientExact(a: Word, b: Word, l: Value, r: Value, ty: string)
    requires IsUnsigned(ty) && Shows(a, l, ty) && Shows(b, r, ty) && l.IntV? && r.IntV? && r.n != 0
    ensures MachineOp(Div, a, b).Some? && Shows(MachineOp(Div, a, b).value, IntV(l.n / r.n), ty)
    ensures EitherUnsigned(a, b) ==> MachineOp(Div, a, b).value.UnsignedW?
  {
    hide IsUnsigned, Wrap;
    QuotientBound(l.n, r.n);
    var q: nat := l.n / r.n;
    DivideIs(a, b, l.n, r.n);
    WrapShows(q, EitherUnsigned(a, b), ty);
  }

  lemma DivideIs(a: Word, b: Word, x: nat, y: nat)
    requires y != 0 && ((x < WORD && a == UnsignedW(x)) || (x < WORD / 2 && a == SignedW(x)))
    requires (y < WORD && b == UnsignedW(y)) || (y < WORD / 2 && b == SignedW(y))
    ensures Divide(a, b) == Some(if EitherUnsigned(a, b) then UnsignedW(x / y) else Wrap(x / y, false))
  {
    hide Wrap;
    assert AsSigned(b) == if y < WORD / 2 then y else y - WORD;
  }

  lemma Small(n: int)
    ensures 0 <= n < WORD ==> n % WORD == n
    ensures 0 <= n % WORD < WORD
  {}

  lemma CompareExact(op: BinOp, a: Word, b: Word, l: Value, r: Value, t: string)
    requires !Arithmetic(op) && op != And && op != Or && op != Concat && Operands(op, t)
    requires Shows(a, l, t) && Shows(b, r, t)
    ensures MachineOp(op, a, b).Some? && Decide(op, l, r).BoolV?
    ensures MachineOp(op, a, b).value == BoolW(Decide(op, l, r).b)
  {
  }

  lemma WordsAt(ws: Words, env: Env, gamma: Types, n: string)
    requires WordsShow(ws, env, gamma) && n in gamma
    ensures n in ws && n in env && Shows(ws[n], env[n], gamma[n])
  {}

  lemma LiteralShows(n: int, ty: string)
    requires ValueOk(IntV(n), ty) && IsUnsigned(ty) && n < WORD
    ensures Shows(Literal(n), IntV(n), ty)
  {}

  lemma WordsMore(ws: Words, env: Env, gamma: Types, n: string, w: Word, v: Value, t: string)
    requires WordsShow(ws, env, gamma) && Shows(w, v, t)
    ensures WordsShow(ws[n := w], env[n := v], gamma[n := t])
  {
    hide Shows;
  }

  function ArmWords(p: Pat, w: Word, ws: Words): Words { if p.PVar? then ws[p.name := w] else ws }

  lemma WordsArm(ws: Words, env: Env, gamma: Types, p: Pat, w: Word, v: Value)
    requires WordsShow(ws, env, gamma)
    ensures WordsShow(ArmWords(p, w, ws), Bound(p, v, env), Hidden(p, gamma))
  {
    hide Shows;
  }

  lemma FitsExact(p: Pat, w: Word, v: Value, ty: string)
    requires Shows(w, v, ty) && PatFor(p, ty)
    ensures MachineFits(p, w) <==> Fits(p, v)
  {}

  lemma BoolWord(w: Word, v: Value)
    requires Shows(w, v, "Bool")
    ensures w.BoolW? && v == BoolV(w.b)
  {}

  lemma LogicExact(op: BinOp, l: Value, r: Value)
    requires (op == And && AsBool(l)) || (op == Or && !AsBool(l))
    ensures Decide(op, l, r) == BoolV(AsBool(r))
  {}

  lemma OperandOf(e: Expr, ty: string, gamma: Types, known: Types) returns (t: string)
    requires e.Binop? && Typed(e, ty, gamma, known) && IsTy(ty)
    ensures Typed(e.left, t, gamma, known) && Typed(e.right, t, gamma, known) && e.op != Concat && IsTy(t)
    ensures if Arithmetic(e.op) then t == ty && IsUnsigned(ty)
            else ty == "Bool" && if e.op == And || e.op == Or then t == "Bool" else Operands(e.op, t)
  {
    if Arithmetic(e.op) {
      t := ty;
    } else if e.op == And || e.op == Or {
      t := "Bool";
    } else {
      t :| Operands(e.op, t) && Typed(e.left, t, gamma, known) && Typed(e.right, t, gamma, known);
    }
  }

  // ------------------------------------------------------ room in a whole run

  /** The right operand is evaluated. */
  predicate Continues(op: BinOp, l: Value) { !(op == And && !AsBool(l)) && !(op == Or && AsBool(l)) }

  /** Every sum and product the run comes by has room. */
  ghost predicate Ample(e: Expr, env: Env, ws: Words, known: Types)
    decreases e
  {
    match e
    case Borrow(x) => Ample(x, env, ws, known)
    case Not(x) => Ample(x, env, ws, known)
    case Binop(op, a, b) =>
      var l, w := Run(a, env, known), Machine(a, ws);
      Ample(a, env, ws, known)
      && (l.Val? && w.Some? && Continues(op, l.v) ==>
            Ample(b, env, ws, known)
            && var r, x := Run(b, env, known), Machine(b, ws);
               SumOrProduct(op) && r.Val? && x.Some? ==> Room(w.value, x.value, Joined(op, AsInt(l.v), AsInt(r.v))))
    case Let(n, v, rest) =>
      var o, w := Run(v, env, known), Machine(v, ws);
      Ample(v, env, ws, known)
      && (o.Val? && w.Some? ==> Ample(rest, env[n := o.v], ws[n := w.value], Known(known, n, KnownTy(v, known))))
    case Match(scrut, arms) =>
      var o, w := Run(scrut, env, known), Machine(scrut, ws);
      Ample(scrut, env, ws, known) && (o.Val? && w.Some? ==> AmpleArms(e, arms, o.v, w.value, env, ws, known))
    case _ => true
  }

  ghost predicate AmpleArms(parent: Expr, arms: seq<Arm>, v: Value, w: Word, env: Env, ws: Words, known: Types)
    requires forall k :: 0 <= k < |arms| ==> arms[k] < parent
    decreases parent, |arms|
  {
    if arms == [] then true
    else
      var p := arms[0].pat;
      if Fits(p, v) then Ample(arms[0].body, Bound(p, v, env), ArmWords(p, w, ws), Hidden(p, known))
      else AmpleArms(parent, arms[1..], v, w, env, ws, known)
  }

  /** Where a mathematical run has a value and every sum and product on its way has
      room, the machine computes that value. */
  lemma {:induction false} MachineExact(e: Expr, ty: string, env: Env, ws: Words, gamma: Types, known: Types)
    requires Typed(e, ty, gamma, known) && IsTy(ty) && EnvOk(env, gamma) && Honest(known, gamma)
    requires WordsShow(ws, env, gamma)
    requires Run(e, env, known).Val? && Ample(e, env, ws, known)
    ensures Machine(e, ws).Some? && Shows(Machine(e, ws).value, Run(e, env, known).v, ty)
    decreases e, 1
  {
    hide Shows, WordsShow, EnvOk, Honest, ValueOk, Compute, MachineOp, Known;
    match e
    case Int(n) => LiteralShows(n, ty);
    case Bool(b) => assert Shows(BoolW(b), BoolV(b), "Bool") by { BoolShows(b); }
    case Var(n) => WordsAt(ws, env, gamma, n);
    case Borrow(x) => MachineExact(x, ty, env, ws, gamma, known);
    case Not(x) =>
      MachineExact(x, "Bool", env, ws, gamma, known);
      BoolWord(Machine(x, ws).value, Run(x, env, known).v);
      BoolShows(!AsBool(Run(x, env, known).v));
    case Binop(_, _, _) => MachineBinop(e, ty, env, ws, gamma, known);
    case Let(_, _, _) => MachineLet(e, ty, env, ws, gamma, known);
    case Match(scrut, arms) =>
      var t :| IsTy(t) && Typed(scrut, t, gamma, known) && ArmsTy(arms, t, ty, gamma, known);
      MachineExact(scrut, t, env, ws, gamma, known);
      MachineArmsExact(e, arms, Machine(scrut, ws).value, Run(scrut, env, known).v, t, ty, env, ws, gamma, known);
  }

  lemma BoolShows(b: bool)
    ensures Shows(BoolW(b), BoolV(b), "Bool")
  {}

  lemma {:induction false} MachineLet(e: Expr, ty: string, env: Env, ws: Words, gamma: Types, known: Types)
    requires e.Let? && Typed(e, ty, gamma, known) && EnvOk(env, gamma) && Honest(known, gamma)
    requires WordsShow(ws, env, gamma)
    requires Run(e, env, known).Val? && IsTy(ty) && Ample(e, env, ws, known)
    ensures Machine(e, ws).Some? && Shows(Machine(e, ws).value, Run(e, env, known).v, ty)
    decreases e, 0
  {
    hide Shows, WordsShow, EnvOk, Honest, ValueOk, Known, KnownTy;
    var n, v, rest := e.name, e.value, e.body;
    var t :| IsTy(t) && Typed(v, t, gamma, known) && (t == "Bool" ==> Phrased(v))
      && Typed(rest, ty, gamma[n := t], Known(known, n, KnownTy(v, known)));
    MachineExact(v, t, env, ws, gamma, known);
    RunTyped(v, t, env, gamma, known);
    var x, w, known' := Run(v, env, known).v, Machine(v, ws).value, Known(known, n, KnownTy(v, known));
    EnvMore(env, gamma, n, x, t);
    KnownIs(v, t, gamma, known);
    KnownHonest(known, gamma, n, t, KnownTy(v, known));
    WordsMore(ws, env, gamma, n, w, x, t);
    MachineExact(rest, ty, env[n := x], ws[n := w], gamma[n := t], known');
  }

  /** An arithmetic node whose operands the machine has right. */
  lemma MachineArith(e: Expr, ty: string, env: Env, ws: Words, gamma: Types, known: Types)
    requires e.Binop? && Arithmetic(e.op) && Typed(e, ty, gamma, known) && EnvOk(env, gamma) && Honest(known, gamma)
    requires Run(e, env, known).Val? && Run(e.left, env, known).Val? && Run(e.right, env, known).Val?
    requires Machine(e.left, ws).Some? && Machine(e.right, ws).Some?
    requires Shows(Machine(e.left, ws).value, Run(e.left, env, known).v, ty)
    requires Shows(Machine(e.right, ws).value, Run(e.right, env, known).v, ty)
    requires SumOrProduct(e.op) ==>
               Room(Machine(e.left, ws).value, Machine(e.right, ws).value,
                    Joined(e.op, AsInt(Run(e.left, env, known).v), AsInt(Run(e.right, env, known).v)))
    ensures Machine(e, ws).Some? && Shows(Machine(e, ws).value, Run(e, env, known).v, ty)
  {
    hide Shows, EnvOk, Honest, ValueOk, MachineOp, Typed, Operands, Decide, Room;
    var op, a, b := e.op, e.left, e.right;
    var l, r := Run(a, env, known).v, Run(b, env, known).v;
    KnownIs(e, ty, gamma, known);
    ArithTyped(e, ty, gamma, known);
    IntsOnly(Machine(a, ws).value, l, ty);
    IntsOnly(Machine(b, ws).value, r, ty);
    if SumOrProduct(op) {
      SumExactIffRoom(op, Machine(a, ws).value, Machine(b, ws).value, l, r, ty);
    } else {
      DifferenceExact(op, Machine(a, ws).value, Machine(b, ws).value, l, r, ty);
    }
  }

  lemma IntsOnly(w: Word, v: Value, ty: string)
    requires Shows(w, v, ty) && IsUnsigned(ty)
    ensures v.IntV? && v.n >= 0
  {}

  lemma {:induction false} MachineBinop(e: Expr, ty: string, env: Env, ws: Words, gamma: Types, known: Types)
    requires e.Binop? && Typed(e, ty, gamma, known) && EnvOk(env, gamma) && Honest(known, gamma)
    requires WordsShow(ws, env, gamma)
    requires Run(e, env, known).Val? && IsTy(ty) && Ample(e, env, ws, known)
    ensures Machine(e, ws).Some? && Shows(Machine(e, ws).value, Run(e, env, known).v, ty)
    decreases e, 0
  {
    hide Shows, WordsShow, EnvOk, Honest, ValueOk, Compute, MachineOp, Typed, Operands, Decide, Room;
    var op, a, b := e.op, e.left, e.right;
    var t := OperandOf(e, ty, gamma, known);
    MachineExact(a, t, env, ws, gamma, known);
    var l := Run(a, env, known);
    if op == And || op == Or {
      BoolWord(Machine(a, ws).value, l.v);
      BoolShows(op == Or);
    }
    if Continues(op, l.v) {
      MachineExact(b, t, env, ws, gamma, known);
      var r := Run(b, env, known);
      ComputeStuck(op, l.v, r.v, KnownTy(e, known));
      if Arithmetic(op) {
        MachineArith(e, ty, env, ws, gamma, known);
      } else if op == And || op == Or {
        BoolWord(Machine(b, ws).value, r.v);
        LogicExact(op, l.v, r.v);
        BoolShows(AsBool(r.v));
      } else {
        CompareExact(op, Machine(a, ws).value, Machine(b, ws).value, l.v, r.v, t);
        BoolShows(Decide(op, l.v, r.v).b);
      }
    }
  }

  lemma {:induction false} MachineArmsExact(parent: Expr, arms: seq<Arm>, w: Word, v: Value, t: string, ty: string,
                                            env: Env, ws: Words, gamma: Types, known: Types)
    requires forall k :: 0 <= k < |arms| ==> arms[k] < parent
    requires ArmsTy(arms, t, ty, gamma, known) && EnvOk(env, gamma) && Honest(known, gamma) && WordsShow(ws, env, gamma)
    requires Shows(w, v, t) && RunArms(parent, arms, v, env, known).Val? && IsTy(ty)
    requires AmpleArms(parent, arms, v, w, env, ws, known)
    ensures MachineArms(parent, arms, w, ws).Some?
    ensures Shows(MachineArms(parent, arms, w, ws).value, RunArms(parent, arms, v, env, known).v, ty)
    decreases parent, 0, |arms|
  {
    hide Shows, WordsShow, EnvOk, Honest, Typed, Run, Machine, Hidden, Bound, PatFor, Fits, MachineFits, Ample;
    var p := arms[0].pat;
    assert PatFor(p, t) && Typed(arms[0].body, ty, Hidden(p, gamma), Hidden(p, known));
    FitsExact(p, w, v, t);
    if Fits(p, v) {
      EnvArm(env, gamma, p, v);
      HiddenHonest(known, gamma, p);
      WordsArm(ws, env, gamma, p, w, v);
      MachineExact(arms[0].body, ty, Bound(p, v, env), ArmWords(p, w, ws), Hidden(p, gamma), Hidden(p, known));
    } else {
      MachineArmsExact(parent, arms[1..], w, v, t, ty, env, ws, gamma, known);
    }
  }

  /** Valid obligations make a function's machine result its mathematical one,
      whichever way the arguments are tagged, whenever every sum and product has
      room and some arm applies in every match the run meets. */
  lemma FunctionExact(params: seq<Param>, pres: seq<Expr>, body: Expr, ty: string, env: Env, ws: Words)
    requires Signature(params, pres) && IsTy(ty) && Typed(body, ty, TypesOf(params), TypesOf(params))
    requires Proved(Generate(Enter(params, pres), body)) && Admitted(params, pres, env)
    requires WordsShow(ws, env, TypesOf(params)) && Ample(body, env, ws, TypesOf(params))
    ensures var o := Run(body, env, TypesOf(params));
            o == NoArm || (o.Val? && Machine(body, ws).Some? && Shows(Machine(body, ws).value, o.v, ty))
  {
    hide Signature, Typed, Enter, Generate, Proved, Run, Machine, TypesOf, WordsShow, Shows, Ample;
    FunctionSafe(params, pres, body, ty, env);
    var gamma := TypesOf(params);
    if Run(body, env, gamma).Val? {
      SelfHonest(gamma);
      MachineExact(body, ty, env, ws, gamma, gamma);
    }
  }

  // ------------------------------------------------------- room from the tags

  /** No sum or product has the one unsigned type without a ceiling. */
  ghost predicate NatFree(e: Expr, known: Types)
    decreases e
  {
    match e
    case Borrow(x) => NatFree(x, known)
    case Not(x) => NatFree(x, known)
    case Binop(op, a, b) =>
      NatFree(a, known) && NatFree(b, known) && (SumOrProduct(op) ==> KnownTy(e, known) != Some("Nat"))
    case Let(n, v, rest) => NatFree(v, known) && NatFree(rest, Known(known, n, KnownTy(v, known)))
    case Match(scrut, arms) =>
      NatFree(scrut, known) && forall k :: 0 <= k < |arms| ==> NatFree(arms[k].body, Hidden(arms[k].pat, known))
    case _ => true
  }

  ghost predicate NatFreeArms(arms: seq<Arm>, known: Types) {
    forall k :: 0 <= k < |arms| ==> NatFree(arms[k].body, Hidden(arms[k].pat, known))
  }

  lemma FirstArm(arms: seq<Arm>, t: string, ty: string, gamma: Types, known: Types)
    requires arms != [] && ArmsTy(arms, t, ty, gamma, known) && NatFreeArms(arms, known)
    ensures var p := arms[0].pat;
            PatFor(p, t) && Typed(arms[0].body, ty, Hidden(p, gamma), Hidden(p, known))
            && NatFree(arms[0].body, Hidden(p, known))
    ensures ArmsTy(arms[1..], t, ty, gamma, known) && NatFreeArms(arms[1..], known)
  {
    hide PatFor, Typed, NatFree, Hidden;
  }

  /** A name whose type the generator knows holds no word tagged signed. */
  ghost predicate Tagged(ws: Words, known: Types) {
    forall n :: n in known && n in ws ==> !ws[n].SignedW?
  }

  /** What a run of tagged words keeps: room everywhere, and the tags. */
  ghost predicate Tame(e: Expr, env: Env, ws: Words, known: Types) {
    && Ample(e, env, ws, known)
    && (KnownTy(e, known).Some? && Machine(e, ws).Some? ==> !Machine(e, ws).value.SignedW?)
  }

  /** Where every name of known type is tagged unsigned and no sum or product is of
      type `Nat`, there is room everywhere: each sum and product has an operand
      tagged unsigned, and its type's ceiling is below 2^64. */
  lemma {:induction false} TaggedHasRoom(e: Expr, ty: string, env: Env, ws: Words, gamma: Types, known: Types)
    requires Typed(e, ty, gamma, known) && IsTy(ty) && EnvOk(env, gamma) && Honest(known, gamma)
    requires WordsShow(ws, env, gamma)
    requires Tagged(ws, known) && NatFree(e, known) && Run(e, env, known).Val?
    ensures Tame(e, env, ws, known)
    decreases e, 1
  {
    hide Shows, WordsShow, EnvOk, Honest, ValueOk, Compute, MachineOp, Known, Tagged, AmpleArms;
    match e
    case Int(_) =>
    case Bool(_) =>
    case Var(n) => assert n in known && n in ws ==> !ws[n].SignedW? by { TagAt(ws, known, n); }
    case Borrow(x) => TaggedHasRoom(x, ty, env, ws, gamma, known);
    case Not(x) => TaggedHasRoom(x, "Bool", env, ws, gamma, known);
    case Binop(_, _, _) => TaggedBinop(e, ty, env, ws, gamma, known);
    case Let(_, _, _) => TaggedLet(e, ty, env, ws, gamma, known);
    case Match(scrut, arms) =>
      var t :| IsTy(t) && Typed(scrut, t, gamma, known) && ArmsTy(arms, t, ty, gamma, known);
      TaggedHasRoom(scrut, t, env, ws, gamma, known);
      MachineExact(scrut, t, env, ws, gamma, known);
      TaggedArms(e, arms, Machine(scrut, ws).value, Run(scrut, env, known).v, t, ty, env, ws, gamma, known);
  }

  lemma TagAt(ws: Words, known: Types, n: string)
    requires Tagged(ws, known)
    ensures n in known && n in ws ==> !ws[n].SignedW?
  {}

  lemma {:induction false} TaggedLet(e: Expr, ty: string, env: Env, ws: Words, gamma: Types, known: Types)
    requires e.Let? && Typed(e, ty, gamma, known) && IsTy(ty) && EnvOk(env, gamma) && Honest(known, gamma)
    requires WordsShow(ws, env, gamma) && Tagged(ws, known) && NatFree(e, known) && Run(e, env, known).Val?
    ensures Tame(e, env, ws, known)
    decreases e, 0
  {
    hide Shows, WordsShow, EnvOk, Honest, ValueOk, Known, KnownTy, Tagged, AmpleArms;
    var n, v, rest := e.name, e.value, e.body;
    var t :| IsTy(t) && Typed(v, t, gamma, known) && (t == "Bool" ==> Phrased(v))
      && Typed(rest, ty, gamma[n := t], Known(known, n, KnownTy(v, known)));
    TaggedHasRoom(v, t, env, ws, gamma, known);
    MachineExact(v, t, env, ws, gamma, known);
    RunTyped(v, t, env, gamma, known);
    var x, w, known' := Run(v, env, known).v, Machine(v, ws).value, Known(known, n, KnownTy(v, known));
    EnvMore(env, gamma, n, x, t);
    KnownIs(v, t, gamma, known);
    KnownHonest(known, gamma, n, t, KnownTy(v, known));
    WordsMore(ws, env, gamma, n, w, x, t);
    TagMore(ws, known, n, w, KnownTy(v, known));
    TaggedHasRoom(rest, ty, env[n := x], ws[n := w], gamma[n := t], known');
    LetUnknown(e, known);
  }

  lemma TagMore(ws: Words, known: Types, n: string, w: Word, k: Option<string>)
    requires Tagged(ws, known) && (k.Some? ==> !w.SignedW?)
    ensures Tagged(ws[n := w], Known(known, n, k))
  {}

  lemma LetUnknown(e: Expr, known: Types)
    requires e.Let?
    ensures KnownTy(e, known) == None
  {}

  lemma {:induction false} TaggedBinop(e: Expr, ty: string, env: Env, ws: Words, gamma: Types, known: Types)
    requires e.Binop? && Typed(e, ty, gamma, known) && IsTy(ty) && EnvOk(env, gamma) && Honest(known, gamma)
    requires WordsShow(ws, env, gamma) && Tagged(ws, known) && NatFree(e, known) && Run(e, env, known).Val?
    ensures Tame(e, env, ws, known)
    decreases e, 0
  {
    hide Shows, WordsShow, EnvOk, Honest, ValueOk, Compute, MachineOp, Typed, Operands, Decide, Room, Tagged;
    var op, a, b := e.op, e.left, e.right;
    var t := OperandOf(e, ty, gamma, known);
    TaggedHasRoom(a, t, env, ws, gamma, known);
    MachineExact(a, t, env, ws, gamma, known);
    var l := Run(a, env, known);
    if Continues(op, l.v) {
      TaggedHasRoom(b, t, env, ws, gamma, known);
      MachineExact(b, t, env, ws, gamma, known);
      if Arithmetic(op) { TaggedArith(e, ty, env, ws, gamma, known); }
    }
  }

  lemma TaggedArith(e: Expr, ty: string, env: Env, ws: Words, gamma: Types, known: Types)
    requires e.Binop? && Arithmetic(e.op) && Typed(e, ty, gamma, known) && Honest(known, gamma) && EnvOk(env, gamma)
    requires Run(e, env, known).Val? && Run(e.left, env, known).Val? && Run(e.right, env, known).Val?
    requires Machine(e.left, ws).Some? && Machine(e.right, ws).Some? && NatFree(e, known)
    requires Shows(Machine(e.left, ws).value, Run(e.left, env, known).v, ty)
    requires Shows(Machine(e.right, ws).value, Run(e.right, env, known).v, ty)
    requires KnownTy(e.left, known).Some? ==> !Machine(e.left, ws).value.SignedW?
    requires KnownTy(e.right, known).Some? ==> !Machine(e.right, ws).value.SignedW?
    ensures SumOrProduct(e.op) ==>
              Room(Machine(e.left, ws).value, Machine(e.right, ws).value,
                   Joined(e.op, AsInt(Run(e.left, env, known).v), AsInt(Run(e.right, env, known).v)))
    ensures Machine(e, ws).Some? && Machine(e, ws).value.UnsignedW?
  {
    hide Shows, EnvOk, Honest, ValueOk, Typed, Operands, Decide, NatFree, Divide, Wrap, Compute;
    var op, a, b := e.op, Machine(e.left, ws).value, Machine(e.right, ws).value;
    var l, r := Run(e.left, env, known).v, Run(e.right, env, known).v;
    KnownIs(e, ty, gamma, known);
    ArithTyped(e, ty, gamma, known);
    KnownParts(e, known);
    IntsOnly(a, l, ty);
    IntsOnly(b, r, ty);
    NoBools(a, l, ty);
    NoBools(b, r, ty);
    if SumOrProduct(op) {
      CeilingBelow(op, l, r, ty) by { NatFreeAt(e, known); }
      WrapUnsigned(if op == Add then AsUnsigned(a) + AsUnsigned(b) else AsUnsigned(a) * AsUnsigned(b));
    } else {
      DifferenceExact(op, a, b, l, r, ty);
    }
  }

  lemma NoBools(w: Word, v: Value, ty: string)
    requires Shows(w, v, ty) && IsUnsigned(ty)
    ensures !w.BoolW?
  {}

  lemma NatFreeAt(e: Expr, known: Types)
    requires e.Binop? && NatFree(e, known) && SumOrProduct(e.op)
    ensures KnownTy(e, known) != Some("Nat")
  {}

  lemma WrapUnsigned(n: int)
    ensures Wrap(n, true).UnsignedW?
  {}

  lemma CeilingBelow(op: BinOp, l: Value, r: Value, ty: string)
    requires SumOrProduct(op) && l.IntV? && r.IntV? && IsUnsigned(ty) && ty != "Nat" && Compute(op, l, r, Some(ty)).Val?
    ensures Joined(op, l.n, r.n) < WORD
  {}

  lemma KnownParts(e: Expr, known: Types)
    requires e.Binop? && Arithmetic(e.op) && KnownTy(e, known).Some?
    ensures KnownTy(e.left, known).Some? || KnownTy(e.right, known).Some?
  {}

  lemma {:induction false} TaggedArms(parent: Expr, arms: seq<Arm>, w: Word, v: Value, t: string, ty: string,
                                      env: Env, ws: Words, gamma: Types, known: Types)
    requires forall k :: 0 <= k < |arms| ==> arms[k] < parent
    requires ArmsTy(arms, t, ty, gamma, known) && EnvOk(env, gamma) && Honest(known, gamma) && WordsShow(ws, env, gamma)
    requires Tagged(ws, known) && NatFreeArms(arms, known)
    requires Shows(w, v, t) && RunArms(parent, arms, v, env, known).Val? && IsTy(ty)
    ensures AmpleArms(parent, arms, v, w, env, ws, known)
    decreases parent, 0, |arms|
  {
    hide Shows, WordsShow, EnvOk, Honest, Typed, Run, Machine, Hidden, Bound, PatFor, Fits, Ample, Tagged, NatFree,
         ArmWords, ArmsTy, NatFreeArms, RunArms, AmpleArms;
    RunTurn(parent, arms, v, env, known);
    var p := arms[0].pat;
    FirstArm(arms, t, ty, gamma, known);
    if Fits(p, v) {
      EnvArm(env, gamma, p, v);
      HiddenHonest(known, gamma, p);
      WordsArm(ws, env, gamma, p, w, v);
      TagArm(ws, known, p, w);
      TaggedHasRoom(arms[0].body, ty, Bound(p, v, env), ArmWords(p, w, ws), Hidden(p, gamma), Hidden(p, known));
    } else {
      TaggedArms(parent, arms[1..], w, v, t, ty, env, ws, gamma, known);
    }
    AmpleTurn(parent, arms, v, w, env, ws, known);
  }

  /** One arm tried. */
  lemma RunTurn(parent: Expr, arms: seq<Arm>, v: Value, env: Env, known: Types)
    requires forall k :: 0 <= k < |arms| ==> arms[k] < parent
    ensures RunArms(parent, arms, v, env, known) ==
      if arms == [] then NoArm
      else if Fits(arms[0].pat, v) then Run(arms[0].body, Bound(arms[0].pat, v, env), Hidden(arms[0].pat, known))
      else RunArms(parent, arms[1..], v, env, known)
  {
    hide Fits, Run, Bound, Hidden;
  }

  lemma AmpleTurn(parent: Expr, arms: seq<Arm>, v: Value, w: Word, env: Env, ws: Words, known: Types)
    requires arms != [] && forall k :: 0 <= k < |arms| ==> arms[k] < parent
    requires
      if Fits(arms[0].pat, v) then
        Ample(arms[0].body, Bound(arms[0].pat, v, env), ArmWords(arms[0].pat, w, ws), Hidden(arms[0].pat, known))
      else AmpleArms(parent, arms[1..], v, w, env, ws, known)
    ensures AmpleArms(parent, arms, v, w, env, ws, known)
  {
    hide Fits, Ample, Bound, ArmWords, Hidden;
  }

  lemma TagArm(ws: Words, known: Types, p: Pat, w: Word)
    requires Tagged(ws, known)
    ensures Tagged(ArmWords(p, w, ws), Hidden(p, known))
  {}

  /** With arguments tagged unsigned and no sum or product of type `Nat`, valid
      obligations alone make the machine result the mathematical one. */
  lemma TaggedFunctionExact(params: seq<Param>, pres: seq<Expr>, body: Expr, ty: string, env: Env, ws: Words)
    requires Signature(params, pres) && IsTy(ty) && Typed(body, ty, TypesOf(params), TypesOf(params))
    requires Proved(Generate(Enter(params, pres), body)) && Admitted(params, pres, env)
    requires WordsShow(ws, env, TypesOf(params)) && Tagged(ws, TypesOf(params)) && NatFree(body, TypesOf(params))
    ensures var o := Run(body, env, TypesOf(params));
            o == NoArm || (o.Val? && Machine(body, ws).Some? && Shows(Machine(body, ws).value, o.v, ty))
  {
    hide Signature, Typed, Enter, Generate, Proved, Run, Machine, TypesOf, WordsShow, Shows, Ample, Tagged, NatFree;
    FunctionSafe(params, pres, body, ty, env);
    var gamma := TypesOf(params);
    if Run(body, env, gamma).Val? {
      SelfHonest(gamma);
      AdmittedOk(params, pres, env);
      TaggedHasRoom(body, ty, env, ws, gamma, gamma);
      FunctionExact(params, pres, body, ty, env, ws);
    }
  }

  lemma AdmittedOk(params: seq<Param>, pres: seq<Expr>, env: Env)
    requires Admitted(params, pres, env)
    ensures EnvOk(env, TypesOf(params))
  {}

  lemma SelfHonest(gamma: Types)
    ensures Honest(gamma, gamma)
  {}

  // --------------------------------------------- what each condition is there for

  /** A sum or product of a known type is asked about exactly when that type has
      a ceiling; `Nat` has none. */
  lemma SumAsked(g: Gen, e: Expr, ty: string)
    requires e.Binop? && (e.op == Add || e.op == Mul) && TyOf(g, e) == Some(ty) && IsUnsigned(ty)
    requires Term(g, e.left).Some? && Term(g, e.right).Some?
    ensures |Arith(g, e.op, e.left, e.right).obs| == |g.obs| + (if ty == "Nat" then 0 else 1)
  {
    hide Term, TyOf;
    TyOfParts(g, e);
  }

  /** Nothing is asked of `n + 1` on `Nat`, and the machine wraps it. */
  lemma NatWraps(n: string)
    ensures var e, params := Binop(Add, Var(n), Int(1)), [Param(n, "Nat")];
            && Generate(Enter(params, []), e).obs == [] && Generate(Enter(params, []), e).skipped == 0
            && Run(e, map[n := IntV(WORD - 1)], TypesOf(params)) == Val(IntV(WORD))
            && Machine(e, map[n := UnsignedW(WORD - 1)]) == Some(UnsignedW(0))
  {
    var e, params := Binop(Add, Var(n), Int(1)), [Param(n, "Nat")];
    OneParam(n, "Nat");
    var g := Enter(params, []);
    assert Generate(g, Var(n)) == g && Generate(g, Int(1)) == g;
    assert Guard(g, Add, Var(n)) == [] && g.(hyps := g.hyps + []) == g;
    assert Term(g, e.left).Some? && Term(g, e.right).Some? && TyOf(g, e.left) == Some("Nat");
    TyOfParts(g, e);
    SumAsked(g, e, "Nat");
    ArithFrame(g, Add, e.left, e.right);
    assert KnownTy(e, TypesOf(params)) == Some("Nat");
  }

  lemma OneParam(n: string, ty: string)
    ensures var params := [Param(n, ty)];
            && TypesOf(params) == map[n := ty]
            && Enter(params, []) == Gen(map[Sym(n, 0) := ty], map[], RangeHyps(Sym(n, 0), ty), [], map[], {n}, 0, 0)
  {
    hide RangeHyps;
    var params := [Param(n, ty)];
    assert params[1..] == [];
    assert TypesOf(params[1..]) == map[] && SymTypes(params[1..]) == map[] && NamesOf(params[1..]) == {};
    assert ParamRanges(params) == RangeHyps(Sym(n, 0), ty) + [];
    assert Truths(Start(params), []) == [];
  }

  /** An argument passed as a literal is a signed word, whatever its parameter's
      type: a sum in range then comes out negative. */
  lemma SignedArgumentsWrap(n: string)
    ensures var e, types := Binop(Add, Var(n), Var(n)), map[n := "U64"];
            var v := IntV(WORD / 2 - 1);
            && Run(e, map[n := v], types) == Val(IntV(WORD - 2)) && ValueOk(IntV(WORD - 2), "U64")
            && Machine(Int(WORD / 2 - 1), map[]) == Some(SignedW(WORD / 2 - 1))
            && Machine(e, map[n := SignedW(WORD / 2 - 1)]) == Some(SignedW(-2))
  {
    var e, types := Binop(Add, Var(n), Var(n)), map[n := "U64"];
    assert KnownTy(e, types) == Some("U64");
    Small(WORD - 2);
  }

  /** A literal out of its type's range proves anything after it: with `x` a U8,
      `1000 - x` passes its one obligation, and `let y = 1000 - x` promises the
      solver a `y` below 256, which `x = 0` belies. */
  lemma LiteralProvesAnything(x: string, y: string)
    requires x != y
    ensures var v, params := Binop(Sub, Int(1000), Var(x)), [Param(x, "U8")];
            var g := Generate(Enter(params, []), v);
            && Proved(g)
            && Run(v, map[x := IntV(0)], TypesOf(params)) == Val(IntV(1000))
            && forall kind, goal :: Valid(Ob(kind, LetGen(g, y, v).hyps, goal))
  {
    OneParam(x, "U8");
    var v := Binop(Sub, Int(1000), Var(x));
    var g := Enter([Param(x, "U8")], []);
    var sx, sy := Name(Sym(x, 0), IntS), Name(Sym(y, 0), IntS);
    var g1 := Push(g, Underflow, Apply(Ge, Num(1000), sx));
    ThousandGenerates(g, x);
    BelowThousand(g.hyps, x);
    assert LetGen(g1, y, v).hyps == g.hyps + [Apply(Eq, sy, Apply(Sub, Num(1000), sx))]
           + RangeHyps(Sym(y, 0), "U8") by {
      ThousandTerm(g1, x);
    }
    Absurd(LetGen(g1, y, v).hyps, x, y);
    assert KnownTy(v, map[x := "U8"]) == Some("U8");
  }

  lemma ThousandTerm(g: Gen, x: string)
    requires g.tys == map[Sym(x, 0) := "U8"] && g.syms == map[] && g.renames == map[]
    ensures var v, sx := Binop(Sub, Int(1000), Var(x)), Name(Sym(x, 0), IntS);
            Term(g, v) == Some((Apply(Sub, Num(1000), sx), IntS)) && TyOf(g, v) == Some("U8")
  {
    assert Term(g, Int(1000)) == Some((Num(1000), IntS)) && Term(g, Var(x)) == Some((Name(Sym(x, 0), IntS), IntS));
    assert TyOf(g, Int(1000)) == None && TyOf(g, Var(x)) == Some("U8");
  }

  lemma ThousandGenerates(g: Gen, x: string)
    requires g.tys == map[Sym(x, 0) := "U8"] && g.syms == map[] && g.renames == map[]
    ensures Generate(g, Binop(Sub, Int(1000), Var(x)))
             == Push(g, Underflow, Apply(Ge, Num(1000), Name(Sym(x, 0), IntS)))
  {
    assert Generate(g, Int(1000)) == g && Generate(g, Var(x)) == g;
    assert Guard(g, Sub, Int(1000)) == [] && g.(hyps := g.hyps + []) == g;
    assert Term(g, Int(1000)) == Some((Num(1000), IntS)) && Term(g, Var(x)) == Some((Name(Sym(x, 0), IntS), IntS));
    assert TyOf(g, Int(1000)) == None && TyOf(g, Var(x)) == Some("U8");
  }

  lemma U8Hyp(hyps: seq<Smt>, k: nat, x: string, i: Interp)
    requires AllHold(hyps, i) && k + 1 < |hyps|
    requires hyps[k] == Apply(Ge, Name(Sym(x, 0), IntS), Num(0))
    requires hyps[k + 1] == Apply(Le, Name(Sym(x, 0), IntS), Num(0xFF))
    ensures 0 <= i.ints(Sym(x, 0)) <= 255
  {
    var n := IntV(i.ints(Sym(x, 0)));
    assert Holds(hyps[k], i) && Holds(hyps[k + 1], i);
    assert Means(hyps[k].l, i) == n && Means(hyps[k].r, i) == IntV(0);
    assert Means(hyps[k + 1].l, i) == n && Means(hyps[k + 1].r, i) == IntV(0xFF);
  }

  lemma BelowThousand(hyps: seq<Smt>, x: string)
    requires hyps == RangeHyps(Sym(x, 0), "U8")
    ensures Valid(Ob(Underflow, hyps, Apply(Ge, Num(1000), Name(Sym(x, 0), IntS))))
  {
    hide AllHold;
    forall i | AllHold(hyps, i) ensures Holds(Apply(Ge, Num(1000), Name(Sym(x, 0), IntS)), i) {
      U8Hyp(hyps, 0, x, i);
      var l, r := Num(1000), Name(Sym(x, 0), IntS);
      assert Means(l, i) == IntV(1000) && Means(r, i) == IntV(i.ints(Sym(x, 0)));
    }
  }

  lemma Absurd(hyps: seq<Smt>, x: string, y: string)
    requires hyps == RangeHyps(Sym(x, 0), "U8")
             + [Apply(Eq, Name(Sym(y, 0), IntS), Apply(Sub, Num(1000), Name(Sym(x, 0), IntS)))]
                   + RangeHyps(Sym(y, 0), "U8")
    ensures forall kind, goal :: Valid(Ob(kind, hyps, goal))
  {
    hide Holds;
    forall i ensures !AllHold(hyps, i) { Contradictory(hyps, x, y, i); }
  }

  lemma Contradictory(hyps: seq<Smt>, x: string, y: string, i: Interp)
    requires hyps == RangeHyps(Sym(x, 0), "U8")
             + [Apply(Eq, Name(Sym(y, 0), IntS), Apply(Sub, Num(1000), Name(Sym(x, 0), IntS)))]
                   + RangeHyps(Sym(y, 0), "U8")
    ensures !AllHold(hyps, i)
  {
    hide AllHold;
    if AllHold(hyps, i) {
      U8Hyp(hyps, 0, x, i);
      U8Hyp(hyps, 3, y, i);
      EquationAt(hyps, 2, i);
    }
  }

  lemma EquationAt(hyps: seq<Smt>, k: nat, i: Interp)
    requires AllHold(hyps, i) && k < |hyps| && hyps[k].Apply? && hyps[k].op == Eq
    ensures Means(hyps[k].l, i) == Means(hyps[k].r, i)
  {
    assert Holds(hyps[k], i);
  }
}
