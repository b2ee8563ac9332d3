/** Termination measures as linear expressions (src/total.rs).

    `Delta` and `LexDecreases` are specified by what they claim about every
    valuation, not by how they compute it. */
module Measures {
  import opened Wrappers
  import opened Ast

  /** A parameter, or a sub-expression that is not linear, keyed by how it is
      written. */
  datatype Atom = Name(name: string) | Written(e: Expr)

  type Valuation = Atom -> int

  /** `sum(coefficient * atom) + constant`. */
  datatype Lin = Lin(terms: map<Atom, int>, c: int)

  function LinVar(a: Atom): Lin { Lin(map[a := 1], 0) }

  function Coef(l: Lin, a: Atom): int {
    if a in l.terms then l.terms[a] else 0
  }

  /** A term that cancels is dropped, so no coefficient is zero. */
  ghost predicate Reduced(l: Lin) {
    forall a :: a in l.terms ==> l.terms[a] != 0
  }

  // ----------------------------------------------------------- evaluation

  function Times(x: int, y: int): int { x * y }

  ghost function SumOver(keys: set<Atom>, l: Lin, rho: Valuation): int {
    if keys == {} then 0
    else var a :| a in keys; Times(Coef(l, a), rho(a)) + SumOver(keys - {a}, l, rho)
  }

  ghost function Eval(l: Lin, rho: Valuation): int {
    l.c + SumOver(l.terms.Keys, l, rho)
  }

  lemma {:induction false} SumPick(keys: set<Atom>, l: Lin, rho: Valuation, a: Atom)
    requires a in keys
    ensures SumOver(keys, l, rho) == Times(Coef(l, a), rho(a)) + SumOver(keys - {a}, l, rho)
  {
    var b :| b in keys && SumOver(keys, l, rho) == Times(Coef(l, b), rho(b)) + SumOver(keys - {b}, l, rho);
    if a != b {
      SumPick(keys - {b}, l, rho, a);
      SumPick(keys - {a}, l, rho, b);
      assert keys - {b} - {a} == keys - {a} - {b};
    }
  }

  /** Atoms without a term add nothing. */
  lemma {:induction false} SumWider(keys: set<Atom>, l: Lin, rho: Valuation)
    requires l.terms.Keys <= keys
    ensures SumOver(keys, l, rho) == SumOver(l.terms.Keys, l, rho)
    decreases keys
  {
    if a :| a in keys && a !in l.terms {
      SumPick(keys, l, rho, a);
      SumWider(keys - {a}, l, rho);
    } else {
      assert keys == l.terms.Keys;
    }
  }

  lemma {:induction false} SumLinear(keys: set<Atom>, l: Lin, o: Lin, k: int, m: Lin, rho: Valuation)
    requires forall a :: a in keys ==> Coef(m, a) == Coef(l, a) + Coef(o, a) * k
    ensures SumOver(keys, m, rho) == SumOver(keys, l, rho) + Times(SumOver(keys, o, rho), k)
  {
    hide Coef;
    if keys != {} {
      var a :| a in keys;
      SumPick(keys, m, rho, a);
      SumPick(keys, l, rho, a);
      SumPick(keys, o, rho, a);
      SumLinear(keys - {a}, l, o, k, m, rho);
      Distribute(Coef(l, a), Coef(o, a), k, rho(a), SumOver(keys - {a}, o, rho));
    }
  }

  lemma Distribute(x: int, y: int, k: int, r: int, s: int)
    ensures Times(x + y * k, r) == Times(x, r) + Times(Times(y, r), k)
    ensures Times(Times(y, r) + s, k) == Times(Times(y, r), k) + Times(s, k)
  {}

  // ---------------------------------------------------------- linear forms

  /** Add `k` times `o`. */
  function AddScaled(l: Lin, o: Lin, k: int): Lin {
    Lin(map a | a in l.terms.Keys + o.terms.Keys && (a !in o.terms || Coef(l, a) + o.terms[a] * k != 0)
          :: Coef(l, a) + Coef(o, a) * k,
        l.c + o.c * k)
  }

  lemma AddScaledCoef(l: Lin, o: Lin, k: int)
    ensures forall a :: Coef(AddScaled(l, o, k), a) == Coef(l, a) + Coef(o, a) * k
    ensures AddScaled(l, o, k).terms.Keys <= l.terms.Keys + o.terms.Keys
    ensures Reduced(l) ==> Reduced(AddScaled(l, o, k))
  {}

  lemma AddScaledEval(l: Lin, o: Lin, k: int, rho: Valuation)
    ensures Eval(AddScaled(l, o, k), rho) == Eval(l, rho) + Times(Eval(o, rho), k)
  {
    AddScaledCoef(l, o, k);
    var m, keys := AddScaled(l, o, k), l.terms.Keys + o.terms.Keys;
    assert m.c == l.c + Times(o.c, k);
    hide AddScaled, Coef, SumOver;
    SumLinear(keys, l, o, k, m, rho);
    SumWider(keys, l, rho);
    SumWider(keys, o, rho);
    SumWider(keys, m, rho);
    TimesSum(o.c, SumOver(o.terms.Keys, o, rho), k);
  }

  lemma TimesSum(x: int, y: int, k: int)
    ensures Times(x + y, k) == Times(x, k) + Times(y, k)
  {}

  /** The loop: one term of `o` at a time, in whatever order the map yields them. */
  method AddScaledInPlace(l: Lin, o: Lin, k: int) returns (r: Lin)
    ensures r == AddScaled(l, o, k)
  {
    var terms, left := l.terms, o.terms.Keys;
    while left != {}
      invariant left <= o.terms.Keys
      invariant forall a :: a in terms <==>
        if a in o.terms.Keys - left then Coef(l, a) + o.terms[a] * k != 0 else a in l.terms
      invariant forall a :: a in terms ==>
        terms[a] == if a in o.terms.Keys - left then Coef(l, a) + o.terms[a] * k else l.terms[a]
    {
      var a :| a in left;
      var e := (if a in terms then terms[a] else 0) + o.terms[a] * k;
      if e == 0 {
        terms := terms - {a};
      } else {
        terms := terms[a := e];
      }
      left := left - {a};
    }
    r := Lin(terms, l.c + o.c * k);
  }

  /** How the arithmetic of an expression is read. */
  datatype Form =
    | Number(n: int)
    | Single(atom: Atom)
    | Scaled(a: Expr, k: int)
    | Sum(a: Expr, b: Expr, k: int)

  function FormOf(e: Expr): (f: Form)
    ensures f.Scaled? ==> f.a < e
    ensures f.Sum? ==> f.a < e && f.b < e
  {
    match e
    case Int(n) => Number(n)
    case Var(n) => Single(Name(n))
    case Neg(a) => Scaled(a, -1)
    case Binop(op, a, b) =>
      if op == Add then Sum(a, b, 1)
      else if op == Sub then Sum(a, b, -1)
      else if op == Mul && a.Int? then Scaled(b, a.n)
      else if op == Mul && b.Int? then Scaled(a, b.n)
      else Single(Written(e))
    case _ => Single(Written(e))
  }

  function Linear(e: Expr): Lin
    decreases e
  {
    match FormOf(e)
    case Number(n) => Lin(map[], n)
    case Single(a) => LinVar(a)
    case Scaled(a, k) => AddScaled(Lin(map[], 0), Linear(a), k)
    case Sum(a, b, k) => AddScaled(AddScaled(Lin(map[], 0), Linear(a), 1), Linear(b), k)
  }

  /** What an expression is worth: arithmetic, over names and over whatever the
      remaining sub-expressions evaluate to. */
  ghost function Value(e: Expr, rho: Valuation): int {
    match e
    case Int(n) => n
    case Var(n) => rho(Name(n))
    case Neg(a) => -Value(a, rho)
    case Binop(Add, a, b) => Value(a, rho) + Value(b, rho)
    case Binop(Sub, a, b) => Value(a, rho) - Value(b, rho)
    case Binop(Mul, a, b) =>
      if a.Int? || b.Int? then Value(a, rho) * Value(b, rho) else rho(Written(e))
    case _ => rho(Written(e))
  }

  lemma VarEval(a: Atom, rho: Valuation)
    ensures Eval(LinVar(a), rho) == rho(a) && Reduced(LinVar(a))
  {
    SumPick({a}, LinVar(a), rho, a);
    assert LinVar(a).terms.Keys == {a} && {a} - {a} == {};
  }

  lemma {:induction false} LinearEval(e: Expr, rho: Valuation)
    ensures Eval(Linear(e), rho) == Value(e, rho)
    ensures Reduced(Linear(e))
    decreases e
  {
    hide AddScaled, LinVar, Reduced, Eval, Value;
    FormValue(e, rho);
    match FormOf(e)
    case Number(n) => ZeroEval(n, rho);
    case Single(a) => VarEval(a, rho);
    case Scaled(a, k) =>
      LinearEval(a, rho);
      ZeroEval(0, rho);
      AddScaledCoef(Lin(map[], 0), Linear(a), k);
      AddScaledEval(Lin(map[], 0), Linear(a), k, rho);
    case Sum(a, b, k) =>
      LinearEval(a, rho);
      LinearEval(b, rho);
      SumEval(Linear(a), Linear(b), k, rho);
  }

  lemma FormValue(e: Expr, rho: Valuation)
    ensures Value(e, rho) == match FormOf(e)
      case Number(n) => n
      case Single(a) => rho(a)
      case Scaled(a, k) => Value(a, rho) * k
      case Sum(a, b, k) => Value(a, rho) + Value(b, rho) * k
  {}

  lemma ZeroEval(n: int, rho: Valuation)
    ensures Eval(Lin(map[], n), rho) == n && Reduced(Lin(map[], n))
  {}

  lemma SumEval(l: Lin, o: Lin, k: int, rho: Valuation)
    ensures var m := AddScaled(AddScaled(Lin(map[], 0), l, 1), o, k);
            Eval(m, rho) == Eval(l, rho) + Eval(o, rho) * k && Reduced(m)
  {
    AddScaledCoef(Lin(map[], 0), l, 1);
    AddScaledCoef(AddScaled(Lin(map[], 0), l, 1), o, k);
    ZeroEval(0, rho);
    hide AddScaled, Eval, Reduced;
    AddScaledEval(Lin(map[], 0), l, 1, rho);
    AddScaledEval(AddScaled(Lin(map[], 0), l, 1), o, k, rho);
  }

  /** Arithmetic that is linear as it is written: names, numbers, sums, differences, signs, and
      products with a number. */
  predicate Affine(e: Expr) {
    match e
    case Int(_) => true
    case Var(_) => true
    case Neg(a) => Affine(a)
    case Binop(op, a, b) =>
      ((op == Add || op == Sub) && Affine(a) && Affine(b))
      || (op == Mul && ((a.Int? && Affine(b)) || (b.Int? && Affine(a))))
    case _ => false
  }

  /** What such arithmetic comes to. */
  function Worth(e: Expr, env: string -> int): int
    requires Affine(e)
  {
    match e
    case Int(n) => n
    case Var(n) => env(n)
    case Neg(a) => -Worth(a, env)
    case Binop(op, a, b) =>
      if op == Add then Worth(a, env) + Worth(b, env)
      else if op == Sub then Worth(a, env) - Worth(b, env)
      else if a.Int? then a.n * Worth(b, env)
      else Worth(a, env) * b.n
  }

  ghost predicate OnlyNames(l: Lin) { forall a :: a in l.terms ==> a.Name? }

  lemma AddScaledNames(l: Lin, o: Lin, k: int)
    requires OnlyNames(l) && OnlyNames(o)
    ensures OnlyNames(AddScaled(l, o, k))
  {}

  lemma {:induction false} AffineNames(e: Expr)
    requires Affine(e)
    ensures OnlyNames(Linear(e))
    decreases e
  {
    hide AddScaled, OnlyNames;
    var zero := Lin(map[], 0);
    NamesOnly(e);
    match FormOf(e)
    case Number(_) =>
    case Single(_) =>
    case Scaled(a, k) =>
      AffineNames(a);
      AddScaledNames(zero, Linear(a), k);
    case Sum(a, b, k) =>
      AffineNames(a);
      AffineNames(b);
      AddScaledNames(zero, Linear(a), 1);
      AddScaledNames(AddScaled(zero, Linear(a), 1), Linear(b), k);
  }

  lemma NamesOnly(e: Expr)
    requires Affine(e)
    ensures OnlyNames(Lin(map[], 0))
    ensures match FormOf(e)
            case Number(n) => OnlyNames(Lin(map[], n))
            case Single(a) => OnlyNames(LinVar(a))
            case Scaled(a, _) => Affine(a)
            case Sum(a, b, _) => Affine(a) && Affine(b)
  {}

  lemma {:induction false} AffineValue(e: Expr, env: string -> int, rho: Valuation)
    requires Affine(e) && forall n :: rho(Name(n)) == env(n)
    ensures Value(e, rho) == Worth(e, env)
    decreases e
  {
    match e
    case Neg(a) => AffineValue(a, env, rho);
    case Binop(op, a, b) =>
      if !a.Int? { AffineValue(a, env, rho); }
      if !b.Int? { AffineValue(b, env, rho); }
    case _ =>
  }

  /** The form of linear arithmetic is over its names alone, and worth what the arithmetic
      comes to. */
  lemma AffineForm(e: Expr, env: string -> int, rho: Valuation)
    requires Affine(e) && forall n :: rho(Name(n)) == env(n)
    ensures OnlyNames(Linear(e)) && Eval(Linear(e), rho) == Worth(e, env)
  {
    hide Linear, OnlyNames, Eval, Value, Worth, Affine;
    AffineNames(e);
    AffineValue(e, env, rho);
    LinearEval(e, rho);
  }

  // ------------------------------------------------------------ one call

  function Position(params: seq<string>, n: string): (i: nat)
    ensures i <= |params| && (i < |params| <==> n in params)
    ensures i < |params| ==> params[i] == n && n !in params[..i]
  {
    if params == [] then 0 else if params[0] == n then 0
    else var i := Position(params[1..], n);
         assert n in params <==> n in params[1..];
         1 + i
  }

  /** What the callee's atoms are worth once the arguments stand in for its
      parameters. */
  ghost function Passed(params: seq<string>, args: seq<Expr>, rho: Valuation): Valuation {
    (a: Atom) =>
      if a.Name? && a.name in params && Position(params, a.name) < |args|
      then Value(args[Position(params, a.name)], rho) else rho(a)
  }

  ghost function Gap(caller: Lin, callee: Lin, params: seq<string>, args: seq<Expr>, rho: Valuation): int {
    Eval(caller, rho) - Eval(callee, Passed(params, args, rho))
  }

  ghost predicate OverParams(l: Lin, params: seq<string>) {
    forall a :: a in l.terms ==> a.Name? && a.name in params
  }

  ghost predicate ConstantGap(caller: Lin, callee: Lin, params: seq<string>, args: seq<Expr>, d: int) {
    forall rho :: Gap(caller, callee, params, args, rho) == d
  }

  /** The one gap that holds for every valuation, where there is one. */
  ghost function DeltaOf(caller: Lin, callee: Lin, params: seq<string>, args: seq<Expr>): Option<int> {
    if |args| == |params| && OverParams(callee, params) && exists d :: ConstantGap(caller, callee, params, args, d)
    then var d :| ConstantGap(caller, callee, params, args, d); Some(d)
    else None
  }

  lemma GapUnique(caller: Lin, callee: Lin, params: seq<string>, args: seq<Expr>, d: int, e: int)
    requires ConstantGap(caller, callee, params, args, d) && ConstantGap(caller, callee, params, args, e)
    ensures d == e
  {
    var rho: Valuation := a => 0;
    assert d == Gap(caller, callee, params, args, rho) == e;
  }

  /** A linear form is worth the same everywhere only when it has no term. */
  lemma TermsVary(l: Lin, a: Atom)
    requires Reduced(l) && a in l.terms
    ensures var zero: Valuation := b => 0; var one: Valuation := b => if b == a then 1 else 0;
            Eval(l, zero) != Eval(l, one)
  {
    var zero: Valuation := b => 0;
    var one: Valuation := b => if b == a then 1 else 0;
    SumPick(l.terms.Keys, l, zero, a);
    SumPick(l.terms.Keys, l, one, a);
    SumAgree(l.terms.Keys - {a}, l, zero, one);
  }

  lemma {:induction false} SumAgree(keys: set<Atom>, l: Lin, rho: Valuation, sigma: Valuation)
    requires forall a :: a in keys ==> rho(a) == sigma(a)
    ensures SumOver(keys, l, rho) == SumOver(keys, l, sigma)
  {
    if keys != {} {
      var a :| a in keys;
      SumPick(keys, l, rho, a);
      SumPick(keys, l, sigma, a);
      SumAgree(keys - {a}, l, rho, sigma);
    }
  }

  /** The constant gap between a measure here and the callee's at these arguments. */
  method Delta(caller: Lin, callee: Lin, params: seq<string>, args: seq<Expr>) returns (r: Option<int>)
    requires Reduced(caller)
    ensures r == DeltaOf(caller, callee, params, args)
  {
    hide SoFar, Reduced, AddScaled, Linear, DeltaOf;
    if |args| != |params| {
      NoDelta(caller, callee, params, args);
      return None;
    }
    var d, left := caller, callee.terms.Keys;
    NoneSoFar(caller, callee, params, args);
    while left != {}
      invariant left <= callee.terms.Keys && Reduced(d)
      invariant forall a :: a in callee.terms && a !in left ==> a.Name? && a.name in params
      invariant SoFar(d, caller, callee, params, args, left)
    {
      var a :| a in left;
      if !a.Name? || Position(params, a.name) == |params| {
        NoDelta(caller, callee, params, args);
        return None;
      }
      var arg, k := Linear(args[Position(params, a.name)]), callee.terms[a];
      DeltaSteps(d, caller, callee, params, args, left, a);
      AddScaledCoef(d, arg, -k);
      d := AddScaledInPlace(d, arg, -k);
      left := left - {a};
    }
    DeltaDone(d, caller, callee, params, args);
    d := Lin(d.terms, d.c - callee.c);
    r := if d.terms == map[] then Some(d.c) else None;
  }

  lemma NoDelta(caller: Lin, callee: Lin, params: seq<string>, args: seq<Expr>)
    requires |args| != |params| || !OverParams(callee, params)
    ensures DeltaOf(caller, callee, params, args) == None
  {}

  /** `d` is the caller less the callee's terms that are not in `left`. */
  ghost predicate SoFar(d: Lin, caller: Lin, callee: Lin, params: seq<string>, args: seq<Expr>, left: set<Atom>) {
    forall rho ::
      Eval(d, rho) == Eval(caller, rho) - SumOver(callee.terms.Keys - left, callee, Passed(params, args, rho))
  }

  lemma NoneSoFar(caller: Lin, callee: Lin, params: seq<string>, args: seq<Expr>)
    ensures SoFar(caller, caller, callee, params, args, callee.terms.Keys)
  {
    assert callee.terms.Keys - callee.terms.Keys == {};
  }

  lemma DeltaSteps(d: Lin, caller: Lin, callee: Lin, params: seq<string>, args: seq<Expr>, left: set<Atom>, a: Atom)
    requires |args| == |params| && a in left && left <= callee.terms.Keys && a.Name? && a.name in params
    requires SoFar(d, caller, callee, params, args, left)
    ensures SoFar(AddScaled(d, Linear(args[Position(params, a.name)]), -callee.terms[a]),
                  caller, callee, params, args, left - {a})
  {
    hide AddScaled, Linear, Eval, Position;
    var e := AddScaled(d, Linear(args[Position(params, a.name)]), -callee.terms[a]);
    forall rho
      ensures Eval(e, rho) == Eval(caller, rho)
                - SumOver(callee.terms.Keys - (left - {a}), callee, Passed(params, args, rho))
    {
      DeltaStep(d, caller, callee, params, args, left, a, rho);
    }
  }

  lemma DeltaStep(d: Lin, caller: Lin, callee: Lin, params: seq<string>, args: seq<Expr>, left: set<Atom>, a: Atom,
                  rho: Valuation)
    requires |args| == |params| && a in left && left <= callee.terms.Keys && a.Name? && a.name in params
    requires Eval(d, rho) == Eval(caller, rho) - SumOver(callee.terms.Keys - left, callee, Passed(params, args, rho))
    ensures var arg, k := Linear(args[Position(params, a.name)]), callee.terms[a];
            Eval(AddScaled(d, arg, -k), rho) == Eval(caller, rho)
              - SumOver(callee.terms.Keys - (left - {a}), callee, Passed(params, args, rho))
  {
    hide AddScaled, Linear, Value, Eval, Times, Coef, SumOver;
    var e, k, sigma := args[Position(params, a.name)], callee.terms[a], Passed(params, args, rho);
    assert sigma(a) == Value(e, rho);
    hide Passed, Position;
    SumGrows(callee, left, a, sigma);
    LinearEval(e, rho);
    AddScaledEval(d, Linear(e), -k, rho);
    NegatedProduct(sigma(a), k);
  }

  lemma SumGrows(l: Lin, left: set<Atom>, a: Atom, rho: Valuation)
    requires a in left && left <= l.terms.Keys
    ensures SumOver(l.terms.Keys - (left - {a}), l, rho) ==
              Times(l.terms[a], rho(a)) + SumOver(l.terms.Keys - left, l, rho)
  {
    var done := l.terms.Keys - left;
    assert l.terms.Keys - (left - {a}) == done + {a} && done + {a} - {a} == done;
    SumPick(done + {a}, l, rho, a);
  }

  lemma NegatedProduct(x: int, k: int)
    ensures Times(x, -k) == -Times(k, x)
  {}

  lemma DeltaDone(d: Lin, caller: Lin, callee: Lin, params: seq<string>, args: seq<Expr>)
    requires |args| == |params| && Reduced(d) && SoFar(d, caller, callee, params, args, {})
    requires forall a :: a in callee.terms ==> a.Name? && a.name in params
    ensures DeltaOf(caller, callee, params, args) == if d.terms == map[] then Some(d.c - callee.c) else None
  {
    hide Reduced;
    var gap := Lin(d.terms, d.c - callee.c);
    assert callee.terms.Keys - {} == callee.terms.Keys;
    forall rho
      ensures Gap(caller, callee, params, args, rho) == Eval(gap, rho)
    {
      SumSame(d.terms.Keys, d, gap, rho);
    }
    hide SoFar;
    if d.terms == map[] {
      assert ConstantGap(caller, callee, params, args, gap.c);
      forall e | ConstantGap(caller, callee, params, args, e) ensures e == gap.c {
        GapUnique(caller, callee, params, args, gap.c, e);
      }
    } else {
      var a :| a in d.terms;
      ReducedSame(d, gap);
      TermsVary(gap, a);
      var zero: Valuation := b => 0;
      var one: Valuation := b => if b == a then 1 else 0;
      assert Gap(caller, callee, params, args, zero) != Gap(caller, callee, params, args, one);
    }
  }

  lemma ReducedSame(l: Lin, m: Lin)
    requires Reduced(l) && l.terms == m.terms
    ensures Reduced(m)
  {}

  lemma {:induction false} SumSame(keys: set<Atom>, l: Lin, m: Lin, rho: Valuation)
    requires l.terms == m.terms
    ensures SumOver(keys, l, rho) == SumOver(keys, m, rho)
  {
    if keys != {} {
      var a :| a in keys;
      SumPick(keys, l, rho, a);
      SumPick(keys, m, rho, a);
      SumSame(keys - {a}, l, m, rho);
    }
  }

  // --------------------------------------------------- lexicographic order

  /** Some position drops at this call, and those to its left stay the same. */
  ghost predicate LexDrops(caller: seq<Lin>, callee: seq<Lin>, params: seq<string>, args: seq<Expr>) {
    && |caller| == |callee|
    && exists k :: 0 <= k < |caller| && DropsAt(caller, callee, params, args, k)
  }

  ghost predicate DropsAt(caller: seq<Lin>, callee: seq<Lin>, params: seq<string>, args: seq<Expr>, k: nat)
    requires k < |caller| == |callee|
  {
    && (forall i :: 0 <= i < k ==> DeltaOf(caller[i], callee[i], params, args) == Some(0))
    && DeltaOf(caller[k], callee[k], params, args).Some?
    && DeltaOf(caller[k], callee[k], params, args).value > 0
  }

  method LexDecreases(caller: seq<Lin>, callee: seq<Lin>, params: seq<string>, args: seq<Expr>) returns (b: bool)
    requires forall i :: 0 <= i < |caller| ==> Reduced(caller[i])
    ensures b == LexDrops(caller, callee, params, args)
  {
    if |caller| != |callee| {
      return false;
    }
    for i := 0 to |caller|
      invariant forall j :: 0 <= j < i ==> DeltaOf(caller[j], callee[j], params, args) == Some(0)
    {
      var d := Delta(caller[i], callee[i], params, args);
      if d.Some? && d.value > 0 {
        assert DropsAt(caller, callee, params, args, i);
        return true;
      }
      if d != Some(0) {
        return false;
      }
    }
    return false;
  }

  /** `a` is above `b`: the first component they differ in is larger in `a`. */
  ghost predicate Above(a: seq<int>, b: seq<int>) {
    |a| == |b| && exists k :: 0 <= k < |a| && a[k] > b[k] && forall i :: 0 <= i < k ==> a[i] == b[i]
  }

  ghost function Measured(m: seq<Lin>, rho: Valuation): (r: seq<int>)
    ensures |r| == |m|
  {
    seq(|m|, i requires 0 <= i < |m| => Eval(m[i], rho))
  }

  /** A call that passes the test goes down, whatever its arguments evaluate to. */
  lemma LexSound(caller: seq<Lin>, callee: seq<Lin>, params: seq<string>, args: seq<Expr>, rho: Valuation)
    requires LexDrops(caller, callee, params, args)
    ensures Above(Measured(caller, rho), Measured(callee, Passed(params, args, rho)))
  {
    var k :| 0 <= k < |caller| && DropsAt(caller, callee, params, args, k);
    var a, b := Measured(caller, rho), Measured(callee, Passed(params, args, rho));
    forall i | 0 <= i <= k
      ensures a[i] - b[i] == DeltaOf(caller[i], callee[i], params, args).value
    {
      var d :| ConstantGap(caller[i], callee[i], params, args, d)
               && DeltaOf(caller[i], callee[i], params, args) == Some(d);
      assert Gap(caller[i], callee[i], params, args, rho) == d;
    }
  }

  // -------------------------------------------------------- well-foundedness

  type Chain = nat -> seq<int>

  ghost predicate Descends(chain: Chain, width: nat) {
    && (forall i: nat :: |chain(i)| == width && forall k :: 0 <= k < width ==> chain(i)[k] >= 0)
    && (forall i: nat :: Above(chain(i), chain(i + 1)))
  }

  /** A sequence of naturals that never grows settles. */
  lemma {:induction false} Settles(f: nat -> int, start: nat) returns (n: nat)
    requires forall i: nat :: f(i) >= 0 && f(i + 1) <= f(i)
    ensures n >= start && forall i: nat :: i >= n ==> f(i) == f(n)
    decreases f(start)
  {
    if i: nat :| i >= start && f(i) != f(start) {
      NeverGrows(f, start, i);
      n := Settles(f, i);
    } else {
      n := start;
    }
  }

  lemma {:induction false} NeverGrows(f: nat -> int, i: nat, j: nat)
    requires forall i: nat :: f(i) >= 0 && f(i + 1) <= f(i)
    requires i <= j
    ensures f(j) <= f(i)
    decreases j
  {
    if i < j {
      NeverGrows(f, i, j - 1);
      assert f(j - 1 + 1) <= f(j - 1);
    }
  }

  ghost function First(chain: Chain): nat -> int {
    (i: nat) => if |chain(i)| > 0 then chain(i)[0] else 0
  }

  ghost function Rest(chain: Chain, n: nat): Chain {
    (i: nat) => if |chain(n + i)| > 0 then chain(n + i)[1..] else []
  }

  lemma AboveRest(a: seq<int>, b: seq<int>)
    requires Above(a, b)
    ensures |a| == |b| > 0 && b[0] <= a[0]
    ensures a[0] == b[0] ==> Above(a[1..], b[1..])
  {
    var k :| 0 <= k < |a| && a[k] > b[k] && forall i :: 0 <= i < k ==> a[i] == b[i];
    if k > 0 {
      assert a[1..][k - 1] > b[1..][k - 1];
      assert forall j :: 0 <= j < k - 1 ==> a[1..][j] == a[j + 1] && b[1..][j] == b[j + 1];
    }
  }

  /** The lexicographic order on tuples of naturals of one width is well founded. */
  lemma {:induction false} NoDescent(chain: Chain, width: nat)
    requires Descends(chain, width)
    ensures false
    decreases width
  {
    hide Above;
    forall i: nat ensures |chain(i)| > 0 && First(chain)(i) >= 0 && First(chain)(i + 1) <= First(chain)(i) {
      AboveRest(chain(i), chain(i + 1));
    }
    var n := Settles(First(chain), 0);
    forall i: nat ensures Above(Rest(chain, n)(i), Rest(chain, n)(i + 1)) {
      AboveRest(chain(n + i), chain(n + i + 1));
      assert First(chain)(n + i) == First(chain)(n) == First(chain)(n + i + 1);
    }
    NoDescent(Rest(chain, n), width - 1);
  }
}
