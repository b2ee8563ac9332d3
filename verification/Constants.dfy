/** What data written out in a program stands for: literals, and constructors,
    tuples and lists of them (src/codegen.rs). */
module Constants {
  import opened Wrappers
  import opened Ast
  import opened Patterns
  import opened MatchCode
  import opened Emit
  import opened Compile
  import Ownership

  predicate Literal(e: Expr) { e.Int? || e.Float? || e.Str? || e.Char? || e.Bool? }

  /** Constant data of a type, no string in it holding a NUL. A whole number may be
      of a floating-point type, and the lexer keeps it below 2^64. */
  ghost predicate ConstTyped(data: Data, e: Expr, t: Ty)
    decreases e
  {
    match e
    case Int(n) => (KindOf(data, t) == Ints || KindOf(data, t) == Floats) && 0 <= n <= U64_MAX
    case Float(_) => KindOf(data, t) == Floats
    case Str(s) => KindOf(data, t) == Strs && '\0' !in s
    case Char(_) => KindOf(data, t) == Chars
    case Bool(_) => KindOf(data, t) == Bools
    case Unit => KindOf(data, t) == Opaque
    case Tuple(xs) =>
      KindOf(data, t).Tuples? && |xs| == |KindOf(data, t).parts|
      && forall i :: 0 <= i < |xs| ==> ConstTyped(data, xs[i], KindOf(data, t).parts[i])
    case List(xs) =>
      KindOf(data, t).Vecs? && forall i :: 0 <= i < |xs| ==> ConstTyped(data, xs[i], KindOf(data, t).el)
    case Ctor(c) => CtorOf(data, c, t) && data.ctors[c].args == []
    case App(h, xs) =>
      && h.Ctor? && CtorOf(data, h.name, t)
      && var ts := ArgTypes(data.ctors[h.name], KindOf(data, t).args);
         |xs| == |ts| && forall i :: 0 <= i < |xs| ==> ConstTyped(data, xs[i], ts[i])
    case _ => false
  }

  predicate CtorOf(data: Data, c: string, t: Ty) {
    KindOf(data, t).Variants? && c in data.ctors && data.ctors[c].owner == KindOf(data, t).owner
  }

  /** The value that is written. */
  ghost function ValueAt(data: Data, e: Expr, t: Ty): Value
    requires ConstTyped(data, e, t)
    decreases e
  {
    match e
    case Int(n) => if KindOf(data, t) == Floats then VFloat(n as real) else VInt(n)
    case Float(x) => VFloat(x)
    case Str(s) => VStr(s)
    case Char(c) => VChar(c)
    case Bool(b) => VBool(b)
    case Tuple(xs) =>
      VTuple(seq(|xs|, i requires 0 <= i < |xs| => ValueAt(data, xs[i], KindOf(data, t).parts[i])))
    case List(xs) => VList(seq(|xs|, i requires 0 <= i < |xs| => ValueAt(data, xs[i], KindOf(data, t).el)))
    case Ctor(c) => VCtor(c, [])
    case App(h, xs) =>
      var ts := ArgTypes(data.ctors[h.name], KindOf(data, t).args);
      VCtor(h.name, seq(|xs|, i requires 0 <= i < |xs| => ValueAt(data, xs[i], ts[i])))
    case _ => VOther
  }

  /** The value is of the type. */
  lemma {:induction false} ValueTyped(data: Data, e: Expr, t: Ty)
    requires ConstTyped(data, e, t)
    ensures HasType(data, ValueAt(data, e, t), t)
    decreases e
  {
    match e
    case Tuple(xs) =>
      var ts := KindOf(data, t).parts;
      forall i | 0 <= i < |xs| ensures HasType(data, ValueAt(data, xs[i], ts[i]), ts[i]) {
        ValueTyped(data, xs[i], ts[i]);
      }
    case List(xs) =>
      forall i | 0 <= i < |xs| ensures HasType(data, ValueAt(data, xs[i], KindOf(data, t).el), KindOf(data, t).el) {
        ValueTyped(data, xs[i], KindOf(data, t).el);
      }
    case App(h, xs) =>
      var ts := ArgTypes(data.ctors[h.name], KindOf(data, t).args);
      forall i | 0 <= i < |xs| ensures HasType(data, ValueAt(data, xs[i], ts[i]), ts[i]) {
        ValueTyped(data, xs[i], ts[i]);
      }
    case _ =>
  }

  // ------------------------------------------------------------------ literals

  /** What a literal is emitted as is what the runtime holds the literal's value as. */
  lemma LiteralHolds(data: Data, e: Expr, t: Ty)
    requires Literal(e) && ConstTyped(data, e, t)
    ensures EmittedLit(e).Some? && Holds(data, ValueAt(data, e, t), t, EmittedLit(e).value)
    ensures LitOf(e) == EmittedLit(e)
  {}

  /** A string's constant holds the string if and only if it has no NUL. */
  lemma StringHoldsIff(data: Data, s: string, t: Ty)
    ensures EmittedLit(Str(s)).Some?
    ensures Holds(data, VStr(s), t, EmittedLit(Str(s)).value) <==> '\0' !in s
  {}

  /** The pattern that is spelled like the literal. */
  function PatternOf(e: Expr): Pat
    requires Literal(e)
  {
    match e
    case Int(n) => PInt(n)
    case Float(x) => PFloat(x)
    case Str(s) => PStr(s)
    case Char(c) => PChar(c)
    case Bool(b) => PBool(b)
  }

  /** The condition of a literal pattern is true of a literal's constant exactly where
      the two are the same literal, or one number spelled whole and decimal. */
  lemma LiteralsTold(data: Data, a: Expr, b: Expr, t: Ty)
    requires WfData(data) && TagsOk(data) && Literal(a) && Literal(b)
    requires ConstTyped(data, a, t) && ConstTyped(data, b, t) && PatTyped(data, PatternOf(a), t)
    ensures EmittedLit(b).Some?
    ensures RunTests(PatCond(data, PatternOf(a), Root), EmittedLit(b).value)
         == Some(a == b || (b.Int? && a == Float(b.n as real)))
  {
    hide Holds, HasType, RunTests, PatCond, EmittedLit, WfData, TagsOk;
    LiteralHolds(data, b, t);
    ValueTyped(data, b, t);
    CondExact(data, PatternOf(a), Root, EmittedLit(b).value, ValueAt(data, b, t), t, EmittedLit(b).value);
  }

  // -------------------------------------------------------------- constant data

  /** The constructors of the runtime: an object with a constructor's tag, an object
      for a tuple, and a vector for a list. */
  ghost predicate Builds(m: Prims, data: Data) {
    && (forall vs :: m.make(ATuple, vs) == Some(BObj(0, vs)))
    && (forall vs :: m.make(AList, vs) == Some(BVec(vs)))
    && (forall c, vs :: c in data.ctors && |vs| == |data.ctors[c].args| ==>
          m.make(ACtor(c), vs) == Some(BObj(data.ctors[c].tag, vs)))
  }

  ghost predicate EachTyped(data: Data, es: seq<Expr>, ts: seq<Ty>) {
    |es| == |ts| && forall i :: 0 <= i < |es| ==> ConstTyped(data, es[i], ts[i])
  }

  ghost predicate EachHolds(data: Data, es: seq<Expr>, ts: seq<Ty>, rs: seq<Boxed>)
    requires EachTyped(data, es, ts)
  {
    |rs| == |es| && forall i :: 0 <= i < |es| ==> Holds(data, ValueAt(data, es[i], ts[i]), ts[i], rs[i])
  }

  lemma {:induction false} EvalEach(m: Prims, data: Data, arity: map<string, nat>, parent: Expr, es: seq<Expr>,
                                    ts: seq<Ty>, env: Env, calls: Calls) returns (rs: seq<Boxed>)
    requires Builds(m, data) && EachTyped(data, es, ts) && forall i :: 0 <= i < |es| ==> es[i] < parent
    ensures EvalAll(m, data, arity, parent, es, env, calls) == Some(rs) && EachHolds(data, es, ts, rs)
    decreases parent, |es|
  {
    hide Eval, ConstTyped, ValueAt, Holds, Builds;
    if es == [] {
      rs := [];
    } else {
      var r := ConstantHolds(m, data, arity, es[0], ts[0], env, calls);
      var more := EvalEach(m, data, arity, parent, es[1..], ts[1..], env, calls);
      rs := [r] + more;
      forall i | 0 <= i < |es| ensures Holds(data, ValueAt(data, es[i], ts[i]), ts[i], rs[i]) {
        if i > 0 { assert es[1..][i - 1] == es[i] && ts[1..][i - 1] == ts[i] && rs[i] == more[i - 1]; }
      }
    }
  }

  /** Constant data evaluates, whatever the program around it, to what the runtime
      holds its value as. */
  lemma {:induction false} ConstantHolds(m: Prims, data: Data, arity: map<string, nat>, e: Expr, t: Ty, env: Env,
                                         calls: Calls) returns (r: Boxed)
    requires Builds(m, data) && ConstTyped(data, e, t)
    ensures Eval(m, data, arity, e, env, calls) == Some(r) && Holds(data, ValueAt(data, e, t), t, r)
    decreases e
  {
    hide EvalAll, Holds, LitOf, EmittedLit;
    if Literal(e) {
      LiteralHolds(data, e, t);
      LiteralEval(m, data, arity, e, env, calls);
      return EmittedLit(e).value;
    }
    match e
    case Unit => r := UNIT; UnitHolds(m, data, arity, t, env, calls);
    case Tuple(xs) =>
      var rs := EvalEach(m, data, arity, e, xs, KindOf(data, t).parts, env, calls);
      r := BObj(0, rs);
      TupleHolds(data, e, t, rs);
    case List(xs) =>
      var rs := EvalEach(m, data, arity, e, xs, Repeated(KindOf(data, t).el, |xs|), env, calls);
      r := BVec(rs);
      ListHolds(data, e, t, rs);
    case Ctor(c) =>
      r := BObj(data.ctors[c].tag, []);
      CtorHolds(data, c, t);
    case App(h, xs) =>
      var rs := EvalEach(m, data, arity, e, xs, ArgTypes(data.ctors[h.name], KindOf(data, t).args), env, calls);
      r := BObj(data.ctors[h.name].tag, rs);
      AppHolds(data, e, t, rs);
  }

  function Repeated(t: Ty, n: nat): (ts: seq<Ty>)
    ensures |ts| == n && forall i :: 0 <= i < n ==> ts[i] == t
  {
    seq(n, _ => t)
  }

  lemma LiteralEval(m: Prims, data: Data, arity: map<string, nat>, e: Expr, env: Env, calls: Calls)
    requires Literal(e)
    ensures Eval(m, data, arity, e, env, calls) == LitOf(e)
  {}

  lemma UnitHolds(m: Prims, data: Data, arity: map<string, nat>, t: Ty, env: Env, calls: Calls)
    requires ConstTyped(data, Unit, t)
    ensures Eval(m, data, arity, Unit, env, calls) == Some(UNIT) && Holds(data, ValueAt(data, Unit, t), t, UNIT)
  {}

  lemma TupleHolds(data: Data, e: Expr, t: Ty, rs: seq<Boxed>)
    requires e.Tuple? && ConstTyped(data, e, t) && EachHolds(data, e.items, KindOf(data, t).parts, rs)
    ensures Holds(data, ValueAt(data, e, t), t, BObj(0, rs))
  {}

  lemma ListHolds(data: Data, e: Expr, t: Ty, rs: seq<Boxed>)
    requires e.List? && ConstTyped(data, e, t) && EachHolds(data, e.items, Repeated(KindOf(data, t).el, |e.items|), rs)
    ensures Holds(data, ValueAt(data, e, t), t, BVec(rs))
  {}

  lemma CtorHolds(data: Data, c: string, t: Ty)
    requires ConstTyped(data, Ctor(c), t)
    ensures Holds(data, ValueAt(data, Ctor(c), t), t, BObj(data.ctors[c].tag, []))
  {}

  lemma AppHolds(data: Data, e: Expr, t: Ty, rs: seq<Boxed>)
    requires e.App? && ConstTyped(data, e, t)
    requires EachHolds(data, e.args, ArgTypes(data.ctors[e.head.name], KindOf(data, t).args), rs)
    ensures Holds(data, ValueAt(data, e, t), t, BObj(data.ctors[e.head.name].tag, rs))
  {}

  /** A match on constant data is the body of the first arm that matches the value written. */
  lemma ConstantMatch(m: Prims, data: Data, arity: map<string, nat>, e: Expr, i: nat, t: Ty, env: Env, calls: Calls)
    returns (boxes: seq<Boxed>)
    requires WfData(data) && TagsOk(data) && Builds(m, data)
    requires e.Match? && ConstTyped(data, e.scrut, t) && i < |e.arms|
    requires forall j :: 0 <= j < |e.arms| ==> PatTyped(data, e.arms[j].pat, t)
    requires Matches(e.arms[i].pat, ValueAt(data, e.scrut, t))
    requires forall j :: 0 <= j < i ==> !Matches(e.arms[j].pat, ValueAt(data, e.scrut, t))
    ensures var p, v := e.arms[i].pat, ValueAt(data, e.scrut, t);
            && HoldsEach(data, BoundValues(p, v), BoundTypes(data, p, t), boxes) && |boxes| == |Names(p)|
            && Eval(m, data, arity, e, env, calls)
               == Eval(m, data, arity, e.arms[i].body, Extended(env, Names(p), boxes), calls)
  {
    hide WfData, TagsOk, Builds, ConstTyped, PatTyped, Matches, ValueAt, Holds, HoldsEach, HasType, BoundValues,
         BoundTypes, Eval, EvalArms, Extended;
    var r := ConstantHolds(m, data, arity, e.scrut, t, env, calls);
    ValueTyped(data, e.scrut, t);
    boxes := MatchMeans(m, data, arity, e, e.arms, i, t, ValueAt(data, e.scrut, t), r, env, calls);
    MatchEval(m, data, arity, e, env, calls, r);
  }

  lemma MatchEval(m: Prims, data: Data, arity: map<string, nat>, e: Expr, env: Env, calls: Calls, r: Boxed)
    requires e.Match? && Eval(m, data, arity, e.scrut, env, calls) == Some(r)
    ensures Eval(m, data, arity, e, env, calls) == EvalArms(m, data, arity, e, e.arms, r, env, calls)
  {
    hide EvalArms;
  }

  /** A compiled function whose body is constant data returns what the runtime holds the
      value written as. */
  lemma ConstantFunction(m: Prims, data: Data, p: Program, fuel: nat, f: string, args: seq<Boxed>, t: Ty)
    returns (r: Boxed)
    requires Builds(m, data) && Compilable(data, p) && fuel > 0
    requires f in p && |args| == |p[f].params| && ConstTyped(data, p[f].body, t)
    ensures Execution(m, data, p, fuel, f, args) == Some(r) && Holds(data, ValueAt(data, p[f].body, t), t, r)
  {
    hide Builds, Compilable, ConstTyped, ValueAt, Holds, Execution, Eval, BindParams;
    CompiledMeans(m, data, p, fuel, f, args);
    var calls: Calls := (g: string, vs: seq<Boxed>) => Meaning(m, data, p, fuel - 1, g, vs);
    r := ConstantHolds(m, data, ArityOf(p), p[f].body, t, BindParams(p[f].params, args), calls);
  }

  // ------------------------------------------------------------------ operators

  /** `||` and `&&` run the right operand only where the left does not decide; every other
      operator runs both. */
  lemma RightOperandRuns(m: Prims, data: Data, arity: map<string, nat>, op: BinOp, a: Expr, b: Expr, env: Env,
                         calls: Calls, l: Boxed)
    requires Eval(m, data, arity, a, env, calls) == Some(l)
    ensures var r := Eval(m, data, arity, b, env, calls);
            Eval(m, data, arity, Binop(op, a, b), env, calls)
            == match op
               case Or => if l == BBool(true) then Some(l) else if l == BBool(false) then r else None
               case And => if l == BBool(false) then Some(l) else if l == BBool(true) then r else None
               case _ => if r.Some? then m.bin(op, l, r.value) else None
  {}

  /** An application of a name is a call exactly where the module has a function of that
      name and that many parameters; otherwise the runtime's own function is applied. */
  lemma NameApplied(m: Prims, data: Data, arity: map<string, nat>, f: string, args: seq<Expr>, env: Env, calls: Calls,
                    vs: seq<Boxed>)
    requires EvalAll(m, data, arity, App(Var(f), args), args, env, calls) == Some(vs)
    ensures Eval(m, data, arity, App(Var(f), args), env, calls)
         == if f in arity && arity[f] == |args| then calls(f, vs) else m.make(ABuiltin(f), vs)
  {}

  /** A call in tail position goes round the loop exactly where it calls the function itself with
      all its arguments and no binder has taken the name; there it needs no frame. It is the same
      calls that drop placement takes for back edges. */
  lemma SelfCallsLoop(data: Data, arity: map<string, nat>, params: seq<nat>, fx: Ownership.Facts, f: string,
                      args: seq<Expr>, scope: Scope, owned: seq<string>, k: nat)
    requires fx.fun in arity && arity[fx.fun] == fx.arity && (fx.fun in owned ==> fx.fun in scope)
    ensures var c := TailOf(data, arity, fx.fun, params, App(Var(f), args), scope, k).0;
            && c.Do? && (c.next.Again? || c.next.Return?)
            && (c.next.Again? <==> f == fx.fun && |args| == fx.arity && f !in scope)
            && (c.next.Again? ==> c.next.params == params && |c.next.temps| == |args|)
            && (c.next.Again? ==> Ownership.SelfCall(fx, App(Var(f), args), owned))
    ensures Ownership.SelfCall(fx, App(Var(f), args), owned) <==> f == fx.fun && |args| == fx.arity && f !in owned
  {
    hide Ex, ExAll;
  }
}
