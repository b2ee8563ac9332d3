/** Compiling a body keeps its meaning (src/codegen.rs). */
module Compile {
  import opened Wrappers
  import opened Ast
  import opened MatchCode
  import opened Patterns
  import opened Emit

  function PatNames(p: Pat): set<string> { set b | b in PatBind(p, Root) :: b.name }

  /** Pure bodies: literals and patterns without NULs, names in scope, operators,
      tuples, lists, lets, matches, constructors given all their arguments, and
      calls of module functions and of names the runtime defines. */
  predicate Fragment(data: Data, arity: map<string, nat>, e: Expr, names: set<string>)
    decreases e
  {
    match e
    case Var(n) => n in names
    case Str(t) => '\0' !in t
    case Ctor(n) => n in data.ctors && data.ctors[n].args == []
    case Borrow(x) => Fragment(data, arity, x, names)
    case Arena(_, x) => Fragment(data, arity, x, names)
    case Neg(x) => Fragment(data, arity, x, names)
    case Not(x) => Fragment(data, arity, x, names)
    case Binop(_, a, b) => Fragment(data, arity, a, names) && Fragment(data, arity, b, names)
    case Tuple(xs) => forall i :: 0 <= i < |xs| ==> Fragment(data, arity, xs[i], names)
    case List(xs) => forall i :: 0 <= i < |xs| ==> Fragment(data, arity, xs[i], names)
    case App(h, args) =>
      && (if h.Ctor? then h.name in data.ctors && |data.ctors[h.name].args| == |args|
          else h.Var? && h.name !in names && (h.name in arity ==> arity[h.name] == |args|))
      && forall i :: 0 <= i < |args| ==> Fragment(data, arity, args[i], names)
    case Let(n, v, b) => Fragment(data, arity, v, names) && Fragment(data, arity, b, names + {n})
    case Bind(n, v, b) => Fragment(data, arity, v, names) && Fragment(data, arity, b, names + {n})
    case Match(s, arms) =>
      && Fragment(data, arity, s, names)
      && forall i :: 0 <= i < |arms| ==>
           NulFree(arms[i].pat) && Fragment(data, arity, arms[i].body, names + PatNames(arms[i].pat))
    case Lambda(_, _) => false
    case Record(_, _) => false
    case Proj(_, _) => false
    case _ => true
  }

  ghost predicate SameCalls(calls: Calls, ccalls: Calls) {
    forall f, vs :: calls(f, vs) == ccalls(f, vs)
  }

  /** Each name's C variable, numbered at most `k`, holds its value. */
  ghost predicate Agree(scope: Scope, env: Env, s: Store, k: nat) {
    && scope.Keys == env.Keys
    && forall n :: n in scope ==> scope[n] <= k && scope[n] in s && s[scope[n]] == env[n]
  }

  /** Variables up to `k` are as they were. */
  ghost predicate Ext(s: Store, t: Store, k: nat) {
    forall x :: x in s && x <= k ==> x in t && t[x] == s[x]
  }

  /** The statements run, or stop the program as the source does; afterwards the
      expression reads as the result, however long it is put off. */
  ghost predicate Right(m: Prims, r: Option<Boxed>, em: Emitted, s: Store, k: nat, calls: Calls) {
    match Run(m, em.out, s, calls)
    case None => r == None
    case Some(t) => Ext(s, t, k) && Reads(m, em.e, t, em.k, r)
  }

  ghost predicate Reads(m: Prims, e: CExpr, t: Store, k: nat, r: Option<Boxed>) {
    forall u :: Ext(t, u, k) ==> CEval(m, e, u) == r
  }

  /** All the results, or none if one is missing. */
  function Joint(rs: seq<Option<Boxed>>): Option<seq<Boxed>> {
    if rs == [] then Some([])
    else match rs[0]
      case None => None
      case Some(v) => match Joint(rs[1..]) case None => None case Some(vs) => Some([v] + vs)
  }

  /** What each of `es` evaluates to. */
  function Each(m: Prims, data: Data, arity: map<string, nat>, es: seq<Expr>, env: Env,
                calls: Calls): (rs: seq<Option<Boxed>>)
    ensures |rs| == |es| && forall i :: 0 <= i < |es| ==> rs[i] == Eval(m, data, arity, es[i], env, calls)
  {
    if es == [] then [] else [Eval(m, data, arity, es[0], env, calls)] + Each(m, data, arity, es[1..], env, calls)
  }

  lemma {:induction false} EachIs(m: Prims, data: Data, arity: map<string, nat>, parent: Expr, es: seq<Expr>, env: Env,
                                  calls: Calls)
    requires forall i :: 0 <= i < |es| ==> es[i] < parent
    ensures EvalAll(m, data, arity, parent, es, env, calls) == Joint(Each(m, data, arity, es, env, calls))
    decreases |es|
  {
    hide Eval;
    if es != [] { EachIs(m, data, arity, parent, es[1..], env, calls); }
  }

  ghost predicate RightAll(m: Prims, rs: seq<Option<Boxed>>, em: EmittedAll, s: Store, k: nat, calls: Calls) {
    match Run(m, em.out, s, calls)
    case None => Joint(rs) == None
    case Some(t) => Ext(s, t, k) && ReadsEach(m, em.es, t, em.k, rs)
  }

  ghost predicate ReadsEach(m: Prims, es: seq<CExpr>, t: Store, k: nat, rs: seq<Option<Boxed>>) {
    |es| == |rs| && forall i :: 0 <= i < |es| ==> Reads(m, es[i], t, k, rs[i])
  }

  // ------------------------------------------------------------- small lemmas

  lemma {:induction false} RunAppend(m: Prims, a: seq<Stmt>, b: seq<Stmt>, s: Store, calls: Calls)
    ensures Run(m, a + b, s, calls) == match Run(m, a, s, calls) case None => None case Some(t) => Run(m, b, t, calls)
    decreases |a|
  {
    hide Step;
    if a == [] {
      assert a + b == b;
    } else {
      assert (a + b)[1..] == a[1..] + b;
      match Step(m, a[0], s, calls)
      case None =>
      case Some(t) => RunAppend(m, a[1..], b, t, calls);
    }
  }

  lemma RunOne(m: Prims, st: Stmt, s: Store, calls: Calls)
    ensures Run(m, [st], s, calls) == Step(m, st, s, calls)
  {
    hide Step;
    assert [st][1..] == [];
  }

  lemma RunNothing(m: Prims, s: Store, calls: Calls)
    ensures Run(m, [], s, calls) == Some(s)
  {}

  lemma ExtSelf(s: Store, k: nat)
    ensures Ext(s, s, k)
  {}

  lemma ExtChain(s: Store, t: Store, u: Store, k: nat, k': nat)
    requires Ext(s, t, k) && Ext(t, u, k') && k <= k'
    ensures Ext(s, u, k)
  {}

  lemma ExtLess(s: Store, t: Store, k: nat, k': nat)
    requires Ext(s, t, k') && k <= k'
    ensures Ext(s, t, k)
  {}

  lemma ExtNew(s: Store, x: nat, v: Boxed, k: nat)
    requires k < x
    ensures Ext(s, s[x := v], k)
  {}

  lemma AgreeLater(scope: Scope, env: Env, s: Store, t: Store, k: nat, k': nat)
    requires Agree(scope, env, s, k) && Ext(s, t, k) && k <= k'
    ensures Agree(scope, env, t, k')
  {}

  lemma AgreeBind(scope: Scope, env: Env, s: Store, k: nat, n: string, c: nat, v: Boxed)
    requires Agree(scope, env, s, k) && k < c
    ensures Agree(scope[n := c], env[n := v], s[c := v], c)
  {}

  lemma ReadsAt(m: Prims, e: CExpr, t: Store, k: nat, r: Option<Boxed>, u: Store)
    requires Reads(m, e, t, k, r) && Ext(t, u, k)
    ensures CEval(m, e, u) == r
  {}

  lemma ReadsNow(m: Prims, e: CExpr, t: Store, k: nat, r: Option<Boxed>)
    requires Reads(m, e, t, k, r)
    ensures CEval(m, e, t) == r
  {
    ExtSelf(t, k);
  }

  lemma ReadsLater(m: Prims, e: CExpr, t: Store, k: nat, r: Option<Boxed>, t': Store, k': nat)
    requires Reads(m, e, t, k, r) && Ext(t, t', k) && k <= k'
    ensures Reads(m, e, t', k', r)
  {
    hide CEval;
    forall u | Ext(t', u, k') ensures CEval(m, e, u) == r { ExtChain(t, t', u, k, k'); }
  }

  lemma ReadsVar(m: Prims, x: nat, t: Store, k: nat)
    requires x in t && x <= k
    ensures Reads(m, CVar(x), t, k, Some(t[x]))
  {}

  lemma {:induction false} AllReads(m: Prims, p: CExpr, es: seq<CExpr>, t: Store, k: nat, rs: seq<Option<Boxed>>,
                                    u: Store)
    requires ReadsEach(m, es, t, k, rs) && Ext(t, u, k) && forall i :: 0 <= i < |es| ==> es[i] < p
    ensures CEvalAll(m, p, es, u) == Joint(rs)
    decreases |es|
  {
    hide CEval, Ext, Reads;
    if es != [] {
      ReadsAt(m, es[0], t, k, rs[0], u);
      AllReads(m, p, es[1..], t, k, rs[1..], u);
    }
  }

  lemma MakeReads(m: Prims, how: Maker, es: seq<CExpr>, t: Store, k: nat, rs: seq<Option<Boxed>>)
    requires ReadsEach(m, es, t, k, rs)
    ensures Reads(m, CMake(how, es), t, k, match Joint(rs) case None => None case Some(vs) => m.make(how, vs))
  {
    hide CEvalAll, Ext, Joint, ReadsEach;
    forall u | Ext(t, u, k)
      ensures CEval(m, CMake(how, es), u) == match Joint(rs) case None => None case Some(vs) => m.make(how, vs)
    {
      AllReads(m, CMake(how, es), es, t, k, rs, u);
    }
  }

  lemma ConsReads(m: Prims, e: CExpr, es: seq<CExpr>, t: Store, k: nat, r: Option<Boxed>, rs: seq<Option<Boxed>>)
    requires Reads(m, e, t, k, r) && ReadsEach(m, es, t, k, rs)
    ensures ReadsEach(m, [e] + es, t, k, [r] + rs)
  {
    hide Reads;
  }

  // ------------------------------------------------------------------- binders

  lemma {:induction false} BindAgree(scope: Scope, env: Env, s: Store, k: nat, bs: seq<Binding>, root: Boxed)
    requires Agree(scope, env, s, k)
    ensures match BindEnv(env, bs, root)
            case None => BindStore(s, Numbered(bs, k), root) == None
            case Some(env') =>
              var t := BindStore(s, Numbered(bs, k), root);
              t.Some? && Agree(ScopeWith(scope, bs, k), env', t.value, k + |bs|) && Ext(s, t.value, k)
              && env'.Keys == env.Keys + set b | b in bs :: b.name
    decreases |bs|
  {
    hide Read, Agree, Ext;
    if bs == [] { ExtSelf(s, k); }
    if bs != [] {
      match Read(bs[0].at, root)
      case None =>
      case Some(v) =>
        var rest := bs[1..];
        AgreeBind(scope, env, s, k, bs[0].name, k + 1, v);
        ExtNew(s, k + 1, v, k);
        BindAgree(scope[bs[0].name := k + 1], env[bs[0].name := v], s[k + 1 := v], k + 1, rest, root);
        assert bs == [bs[0]] + rest;
        assert (set b | b in bs :: b.name) == {bs[0].name} + (set b | b in rest :: b.name);
        if BindEnv(env, bs, root).Some? {
          var t := BindStore(s, Numbered(bs, k), root).value;
          ExtChain(s, s[k + 1 := v], t, k, k + 1);
        }
    }
  }

  // -------------------------------------------------------------- expressions

  ghost predicate Correct(m: Prims, data: Data, arity: map<string, nat>, e: Expr, scope: Scope, k: nat, env: Env,
                          s: Store, calls: Calls, ccalls: Calls) {
    Right(m, Eval(m, data, arity, e, env, calls), Ex(data, arity, e, scope, k), s, k, ccalls)
  }

  lemma {:induction false} ExCorrect(m: Prims, data: Data, arity: map<string, nat>, e: Expr, scope: Scope, k: nat,
                                     env: Env, s: Store, calls: Calls, ccalls: Calls)
    requires Fragment(data, arity, e, env.Keys) && Agree(scope, env, s, k) && SameCalls(calls, ccalls)
    ensures Correct(m, data, arity, e, scope, k, env, s, calls, ccalls)
    decreases e, 2, 0
  {
    hide Agree, SameCalls, Right, Correct, Eval, Ex;
    match e
    case Var(n) => VarCorrect(m, data, arity, e, scope, k, env, s, calls, ccalls);
    case Ctor(n) => CtorCorrect(m, data, arity, e, scope, k, env, s, calls, ccalls);
    case Borrow(x) =>
      ExCorrect(m, data, arity, x, scope, k, env, s, calls, ccalls);
      SameAsInner(m, data, arity, e, x, scope, k, env, s, calls, ccalls);
    case Arena(_, x) =>
      ExCorrect(m, data, arity, x, scope, k, env, s, calls, ccalls);
      SameAsInner(m, data, arity, e, x, scope, k, env, s, calls, ccalls);
    case Neg(x) =>
      ExCorrect(m, data, arity, x, scope, k, env, s, calls, ccalls);
      UnaryCorrect(m, data, arity, e, scope, k, env, s, calls, ccalls);
    case Not(x) =>
      ExCorrect(m, data, arity, x, scope, k, env, s, calls, ccalls);
      UnaryCorrect(m, data, arity, e, scope, k, env, s, calls, ccalls);
    case Binop(op, _, _) =>
      if ShortCircuit(op) { ShortCorrect(m, data, arity, e, scope, k, env, s, calls, ccalls); }
      else { BinCorrect(m, data, arity, e, scope, k, env, s, calls, ccalls); }
    case Tuple(xs) => MakeCorrect(m, data, arity, e, xs, scope, k, env, s, calls, ccalls);
    case List(xs) => MakeCorrect(m, data, arity, e, xs, scope, k, env, s, calls, ccalls);
    case App(_, args) => MakeCorrect(m, data, arity, e, args, scope, k, env, s, calls, ccalls);
    case Let(_, _, _) => LetCorrect(m, data, arity, e, scope, k, env, s, calls, ccalls);
    case Bind(_, _, _) => LetCorrect(m, data, arity, e, scope, k, env, s, calls, ccalls);
    case Match(_, _) => MatchCorrect(m, data, arity, e, scope, k, env, s, calls, ccalls);
    case _ => LitCorrect(m, data, arity, e, scope, k, env, s, calls, ccalls);
  }

  lemma VarCorrect(m: Prims, data: Data, arity: map<string, nat>, e: Expr, scope: Scope, k: nat, env: Env, s: Store,
                   calls: Calls, ccalls: Calls)
    requires e.Var? && e.name in env && Agree(scope, env, s, k)
    ensures Correct(m, data, arity, e, scope, k, env, s, calls, ccalls)
  {
    RunNothing(m, s, ccalls);
    ExtSelf(s, k);
    assert e.name in scope;
    ReadsVar(m, scope[e.name], s, k);
  }

  lemma CtorCorrect(m: Prims, data: Data, arity: map<string, nat>, e: Expr, scope: Scope, k: nat, env: Env, s: Store,
                    calls: Calls, ccalls: Calls)
    requires e.Ctor?
    ensures Correct(m, data, arity, e, scope, k, env, s, calls, ccalls)
  {
    hide CEvalAll;
    RunNothing(m, s, ccalls);
    ExtSelf(s, k);
    MakeReads(m, ACtor(e.name), [], s, k, []);
  }

  lemma LitIs(m: Prims, data: Data, arity: map<string, nat>, e: Expr, scope: Scope, k: nat, env: Env, calls: Calls)
    requires LitOf(e).Some? && (e.Str? ==> '\0' !in e.s)
    ensures Eval(m, data, arity, e, env, calls) == LitOf(e)
    ensures Ex(data, arity, e, scope, k) == Emitted([], CConst(LitOf(e).value), k)
  {}

  /** What a string literal compiles to reads as the string if and only if the
      literal holds no NUL. */
  lemma StrCompiledIffNulFree(m: Prims, data: Data, arity: map<string, nat>, t: string, scope: Scope, k: nat, env: Env,
                              s: Store, calls: Calls)
    ensures CEval(m, Ex(data, arity, Str(t), scope, k).e, s) == Eval(m, data, arity, Str(t), env, calls) <==> '\0' !in t
  {}

  lemma ConstReads(m: Prims, v: Boxed, t: Store, k: nat)
    ensures Reads(m, CConst(v), t, k, Some(v))
  {}

  lemma LitCorrect(m: Prims, data: Data, arity: map<string, nat>, e: Expr, scope: Scope, k: nat, env: Env, s: Store,
                   calls: Calls, ccalls: Calls)
    requires LitOf(e).Some? && (e.Str? ==> '\0' !in e.s)
    ensures Correct(m, data, arity, e, scope, k, env, s, calls, ccalls)
  {
    hide Ex, Eval, LitOf, Run, Reads;
    RunNothing(m, s, ccalls);
    ExtSelf(s, k);
    LitIs(m, data, arity, e, scope, k, env, calls);
    ConstReads(m, LitOf(e).value, s, k);
  }

  lemma SameAsInner(m: Prims, data: Data, arity: map<string, nat>, e: Expr, x: Expr, scope: Scope, k: nat, env: Env,
                    s: Store, calls: Calls, ccalls: Calls)
    requires (e.Borrow? && e.operand == x) || (e.Arena? && e.body == x)
    requires Correct(m, data, arity, x, scope, k, env, s, calls, ccalls)
    ensures Correct(m, data, arity, e, scope, k, env, s, calls, ccalls)
  {
    hide Right;
  }

  lemma UnaryReads(m: Prims, e: CExpr, t: Store, k: nat, r: Option<Boxed>)
    requires Reads(m, e, t, k, r)
    ensures Reads(m, CNeg(e), t, k, match r case None => None case Some(v) => m.neg(v))
    ensures Reads(m, CNot(e), t, k,
                  match r case None => None
                          case Some(v) => match Truth(v) case None => None case Some(b) => Some(BBool(!b)))
  {
    hide Ext;
  }

  lemma UnaryCorrect(m: Prims, data: Data, arity: map<string, nat>, e: Expr, scope: Scope, k: nat, env: Env, s: Store,
                     calls: Calls, ccalls: Calls)
    requires e.Neg? || e.Not?
    requires Correct(m, data, arity, e.operand, scope, k, env, s, calls, ccalls)
    ensures Correct(m, data, arity, e, scope, k, env, s, calls, ccalls)
  {
    hide Run, Reads, Ext;
    var r, em := Eval(m, data, arity, e.operand, env, calls), Ex(data, arity, e.operand, scope, k);
    match Run(m, em.out, s, ccalls)
    case None =>
    case Some(t) => UnaryReads(m, em.e, t, em.k, r);
  }

  lemma BinReads(m: Prims, op: BinOp, l: CExpr, r: CExpr, t: Store, k: nat, a: Option<Boxed>, b: Option<Boxed>)
    requires Reads(m, l, t, k, a) && Reads(m, r, t, k, b)
    ensures Reads(m, CBin(op, l, r), t, k,
                  match a case None => None case Some(x) => match b case None => None case Some(y) => m.bin(op, x, y))
  {
    hide Ext;
    forall u | Ext(t, u, k)
      ensures CEval(m, CBin(op, l, r), u)
           == match a case None => None case Some(x) => match b case None => None case Some(y) => m.bin(op, x, y)
    {
      assert CEval(m, l, u) == a && CEval(m, r, u) == b;
    }
  }

  lemma {:induction false} BinCorrect(m: Prims, data: Data, arity: map<string, nat>, e: Expr, scope: Scope, k: nat,
                                      env: Env, s: Store, calls: Calls, ccalls: Calls)
    requires e.Binop? && !ShortCircuit(e.op) && Fragment(data, arity, e, env.Keys) && Agree(scope, env, s, k)
    requires SameCalls(calls, ccalls)
    ensures Correct(m, data, arity, e, scope, k, env, s, calls, ccalls)
    decreases e, 1, 0
  {
    hide Agree, SameCalls, Run, Reads, Ext;
    var l := Ex(data, arity, e.left, scope, k);
    var r := Ex(data, arity, e.right, scope, l.k);
    var a, b := Eval(m, data, arity, e.left, env, calls), Eval(m, data, arity, e.right, env, calls);
    ExCorrect(m, data, arity, e.left, scope, k, env, s, calls, ccalls);
    RunAppend(m, l.out, r.out, s, ccalls);
    match Run(m, l.out, s, ccalls)
    case None =>
    case Some(t) =>
      AgreeLater(scope, env, s, t, k, l.k);
      ExCorrect(m, data, arity, e.right, scope, l.k, env, t, calls, ccalls);
      match Run(m, r.out, t, ccalls)
      case None =>
      case Some(u) =>
        ExtChain(s, t, u, k, l.k);
        ReadsLater(m, l.e, t, l.k, a, u, r.k);
        BinReads(m, e.op, l.e, r.e, u, r.k, a, b);
  }

  lemma AllIs(m: Prims, data: Data, arity: map<string, nat>, parent: Expr, es: seq<Expr>, scope: Scope, k: nat,
              env: Env, calls: Calls)
    requires forall i :: 0 <= i < |es| ==> es[i] < parent
    ensures if es == [] then ExAll(data, arity, parent, es, scope, k) == EmittedAll([], [], k)
             && Each(m, data, arity, es, env, calls) == []
            else
              var x := Ex(data, arity, es[0], scope, k);
              var r := ExAll(data, arity, parent, es[1..], scope, x.k);
              && ExAll(data, arity, parent, es, scope, k) == EmittedAll(x.out + r.out, [x.e] + r.es, r.k)
              && Each(m, data, arity, es, env, calls)
                == [Eval(m, data, arity, es[0], env, calls)] + Each(m, data, arity, es[1..], env, calls)
  {}

  lemma JointStep(r: Option<Boxed>, rs: seq<Option<Boxed>>)
    ensures r == None || Joint(rs) == None ==> Joint([r] + rs) == None
  {
    assert ([r] + rs)[1..] == rs;
  }

  lemma {:induction false} AllCorrect(m: Prims, data: Data, arity: map<string, nat>, parent: Expr, es: seq<Expr>,
                                      scope: Scope, k: nat, env: Env, s: Store, calls: Calls, ccalls: Calls)
    requires forall i :: 0 <= i < |es| ==> es[i] < parent && Fragment(data, arity, es[i], env.Keys)
    requires Agree(scope, env, s, k) && SameCalls(calls, ccalls)
    ensures RightAll(m, Each(m, data, arity, es, env, calls), ExAll(data, arity, parent, es, scope, k), s, k, ccalls)
    decreases parent, 0, |es|
  {
    hide Agree, SameCalls, Run, Reads, ReadsEach, Ext, Fragment, Eval, Ex, ExAll, Each, Joint;
    if es == [] {
      AllIs(m, data, arity, parent, es, scope, k, env, calls);
      RunNothing(m, s, ccalls);
      ExtSelf(s, k);
      NoneRead(m, s, k);
    } else {
      var x := Ex(data, arity, es[0], scope, k);
      var r := ExAll(data, arity, parent, es[1..], scope, x.k);
      var a, b := Eval(m, data, arity, es[0], env, calls), Each(m, data, arity, es[1..], env, calls);
      AllIs(m, data, arity, parent, es, scope, k, env, calls);
      JointStep(a, b);
      ExCorrect(m, data, arity, es[0], scope, k, env, s, calls, ccalls);
      RunAppend(m, x.out, r.out, s, ccalls);
      match Run(m, x.out, s, ccalls)
      case None =>
      case Some(t) =>
        AgreeLater(scope, env, s, t, k, x.k);
        AllCorrect(m, data, arity, parent, es[1..], scope, x.k, env, t, calls, ccalls);
        match Run(m, r.out, t, ccalls)
        case None =>
        case Some(u) =>
          ExtChain(s, t, u, k, x.k);
          ReadsLater(m, x.e, t, x.k, a, u, r.k);
          ConsReads(m, x.e, r.es, u, r.k, a, b);
    }
  }

  lemma NoneRead(m: Prims, t: Store, k: nat)
    ensures ReadsEach(m, [], t, k, [])
  {}

  /** The expressions a tuple, a list or a call is made of. */
  function Parts(e: Expr): seq<Expr>
    requires e.Tuple? || e.List? || e.App?
  {
    if e.App? then e.args else e.items
  }

  lemma {:induction false} MakeCorrect(m: Prims, data: Data, arity: map<string, nat>, e: Expr, es: seq<Expr>,
                                       scope: Scope, k: nat, env: Env, s: Store, calls: Calls, ccalls: Calls)
    requires (e.Tuple? || e.List? || e.App?) && es == Parts(e) && Fragment(data, arity, e, env.Keys)
    requires Agree(scope, env, s, k) && SameCalls(calls, ccalls)
    ensures Correct(m, data, arity, e, scope, k, env, s, calls, ccalls)
    decreases e, 1, 0
  {
    hide Agree, SameCalls, Run, Reads, ReadsEach, Ext, EvalAll, ExAll, Calling, Each, Joint;
    var all := ExAll(data, arity, e, es, scope, k);
    var r := Each(m, data, arity, es, env, calls);
    EachIs(m, data, arity, e, es, env, calls);
    AllCorrect(m, data, arity, e, es, scope, k, env, s, calls, ccalls);
    match Run(m, all.out, s, ccalls)
    case None =>
      if e.App? && Calling(arity, e) { RunAppend(m, all.out, [DeclCall(all.k + 1, e.head.name, all.es)], s, ccalls); }
    case Some(t) =>
      if e.App? && Calling(arity, e) {
        CallCorrect(m, e.head.name, all, s, t, k, r, calls, ccalls);
      } else {
        MakeReads(m, if e.Tuple? then ATuple else if e.List? then AList else MakerOf(e.head), all.es, t, all.k, r);
      }
  }

  /** A call runs at once, into a variable of its own. */
  lemma CallCorrect(m: Prims, f: string, all: EmittedAll, s: Store, t: Store, k: nat, rs: seq<Option<Boxed>>,
                    calls: Calls, ccalls: Calls)
    requires Run(m, all.out, s, ccalls) == Some(t) && Ext(s, t, k) && k <= all.k && ReadsEach(m, all.es, t, all.k, rs)
    requires SameCalls(calls, ccalls)
    ensures Right(m, match Joint(rs) case None => None case Some(vs) => calls(f, vs),
                  Emitted(all.out + [DeclCall(all.k + 1, f, all.es)], CVar(all.k + 1), all.k + 1), s, k, ccalls)
  {
    hide Run, Joint, ReadsEach, CEvalAll;
    var d := all.k + 1;
    var st := DeclCall(d, f, all.es);
    RunAppend(m, all.out, [st], s, ccalls);
    RunOne(m, st, t, ccalls);
    ExtSelf(t, all.k);
    AllReads(m, CMake(ATuple, all.es), all.es, t, all.k, rs, t);
    match Joint(rs)
    case None =>
    case Some(vs) =>
      assert calls(f, vs) == ccalls(f, vs);
      if calls(f, vs).Some? {
        var u := t[d := calls(f, vs).value];
        ExtNew(t, d, calls(f, vs).value, k);
        ExtChain(s, t, u, k, k);
        ReadsVar(m, d, u, d);
      }
  }

  lemma LetIs(m: Prims, data: Data, arity: map<string, nat>, e: Expr, scope: Scope, k: nat, env: Env, calls: Calls)
    requires e.Let? || e.Bind?
    ensures Ex(data, arity, e, scope, k) == ExLet(data, arity, e, e.name, e.value, e.body, scope, k)
    ensures Eval(m, data, arity, e, env, calls) ==
              match Eval(m, data, arity, e.value, env, calls)
              case None => None
              case Some(x) => Eval(m, data, arity, e.body, env[e.name := x], calls)
  {}

  /** Giving the value of an emitted expression a variable of its own. */
  lemma Settled(m: Prims, em: Emitted, c: nat, s: Store, t: Store, k: nat, r: Option<Boxed>, calls: Calls)
    requires Run(m, em.out, s, calls) == Some(t) && Ext(s, t, k) && Reads(m, em.e, t, em.k, r) && k <= em.k < c
    ensures Run(m, em.out + [Decl(c, em.e)], s, calls) == match r case None => None case Some(v) => Some(t[c := v])
    ensures r.Some? ==> Ext(s, t[c := r.value], k) && Ext(t, t[c := r.value], em.k)
  {
    hide Run;
    RunAppend(m, em.out, [Decl(c, em.e)], s, calls);
    RunOne(m, Decl(c, em.e), t, calls);
    ReadsNow(m, em.e, t, em.k, r);
    if r.Some? { ExtNew(t, c, r.value, em.k); }
  }

  lemma {:induction false} LetCorrect(m: Prims, data: Data, arity: map<string, nat>, e: Expr, scope: Scope, k: nat,
                                      env: Env, s: Store, calls: Calls, ccalls: Calls)
    requires (e.Let? || e.Bind?) && Fragment(data, arity, e, env.Keys) && Agree(scope, env, s, k)
    requires SameCalls(calls, ccalls)
    ensures Correct(m, data, arity, e, scope, k, env, s, calls, ccalls)
    decreases e, 1, 0
  {
    hide Agree, SameCalls, Run, Reads, Ext, Eval, Ex;
    LetIs(m, data, arity, e, scope, k, env, calls);
    var x := Ex(data, arity, e.value, scope, k);
    var c := x.k + 1;
    var b := Ex(data, arity, e.body, scope[e.name := c], c);
    var a := Eval(m, data, arity, e.value, env, calls);
    var first := x.out + [Decl(c, x.e)];
    assert Fragment(data, arity, e.value, env.Keys) && Fragment(data, arity, e.body, env.Keys + {e.name});
    ExCorrect(m, data, arity, e.value, scope, k, env, s, calls, ccalls);
    RunAppend(m, first, b.out, s, ccalls);
    match Run(m, x.out, s, ccalls)
    case None => RunAppend(m, x.out, [Decl(c, x.e)], s, ccalls);
    case Some(t) =>
      Settled(m, x, c, s, t, k, a, ccalls);
      if a.Some? {
        var t', env' := t[c := a.value], env[e.name := a.value];
        AgreeLater(scope, env, s, t, k, x.k);
        AgreeBind(scope, env, t, x.k, e.name, c, a.value);
        assert env'.Keys == env.Keys + {e.name};
        ExCorrect(m, data, arity, e.body, scope[e.name := c], c, env', t', calls, ccalls);
        match Run(m, b.out, t', ccalls)
        case None =>
        case Some(u) => ExtChain(s, t', u, k, c);
      }
  }

  // --------------------------------------------------------- blocks and branches

  /** No statement takes a variable away. */
  lemma {:induction false} RunKeeps(m: Prims, ss: seq<Stmt>, s: Store, calls: Calls)
    ensures Run(m, ss, s, calls).Some? ==> forall x :: x in s ==> x in Run(m, ss, s, calls).value
    decreases |ss|
  {
    hide Step;
    if ss != [] {
      StepKeeps(m, ss[0], s, calls);
      if Step(m, ss[0], s, calls).Some? { RunKeeps(m, ss[1..], Step(m, ss[0], s, calls).value, calls); }
    }
  }

  lemma StepKeeps(m: Prims, st: Stmt, s: Store, calls: Calls)
    ensures Step(m, st, s, calls).Some? ==> forall x :: x in s ==> x in Step(m, st, s, calls).value
  {
    hide CEval, CEvalAll, Run, Emit.RunChain;
  }

  lemma {:induction false} BindKeeps(s: Store, bs: seq<(nat, Access)>, root: Boxed)
    ensures BindStore(s, bs, root).Some? ==> forall x :: x in s ==> x in BindStore(s, bs, root).value
    decreases |bs|
  {
    hide Read;
    if bs != [] && Read(bs[0].1, root).Some? {
      BindKeeps(s[bs[0].0 := Read(bs[0].1, root).value], bs[1..], root);
    }
  }

  lemma LeaveKeeps(s: Store, t: Store)
    requires forall x :: x in s ==> x in t
    ensures Leave(s, Some(t)).Some? && Leave(s, Some(t)).value.Keys == s.Keys
    ensures forall x :: x in s ==> Leave(s, Some(t)).value[x] == t[x]
  {}

  /** What a block that puts a result into `d` leaves behind. */
  ghost predicate Delivers(s: Store, t: Store, k: nat, d: nat, r: Option<Boxed>) {
    && (forall x :: x in s && x <= k && x != d ==> x in t && t[x] == s[x])
    && d in t && r == Some(t[d]) && forall x :: x in s ==> x in t
  }

  /** An expression's code, then the assignment of its result to `d`. */
  lemma Delivered(m: Prims, em: Emitted, d: nat, s: Store, k: nat, r: Option<Boxed>, calls: Calls)
    requires Right(m, r, em, s, k, calls) && d in s && d <= k <= em.k
    ensures match Run(m, em.out + [Assign(d, em.e)], s, calls)
            case None => r == None
            case Some(t) => Delivers(s, t, k, d, r)
  {
    hide Run, Reads, CEval;
    RunAppend(m, em.out, [Assign(d, em.e)], s, calls);
    match Run(m, em.out, s, calls)
    case None =>
    case Some(t) =>
      RunKeeps(m, em.out, s, calls);
      RunOne(m, Assign(d, em.e), t, calls);
      ReadsNow(m, em.e, t, em.k, r);
  }

  lemma ShortIs(m: Prims, data: Data, arity: map<string, nat>, e: Expr, scope: Scope, k: nat, env: Env, calls: Calls)
    requires e.Binop? && ShortCircuit(e.op)
    ensures var l := Ex(data, arity, e.left, scope, k);
            var d := l.k + 1;
            var r := Ex(data, arity, e.right, scope, d);
            Ex(data, arity, e, scope, k)
              == Emitted((l.out + [Decl(d, CConst(BBool(e.op == Or)))])
                         + [Guard(l.e, e.op == And, r.out + [Assign(d, r.e)])], CVar(d), r.k)
    ensures Eval(m, data, arity, e, env, calls) ==
              match Eval(m, data, arity, e.left, env, calls)
              case None => None
              case Some(v) =>
                match Truth(v)
                case None => None
                case Some(t) =>
                  if t == (e.op == And) then Eval(m, data, arity, e.right, env, calls) else Some(BBool(e.op == Or))
  {
    var l := Ex(data, arity, e.left, scope, k);
    var d := l.k + 1;
    var r := Ex(data, arity, e.right, scope, d);
    var one, two := Decl(d, CConst(BBool(e.op == Or))), Guard(l.e, e.op == And, r.out + [Assign(d, r.e)]);
    assert l.out + [one, two] == (l.out + [one]) + [two];
  }

  lemma {:induction false} ShortCorrect(m: Prims, data: Data, arity: map<string, nat>, e: Expr, scope: Scope, k: nat,
                                        env: Env, s: Store, calls: Calls, ccalls: Calls)
    requires e.Binop? && ShortCircuit(e.op) && Fragment(data, arity, e, env.Keys) && Agree(scope, env, s, k)
    requires SameCalls(calls, ccalls)
    ensures Correct(m, data, arity, e, scope, k, env, s, calls, ccalls)
    decreases e, 1, 0
  {
    hide Agree, SameCalls, Run, Reads, Ext, Eval, Ex, CEval;
    ShortIs(m, data, arity, e, scope, k, env, calls);
    var l := Ex(data, arity, e.left, scope, k);
    var d := l.k + 1;
    var r := Ex(data, arity, e.right, scope, d);
    var a, b := Eval(m, data, arity, e.left, env, calls), Eval(m, data, arity, e.right, env, calls);
    var initial := BBool(e.op == Or);
    var guard := Guard(l.e, e.op == And, r.out + [Assign(d, r.e)]);
    ExCorrect(m, data, arity, e.left, scope, k, env, s, calls, ccalls);
    RunAppend(m, l.out, [Decl(d, CConst(initial))], s, ccalls);
    RunAppend(m, l.out + [Decl(d, CConst(initial))], [guard], s, ccalls);
    match Run(m, l.out, s, ccalls)
    case None =>
    case Some(t) =>
      var t' := t[d := initial];
      RunDecl(m, d, initial, t, ccalls);
      RunOne(m, guard, t', ccalls);
      ExtNew(t, d, initial, l.k);
      ExtChain(s, t, t', k, l.k);
      ReadsAt(m, l.e, t, l.k, a, t');
      AgreeLater(scope, env, s, t', k, d);
      ExCorrect(m, data, arity, e.right, scope, d, env, t', calls, ccalls);
      Delivered(m, r, d, t', d, b, ccalls);
      if a.Some? && Truth(a.value).Some? {
        GuardCorrect(m, e.op, l.e, r, d, s, t', k, a.value, b, ccalls);
      }
  }

  lemma RunDecl(m: Prims, d: nat, v: Boxed, t: Store, calls: Calls)
    ensures Run(m, [Decl(d, CConst(v))], t, calls) == Some(t[d := v])
  {
    RunOne(m, Decl(d, CConst(v)), t, calls);
  }

  lemma GuardCorrect(m: Prims, op: BinOp, cond: CExpr, r: Emitted, d: nat, s: Store, t: Store, k: nat, a: Boxed,
                     b: Option<Boxed>, calls: Calls)
    requires CEval(m, cond, t) == Some(a) && Truth(a).Some? && Ext(s, t, k) && k < d <= r.k && d in t
    requires t[d] == BBool(op == Or)
    requires match Run(m, r.out + [Assign(d, r.e)], t, calls)
             case None => b == None
             case Some(u) => Delivers(t, u, d, d, b)
    ensures var res := if Truth(a).value == (op == And) then b else Some(BBool(op == Or));
            match Step(m, Guard(cond, op == And, r.out + [Assign(d, r.e)]), t, calls)
            case None => res == None
            case Some(u) => Ext(s, u, k) && Reads(m, CVar(d), u, r.k, res)
  {
    hide CEval, Run, Reads;
    var body := r.out + [Assign(d, r.e)];
    if Truth(a).value == (op == And) {
      match Run(m, body, t, calls)
      case None =>
      case Some(u) =>
        LeaveKeeps(t, u);
        ReadsVar(m, d, Leave(t, Some(u)).value, r.k);
    } else {
      ReadsVar(m, d, t, r.k);
    }
  }

  lemma ArmIs(m: Prims, data: Data, arity: map<string, nat>, parent: Expr, arms: seq<Arm>, scope: Scope, k: nat, d: nat)
    requires arms != [] && forall i :: 0 <= i < |arms| ==> arms[i] < parent
    ensures var bs := PatBind(arms[0].pat, Root);
            var x := Ex(data, arity, arms[0].body, ScopeWith(scope, bs, k), k + |bs|);
            var rest := ExArms(data, arity, parent, arms[1..], scope, x.k, d);
            ExArms(data, arity, parent, arms, scope, k, d)
              == ([CArm(PatCond(data, arms[0].pat, Root), Numbered(bs, k), x.out + [Assign(d, x.e)])] + rest.0, rest.1)
  {}

  lemma {:induction false} ArmsCorrect(m: Prims, data: Data, arity: map<string, nat>, parent: Expr, arms: seq<Arm>,
                                       v: Boxed, scope: Scope, k0: nat, k: nat, d: nat, env: Env, s: Store,
                                       calls: Calls, ccalls: Calls)
    requires forall i :: 0 <= i < |arms| ==> arms[i] < parent && NulFree(arms[i].pat)
    requires forall i :: 0 <= i < |arms| ==> Fragment(data, arity, arms[i].body, env.Keys + PatNames(arms[i].pat))
    requires Agree(scope, env, s, k0) && k0 <= k && d <= k0 && d in s && SameCalls(calls, ccalls)
    ensures match Emit.RunChain(m, ExArms(data, arity, parent, arms, scope, k, d).0, v, s, ccalls)
            case None => EvalArms(m, data, arity, parent, arms, v, env, calls) == None
            case Some(t) => Delivers(s, t, k0, d, EvalArms(m, data, arity, parent, arms, v, env, calls))
    decreases parent, 0, |arms|
  {
    hide Agree, SameCalls, Run, Fragment, Eval, EvalArms, Ex, ExArms, PatCond, PatBind, RunTests, Right, Delivers,
         Numbered, ScopeWith, PatNames, NulFree;
    if arms == [] {
      NoArms(data, arity, parent, scope, k, d);
      NoEvalArms(m, data, arity, parent, v, env, calls);
    } else {
      ArmIs(m, data, arity, parent, arms, scope, k, d);
      var bs := PatBind(arms[0].pat, Root);
      var x := Ex(data, arity, arms[0].body, ScopeWith(scope, bs, k), k + |bs|);
      var rest := ExArms(data, arity, parent, arms[1..], scope, x.k, d);
      var code := CArm(PatCond(data, arms[0].pat, Root), Numbered(bs, k), x.out + [Assign(d, x.e)]);
      assert ([code] + rest.0)[1..] == rest.0;
      EvalArmsStep(m, data, arity, parent, arms, v, env, calls);
      match RunTests(code.tests, v)
      case None =>
      case Some(false) =>
        ArmsCorrect(m, data, arity, parent, arms[1..], v, scope, k0, x.k, d, env, s, calls, ccalls);
      case Some(true) =>
        ExtSelf(s, k0);
        AgreeLater(scope, env, s, s, k0, k);
        BindAgree(scope, env, s, k, bs, v);
        BindKeeps(s, code.binds, v);
        if BindEnv(env, bs, v).Some? {
          var env', t := BindEnv(env, bs, v).value, BindStore(s, code.binds, v).value;
          assert Fragment(data, arity, arms[0].body, env'.Keys) by { NamesBound(arms[0].pat, env, env'); }
          ExCorrect(m, data, arity, arms[0].body, ScopeWith(scope, bs, k), k + |bs|, env', t, calls, ccalls);
          Delivered(m, x, d, t, k + |bs|, Eval(m, data, arity, arms[0].body, env', calls), ccalls);
          if Run(m, code.body, t, ccalls).Some? {
            DeliversOut(s, t, Run(m, code.body, t, ccalls).value, k0, k, k + |bs|, d,
                        Eval(m, data, arity, arms[0].body, env', calls));
          }
        }
    }
  }

  lemma NamesBound(p: Pat, env: Env, env': Env)
    requires env'.Keys == env.Keys + set b | b in PatBind(p, Root) :: b.name
    ensures env'.Keys == env.Keys + PatNames(p)
  {}

  lemma DeliversOut(s: Store, t: Store, u: Store, k0: nat, k: nat, k': nat, d: nat, r: Option<Boxed>)
    requires Ext(s, t, k) && Delivers(t, u, k', d, r) && k0 <= k <= k' && forall x :: x in s ==> x in t
    ensures Delivers(s, u, k0, d, r)
  {}

  lemma NoEvalArms(m: Prims, data: Data, arity: map<string, nat>, parent: Expr, v: Boxed, env: Env, calls: Calls)
    ensures EvalArms(m, data, arity, parent, [], v, env, calls) == None
  {}

  lemma NoArms(data: Data, arity: map<string, nat>, parent: Expr, scope: Scope, k: nat, d: nat)
    ensures ExArms(data, arity, parent, [], scope, k, d).0 == []
  {}

  lemma MatchIs(m: Prims, data: Data, arity: map<string, nat>, e: Expr, scope: Scope, k: nat, env: Env, calls: Calls)
    requires e.Match?
    ensures var x := Ex(data, arity, e.scrut, scope, k);
            var d := x.k + 1;
            var arms := ExArms(data, arity, e, e.arms, scope, d + 1, d);
            Ex(data, arity, e, scope, k)
              == Emitted(((x.out + [Decl(d, CConst(UNIT))]) + [Decl(d + 1, x.e)]) + [Chain(d + 1, arms.0)], CVar(d),
                         arms.1)
    ensures Eval(m, data, arity, e, env, calls) ==
              match Eval(m, data, arity, e.scrut, env, calls)
              case None => None
              case Some(v) => EvalArms(m, data, arity, e, e.arms, v, env, calls)
  {
    hide ExArms, EvalArms;
    var x := Ex(data, arity, e.scrut, scope, k);
    var d := x.k + 1;
    var arms := ExArms(data, arity, e, e.arms, scope, d + 1, d);
    var one, two, three := Decl(d, CConst(UNIT)), Decl(d + 1, x.e), Chain(d + 1, arms.0);
    assert x.out + [one, two, three] == ((x.out + [one]) + [two]) + [three];
  }

  lemma {:induction false} MatchCorrect(m: Prims, data: Data, arity: map<string, nat>, e: Expr, scope: Scope, k: nat,
                                        env: Env, s: Store, calls: Calls, ccalls: Calls)
    requires e.Match? && Fragment(data, arity, e, env.Keys) && Agree(scope, env, s, k) && SameCalls(calls, ccalls)
    ensures Correct(m, data, arity, e, scope, k, env, s, calls, ccalls)
    decreases e, 1, 0
  {
    hide Agree, SameCalls, Run, Reads, Ext, Eval, Ex, CEval, ExArms, EvalArms, Delivers, PatNames;
    MatchIs(m, data, arity, e, scope, k, env, calls);
    var x := Ex(data, arity, e.scrut, scope, k);
    var d := x.k + 1;
    var arms := ExArms(data, arity, e, e.arms, scope, d + 1, d);
    var a := Eval(m, data, arity, e.scrut, env, calls);
    var first, second := x.out + [Decl(d, CConst(UNIT))], [Decl(d + 1, x.e)];
    ExCorrect(m, data, arity, e.scrut, scope, k, env, s, calls, ccalls);
    RunAppend(m, x.out, [Decl(d, CConst(UNIT))], s, ccalls);
    RunAppend(m, first, second, s, ccalls);
    RunAppend(m, first + second, [Chain(d + 1, arms.0)], s, ccalls);
    match Run(m, x.out, s, ccalls)
    case None =>
    case Some(t) =>
      var t1 := t[d := UNIT];
      RunDecl(m, d, UNIT, t, ccalls);
      ExtNew(t, d, UNIT, x.k);
      RunOne(m, Decl(d + 1, x.e), t1, ccalls);
      ReadsAt(m, x.e, t, x.k, a, t1);
      if a.Some? {
        var t2 := t1[d + 1 := a.value];
        ExtNew(t1, d + 1, a.value, x.k);
        ExtChain(t, t1, t2, x.k, x.k);
        ExtChain(s, t, t2, k, x.k);
        AgreeLater(scope, env, s, t2, k, d + 1);
        RunOne(m, Chain(d + 1, arms.0), t2, ccalls);
        ArmsCorrect(m, data, arity, e, e.arms, a.value, scope, d + 1, d + 1, d, env, t2, calls, ccalls);
        ChainCorrect(m, arms.0, d, s, t2, k, arms.1, a.value,
                     EvalArms(m, data, arity, e, e.arms, a.value, env, calls), ccalls);
      }
  }

  lemma ChainCorrect(m: Prims, arms: seq<CArm>, d: nat, s: Store, t: Store, k: nat, k': nat, v: Boxed, r: Option<Boxed>,
                     calls: Calls)
    requires d + 1 in t && t[d + 1] == v && d in t && Ext(s, t, k) && k < d <= k'
    requires match Emit.RunChain(m, arms, v, t, calls)
             case None => r == None
             case Some(u) => Delivers(t, u, d + 1, d, r)
    ensures match Step(m, Chain(d + 1, arms), t, calls)
            case None => r == None
            case Some(u) => Ext(s, u, k) && Reads(m, CVar(d), u, k', r)
  {
    hide CEval, Reads, Emit.RunChain;
    match Emit.RunChain(m, arms, v, t, calls)
    case None =>
    case Some(u) =>
      LeaveKeeps(t, u);
      ReadsVar(m, d, Leave(t, Some(u)).value, k');
  }

  // -------------------------------------------------------------- tail position

  /** How one round of the loop ends. */
  datatype Ending = Stopped | Result(v: Boxed) | Round(s: Store)

  function AssignAll(params: seq<nat>, temps: seq<nat>, s: Store): Option<Store>
    decreases |params|
  {
    if params == [] || temps == [] then Some(s)
    else if params[0] !in s || temps[0] !in s then None
    else AssignAll(params[1..], temps[1..], s[params[0] := s[temps[0]]])
  }

  function RunTail(m: Prims, c: TailCode, s: Store, calls: Calls): Ending
    decreases c
  {
    match c
    case Do(first, next) =>
      (match Run(m, first, s, calls) case None => Stopped case Some(t) => RunTail(m, next, t, calls))
    case Return(e) => (match CEval(m, e, s) case None => Stopped case Some(v) => Result(v))
    case Again(params, temps) => (match AssignAll(params, temps, s) case None => Stopped case Some(t) => Round(t))
    case Branch(sv, arms) => if sv !in s then Stopped else RunBranch(m, arms, s[sv], s, calls)
  }

  function RunBranch(m: Prims, arms: seq<TailArm>, v: Boxed, s: Store, calls: Calls): Ending
    decreases arms
  {
    if arms == [] then Stopped
    else
      match RunTests(arms[0].tests, v)
      case None => Stopped
      case Some(false) => RunBranch(m, arms[1..], v, s, calls)
      case Some(true) =>
        match BindStore(s, arms[0].binds, v)
        case None => Stopped
        case Some(t) => RunTail(m, arms[0].body, t, calls)
  }

  lemma RunDo(m: Prims, first: seq<Stmt>, next: TailCode, s: Store, calls: Calls)
    ensures RunTail(m, Do(first, next), s, calls)
         == match Run(m, first, s, calls) case None => Stopped case Some(t) => RunTail(m, next, t, calls)
  {}

  lemma RunEnd(m: Prims, e: CExpr, params: seq<nat>, temps: seq<nat>, sv: nat, arms: seq<TailArm>, s: Store,
               calls: Calls)
    ensures RunTail(m, Return(e), s, calls) == match CEval(m, e, s) case None => Stopped case Some(v) => Result(v)
    ensures RunTail(m, Again(params, temps), s, calls)
         == match AssignAll(params, temps, s) case None => Stopped case Some(t) => Round(t)
    ensures RunTail(m, Branch(sv, arms), s, calls) == if sv !in s then Stopped else RunBranch(m, arms, s[sv], s, calls)
  {}

  lemma BranchStep(m: Prims, code: TailArm, rest: seq<TailArm>, v: Boxed, s: Store, calls: Calls)
    ensures RunBranch(m, [code] + rest, v, s, calls) ==
              match RunTests(code.tests, v)
              case None => Stopped
              case Some(false) => RunBranch(m, rest, v, s, calls)
              case Some(true) =>
                match BindStore(s, code.binds, v)
                case None => Stopped
                case Some(t) => RunTail(m, code.body, t, calls)
  {
    hide RunTail, RunTests, BindStore;
    assert ([code] + rest)[1..] == rest;
  }

  lemma EvalArmsStep(m: Prims, data: Data, arity: map<string, nat>, parent: Expr, arms: seq<Arm>, v: Boxed, env: Env,
                     calls: Calls)
    requires arms != [] && NulFree(arms[0].pat) && forall i :: 0 <= i < |arms| ==> arms[i] < parent
    ensures EvalArms(m, data, arity, parent, arms, v, env, calls) ==
              match RunTests(PatCond(data, arms[0].pat, Root), v)
              case None => None
              case Some(false) => EvalArms(m, data, arity, parent, arms[1..], v, env, calls)
              case Some(true) =>
                match BindEnv(env, PatBind(arms[0].pat, Root), v)
                case None => None
                case Some(env') => Eval(m, data, arity, arms[0].body, env', calls)
  {
    hide RunTests, PatCond, PatBind, Fits, Binds, BindEnv, Eval;
    CondFits(data, arms[0].pat, Root, v);
    DeclsBind(arms[0].pat, Root, v, env);
  }

  /** What a match means on a value of its scrutinee's type: the first arm whose
      pattern matches it, its names standing for the subvalues of the match. */
  lemma {:induction false} MatchMeans(m: Prims, data: Data, arity: map<string, nat>, parent: Expr, arms: seq<Arm>,
                                      i: nat, t: Ty, v: Value, r: Boxed, env: Env,
                                      calls: Calls) returns (boxes: seq<Boxed>)
    requires WfData(data) && TagsOk(data) && HasType(data, v, t) && Holds(data, v, t, r)
    requires forall j :: 0 <= j < |arms| ==> arms[j] < parent && PatTyped(data, arms[j].pat, t)
    requires i < |arms| && Matches(arms[i].pat, v) && forall j :: 0 <= j < i ==> !Matches(arms[j].pat, v)
    ensures var p := arms[i].pat;
            && HoldsEach(data, BoundValues(p, v), BoundTypes(data, p, t), boxes) && |boxes| == |Names(p)|
            && EvalArms(m, data, arity, parent, arms, r, env, calls)
               == Eval(m, data, arity, arms[i].body, Extended(env, Names(p), boxes), calls)
    decreases i
  {
    hide Eval, WfData, TagsOk, HasType, Holds, PatTyped, Matches, Fits, Binds, BoundValues, BoundTypes, HoldsEach,
         Extended;
    FitsTyped(data, arms[0].pat, v, t, r);
    if i == 0 {
      boxes := BindsTyped(data, arms[0].pat, v, t, r, env);
    } else {
      assert !Matches(arms[0].pat, v);
      assert arms[1..][i - 1] == arms[i];
      boxes := MatchMeans(m, data, arity, parent, arms[1..], i - 1, t, v, r, env, calls);
    }
  }

  /** The parameters' values, all of them, or none. */
  function ReadParams(params: seq<nat>, s: Store): Option<seq<Boxed>>
    decreases |params|
  {
    if params == [] then Some([])
    else if params[0] !in s then None
    else match ReadParams(params[1..], s) case None => None case Some(vs) => Some([s[params[0]]] + vs)
  }

  /** What a round amounts to: going round again is calling the function. */
  function Amounts(o: Ending, fun: string, params: seq<nat>, calls: Calls): Option<Boxed> {
    match o
    case Stopped => None
    case Result(v) => Some(v)
    case Round(s) => (match ReadParams(params, s) case None => None case Some(vs) => calls(fun, vs))
  }

  /** The loop's own variables: distinct, below the counter, and in scope. */
  ghost predicate Params(params: seq<nat>, s: Store, k: nat) {
    && (forall i, j :: 0 <= i < j < |params| ==> params[i] != params[j])
    && forall i :: 0 <= i < |params| ==> params[i] <= k && params[i] in s
  }

  lemma ParamsLater(params: seq<nat>, s: Store, t: Store, k: nat, k': nat)
    requires Params(params, s, k) && Ext(s, t, k) && k <= k'
    ensures Params(params, t, k')
  {}

  /** Each expression into its own new variable, none of which any of them reads. */
  lemma {:induction false} DeclsRun(m: Prims, ts: seq<nat>, es: seq<CExpr>, t: Store, k: nat, c: nat, s: Store,
                                    rs: seq<Option<Boxed>>, calls: Calls)
    requires |ts| == |es| && (forall i :: 0 <= i < |ts| ==> ts[i] == c + 1 + i) && k <= c
    requires ReadsEach(m, es, t, k, rs) && Ext(t, s, k)
    ensures match Run(m, Decls(ts, es), s, calls)
            case None => Joint(rs) == None
            case Some(u) => Ext(s, u, c) && Holding(ts, u, rs)
    decreases |ts|
  {
    hide CEval, Run, Reads;
    if ts == [] {
      RunNothing(m, s, calls);
      ExtSelf(s, c);
    } else {
      var first, rest := Decl(ts[0], es[0]), Decls(ts[1..], es[1..]);
      ReadsAt(m, es[0], t, k, rs[0], s);
      RunAppend(m, [first], rest, s, calls);
      RunOne(m, first, s, calls);
      if rs[0].Some? {
        var s' := s[ts[0] := rs[0].value];
        ExtNew(s, ts[0], rs[0].value, c);
        ExtLess(s, s', k, c);
        ExtChain(t, s, s', k, k);
        DeclsRun(m, ts[1..], es[1..], t, k, c + 1, s', rs[1..], calls);
        if Run(m, Decls(ts, es), s, calls).Some? {
          ExtChain(s, s', Run(m, Decls(ts, es), s, calls).value, c, c + 1);
        }
      }
    }
  }

  /** Each variable holds its result. */
  ghost predicate Holding(ts: seq<nat>, u: Store, rs: seq<Option<Boxed>>) {
    |ts| == |rs| && forall i :: 0 <= i < |ts| ==> ts[i] in u && rs[i] == Some(u[ts[i]])
  }

  /** Assigning the parameters one by one, from temporaries, gives them all their
      new values at once. */
  lemma {:induction false} AssignTogether(params: seq<nat>, temps: seq<nat>, s: Store, rs: seq<Option<Boxed>>)
    requires |params| == |temps| && Holding(temps, s, rs)
    requires forall i, j :: 0 <= i < j < |params| ==> params[i] != params[j]
    requires forall i, j :: 0 <= i < |params| && 0 <= j < |temps| ==> params[i] != temps[j]
    requires forall i :: 0 <= i < |params| ==> params[i] in s
    ensures AssignAll(params, temps, s).Some? && Holding(params, AssignAll(params, temps, s).value, rs)
    ensures forall x :: x in s && x !in params ==>
        x in AssignAll(params, temps, s).value && AssignAll(params, temps, s).value[x] == s[x]
    decreases |params|
  {
    if params != [] {
      var s' := s[params[0] := s[temps[0]]];
      assert Holding(temps[1..], s', rs[1..]);
      AssignTogether(params[1..], temps[1..], s', rs[1..]);
      var u := AssignAll(params, temps, s).value;
      assert params[0] !in params[1..];
      forall i | 0 <= i < |params| ensures params[i] in u && rs[i] == Some(u[params[i]]) {
        if i > 0 { assert params[i] == params[1..][i - 1] && rs[i] == rs[1..][i - 1]; }
      }
    }
  }

  lemma {:induction false} HoldingReads(params: seq<nat>, u: Store, rs: seq<Option<Boxed>>)
    requires Holding(params, u, rs)
    ensures Joint(rs).Some? && ReadParams(params, u) == Joint(rs)
    decreases |params|
  {
    if params != [] {
      assert Holding(params[1..], u, rs[1..]);
      HoldingReads(params[1..], u, rs[1..]);
    }
  }

  ghost predicate TailRight(m: Prims, r: Option<Boxed>, c: TailCode, s: Store, fun: string, params: seq<nat>,
                            ccalls: Calls) {
    Amounts(RunTail(m, c, s, ccalls), fun, params, ccalls) == r
  }

  lemma BackIs(m: Prims, data: Data, arity: map<string, nat>, fun: string, params: seq<nat>, e: Expr, scope: Scope,
               k: nat, env: Env, calls: Calls)
    requires !e.Let? && !e.Bind? && !e.Match? && BackEdge(fun, arity, e, scope)
    ensures var r := ExAll(data, arity, e, e.args, scope, k);
            TailOf(data, arity, fun, params, e, scope, k).0
              == Do(r.out + Decls(Temps(r.k, |e.args|), r.es), Again(params, Temps(r.k, |e.args|)))
    ensures Eval(m, data, arity, e, env, calls) ==
              match Joint(Each(m, data, arity, e.args, env, calls)) case None => None case Some(vs) => calls(fun, vs)
  {
    hide Joint, Each, ExAll, EvalAll;
    EachIs(m, data, arity, e, e.args, env, calls);
  }

  lemma BackCorrect(m: Prims, data: Data, arity: map<string, nat>, fun: string, params: seq<nat>, e: Expr, scope: Scope,
                    k: nat, env: Env, s: Store, calls: Calls, ccalls: Calls)
    requires !e.Let? && !e.Bind? && !e.Match? && BackEdge(fun, arity, e, scope) && |params| == |e.args|
    requires Fragment(data, arity, e, env.Keys) && Agree(scope, env, s, k) && SameCalls(calls, ccalls)
    requires Params(params, s, k)
    ensures TailRight(m, Eval(m, data, arity, e, env, calls), TailOf(data, arity, fun, params, e, scope, k).0, s,
                      fun, params, ccalls)
  {
    hide Agree, Run, Reads, ReadsEach, Ext, Eval, ExAll, TailOf, Joint, Each, CEvalAll;
    BackIs(m, data, arity, fun, params, e, scope, k, env, calls);
    var all := ExAll(data, arity, e, e.args, scope, k);
    var rs := Each(m, data, arity, e.args, env, calls);
    var ts := Temps(all.k, |e.args|);
    RunDo(m, all.out + Decls(ts, all.es), Again(params, ts), s, ccalls);
    AllCorrect(m, data, arity, e, e.args, scope, k, env, s, calls, ccalls);
    RunAppend(m, all.out, Decls(ts, all.es), s, ccalls);
    match Run(m, all.out, s, ccalls)
    case None =>
    case Some(t) =>
      ExtSelf(t, all.k);
      DeclsRun(m, ts, all.es, t, all.k, all.k, t, rs, ccalls);
      match Run(m, Decls(ts, all.es), t, ccalls)
      case None =>
      case Some(u) =>
        ExtChain(s, t, u, k, all.k);
        ParamsLater(params, s, u, k, all.k);
        RunEnd(m, CVar(0), params, ts, 0, [], u, ccalls);
        AssignTogether(params, ts, u, rs);
        HoldingReads(params, AssignAll(params, ts, u).value, rs);
        assert calls(fun, Joint(rs).value) == ccalls(fun, Joint(rs).value);
  }

  lemma {:induction false} TailCorrect(m: Prims, data: Data, arity: map<string, nat>, fun: string, params: seq<nat>,
                                       e: Expr, scope: Scope, k: nat, env: Env, s: Store, calls: Calls, ccalls: Calls)
    requires Fragment(data, arity, e, env.Keys) && Agree(scope, env, s, k) && SameCalls(calls, ccalls)
    requires Params(params, s, k)
    requires fun in arity ==> |params| == arity[fun]
    ensures TailRight(m, Eval(m, data, arity, e, env, calls), TailOf(data, arity, fun, params, e, scope, k).0, s,
                      fun, params, ccalls)
    decreases e, 2, 0
  {
    hide Agree, SameCalls, Params, TailRight, Eval, TailOf;
    if e.Let? || e.Bind? {
      TailLet(m, data, arity, fun, params, e, scope, k, env, s, calls, ccalls);
    } else if e.Match? {
      TailMatch(m, data, arity, fun, params, e, scope, k, env, s, calls, ccalls);
    } else if BackEdge(fun, arity, e, scope) {
      BackCorrect(m, data, arity, fun, params, e, scope, k, env, s, calls, ccalls);
    } else {
      TailValue(m, data, arity, fun, params, e, scope, k, env, s, calls, ccalls);
    }
  }

  lemma TailValueIs(data: Data, arity: map<string, nat>, fun: string, params: seq<nat>, e: Expr, scope: Scope, k: nat)
    requires !e.Let? && !e.Bind? && !e.Match? && !BackEdge(fun, arity, e, scope)
    ensures var x := Ex(data, arity, e, scope, k);
            TailOf(data, arity, fun, params, e, scope, k).0 == Do(x.out, Return(x.e))
  {}

  lemma TailValue(m: Prims, data: Data, arity: map<string, nat>, fun: string, params: seq<nat>, e: Expr, scope: Scope,
                  k: nat, env: Env, s: Store, calls: Calls, ccalls: Calls)
    requires !e.Let? && !e.Bind? && !e.Match? && !BackEdge(fun, arity, e, scope)
    requires Fragment(data, arity, e, env.Keys) && Agree(scope, env, s, k) && SameCalls(calls, ccalls)
    ensures TailRight(m, Eval(m, data, arity, e, env, calls), TailOf(data, arity, fun, params, e, scope, k).0, s,
                      fun, params, ccalls)
  {
    hide Agree, SameCalls, Run, Reads, Ext, Eval, Ex, CEval, TailOf, RunTail, BackEdge, Fragment;
    TailValueIs(data, arity, fun, params, e, scope, k);
    var x := Ex(data, arity, e, scope, k);
    ExCorrect(m, data, arity, e, scope, k, env, s, calls, ccalls);
    RunDo(m, x.out, Return(x.e), s, ccalls);
    match Run(m, x.out, s, ccalls)
    case None =>
    case Some(t) =>
      RunEnd(m, x.e, [], [], 0, [], t, ccalls);
      ReadsNow(m, x.e, t, x.k, Eval(m, data, arity, e, env, calls));
  }

  lemma TailLetIs(data: Data, arity: map<string, nat>, fun: string, params: seq<nat>, e: Expr, scope: Scope, k: nat)
    requires e.Let? || e.Bind?
    ensures var x := Ex(data, arity, e.value, scope, k);
            TailOf(data, arity, fun, params, e, scope, k).0
              == Do(x.out + [Decl(x.k + 1, x.e)],
                    TailOf(data, arity, fun, params, e.body, scope[e.name := x.k + 1], x.k + 1).0)
  {}

  lemma {:induction false} TailLet(m: Prims, data: Data, arity: map<string, nat>, fun: string, params: seq<nat>,
                                   e: Expr, scope: Scope, k: nat, env: Env, s: Store, calls: Calls, ccalls: Calls)
    requires (e.Let? || e.Bind?) && Fragment(data, arity, e, env.Keys) && Agree(scope, env, s, k)
    requires SameCalls(calls, ccalls)
    requires Params(params, s, k) && (fun in arity ==> |params| == arity[fun])
    ensures TailRight(m, Eval(m, data, arity, e, env, calls), TailOf(data, arity, fun, params, e, scope, k).0, s,
                      fun, params, ccalls)
    decreases e, 1, 0
  {
    hide Agree, SameCalls, Params, Run, Reads, Ext, Eval, Ex, TailOf, RunTail;
    LetIs(m, data, arity, e, scope, k, env, calls);
    TailLetIs(data, arity, fun, params, e, scope, k);
    var x := Ex(data, arity, e.value, scope, k);
    var c, a := x.k + 1, Eval(m, data, arity, e.value, env, calls);
    RunDo(m, x.out + [Decl(c, x.e)], TailOf(data, arity, fun, params, e.body, scope[e.name := c], c).0, s, ccalls);
    assert Fragment(data, arity, e.value, env.Keys) && Fragment(data, arity, e.body, env.Keys + {e.name});
    ExCorrect(m, data, arity, e.value, scope, k, env, s, calls, ccalls);
    match Run(m, x.out, s, ccalls)
    case None => RunAppend(m, x.out, [Decl(c, x.e)], s, ccalls);
    case Some(t) =>
      Settled(m, x, c, s, t, k, a, ccalls);
      if a.Some? {
        var t', env' := t[c := a.value], env[e.name := a.value];
        AgreeLater(scope, env, s, t, k, x.k);
        AgreeBind(scope, env, t, x.k, e.name, c, a.value);
        ParamsLater(params, s, t', k, c);
        assert env'.Keys == env.Keys + {e.name};
        TailCorrect(m, data, arity, fun, params, e.body, scope[e.name := c], c, env', t', calls, ccalls);
      }
  }

  lemma TailMatchIs(m: Prims, data: Data, arity: map<string, nat>, fun: string, params: seq<nat>, e: Expr, scope: Scope,
                    k: nat)
    requires e.Match?
    ensures var x := Ex(data, arity, e.scrut, scope, k);
            TailOf(data, arity, fun, params, e, scope, k).0
              == Do(x.out + [Decl(x.k + 1, x.e)],
                    Branch(x.k + 1, TailArms(data, arity, fun, params, e, e.arms, scope, x.k + 1).0))
  {}

  lemma {:induction false} TailMatch(m: Prims, data: Data, arity: map<string, nat>, fun: string, params: seq<nat>,
                                     e: Expr, scope: Scope, k: nat, env: Env, s: Store, calls: Calls, ccalls: Calls)
    requires e.Match? && Fragment(data, arity, e, env.Keys) && Agree(scope, env, s, k) && SameCalls(calls, ccalls)
    requires Params(params, s, k) && (fun in arity ==> |params| == arity[fun])
    ensures TailRight(m, Eval(m, data, arity, e, env, calls), TailOf(data, arity, fun, params, e, scope, k).0, s,
                      fun, params, ccalls)
    decreases e, 1, 0
  {
    hide Agree, SameCalls, Params, Run, Reads, Ext, Eval, Ex, TailOf, TailArms, EvalArms, PatNames, RunTail, RunBranch,
         Fragment;
    MatchIs(m, data, arity, e, scope, k, env, calls);
    TailMatchIs(m, data, arity, fun, params, e, scope, k);
    MatchFragment(data, arity, e, env.Keys);
    var x := Ex(data, arity, e.scrut, scope, k);
    var sv, a := x.k + 1, Eval(m, data, arity, e.scrut, env, calls);
    var code := TailArms(data, arity, fun, params, e, e.arms, scope, sv).0;
    ExCorrect(m, data, arity, e.scrut, scope, k, env, s, calls, ccalls);
    ScrutinyRun(m, x, sv, code, s, k, a, ccalls);
    if Run(m, x.out, s, ccalls).Some? && a.Some? {
      var t := Run(m, x.out, s, ccalls).value[sv := a.value];
      AgreeLater(scope, env, s, t, k, sv);
      ParamsLater(params, s, t, k, sv);
      TailArmsCorrect(m, data, arity, fun, params, e, e.arms, a.value, scope, sv, sv, env, t, calls, ccalls);
    }
  }

  lemma MatchFragment(data: Data, arity: map<string, nat>, e: Expr, names: set<string>)
    requires e.Match? && Fragment(data, arity, e, names)
    ensures Fragment(data, arity, e.scrut, names)
    ensures forall i :: 0 <= i < |e.arms| ==>
              NulFree(e.arms[i].pat) && Fragment(data, arity, e.arms[i].body, names + PatNames(e.arms[i].pat))
  {
    hide PatNames;
  }

  /** The scrutinee goes into a variable, which the arms then test. */
  lemma ScrutinyRun(m: Prims, x: Emitted, sv: nat, code: seq<TailArm>, s: Store, k: nat, a: Option<Boxed>, calls: Calls)
    requires Right(m, a, x, s, k, calls) && k <= x.k && sv == x.k + 1
    ensures var o := RunTail(m, Do(x.out + [Decl(sv, x.e)], Branch(sv, code)), s, calls);
            match Run(m, x.out, s, calls)
            case None => a == None && o == Stopped
            case Some(t) =>
              if a == None then o == Stopped
              else o == RunBranch(m, code, a.value, t[sv := a.value], calls) && Ext(s, t[sv := a.value], k)
  {
    hide Run, Reads, Ext, RunTail, RunBranch;
    RunDo(m, x.out + [Decl(sv, x.e)], Branch(sv, code), s, calls);
    match Run(m, x.out, s, calls)
    case None => RunAppend(m, x.out, [Decl(sv, x.e)], s, calls);
    case Some(t) =>
      Settled(m, x, sv, s, t, k, a, calls);
      if a.Some? { RunEnd(m, CVar(0), [], [], sv, code, t[sv := a.value], calls); }
  }

  lemma TailArmIs(data: Data, arity: map<string, nat>, fun: string, params: seq<nat>, parent: Expr, arms: seq<Arm>,
                  scope: Scope, k: nat)
    requires arms != [] && forall i :: 0 <= i < |arms| ==> arms[i] < parent
    ensures var bs := PatBind(arms[0].pat, Root);
            var x := TailOf(data, arity, fun, params, arms[0].body, ScopeWith(scope, bs, k), k + |bs|);
            TailArms(data, arity, fun, params, parent, arms, scope, k).0
              == [TailArm(PatCond(data, arms[0].pat, Root), Numbered(bs, k), x.0)]
                 + TailArms(data, arity, fun, params, parent, arms[1..], scope, x.1).0
  {}

  lemma {:induction false} TailArmsCorrect(m: Prims, data: Data, arity: map<string, nat>, fun: string, params: seq<nat>,
                                           parent: Expr, arms: seq<Arm>, v: Boxed, scope: Scope, k0: nat, k: nat,
                                           env: Env, s: Store, calls: Calls, ccalls: Calls)
    requires forall i :: 0 <= i < |arms| ==> arms[i] < parent && NulFree(arms[i].pat)
    requires forall i :: 0 <= i < |arms| ==> Fragment(data, arity, arms[i].body, env.Keys + PatNames(arms[i].pat))
    requires Agree(scope, env, s, k0) && k0 <= k && SameCalls(calls, ccalls) && Params(params, s, k0)
    requires fun in arity ==> |params| == arity[fun]
    ensures Amounts(RunBranch(m, TailArms(data, arity, fun, params, parent, arms, scope, k).0, v, s, ccalls), fun,
                    params, ccalls)
         == EvalArms(m, data, arity, parent, arms, v, env, calls)
    decreases parent, 0, |arms|
  {
    hide Agree, SameCalls, Params, Fragment, Eval, TailOf, TailArms, PatCond, PatBind, RunTests, RunTail, RunBranch,
         EvalArms, Numbered, ScopeWith, PatNames, Amounts, BindEnv, BindStore, NulFree;
    if arms == [] {
      NoTailArms(m, data, arity, fun, params, parent, scope, k, v, env, s, calls, ccalls);
    } else {
      TailArmIs(data, arity, fun, params, parent, arms, scope, k);
      var bs := PatBind(arms[0].pat, Root);
      var x := TailOf(data, arity, fun, params, arms[0].body, ScopeWith(scope, bs, k), k + |bs|);
      var code := TailArm(PatCond(data, arms[0].pat, Root), Numbered(bs, k), x.0);
      var rest := TailArms(data, arity, fun, params, parent, arms[1..], scope, x.1).0;
      BranchStep(m, code, rest, v, s, ccalls);
      EvalArmsStep(m, data, arity, parent, arms, v, env, calls);
      Stops(fun, params, ccalls);
      match RunTests(code.tests, v)
      case None =>
      case Some(false) =>
        TailArmsCorrect(m, data, arity, fun, params, parent, arms[1..], v, scope, k0, x.1, env, s, calls, ccalls);
      case Some(true) =>
        ExtSelf(s, k0);
        AgreeLater(scope, env, s, s, k0, k);
        BindAgree(scope, env, s, k, bs, v);
        if BindEnv(env, bs, v).Some? {
          var env', t := BindEnv(env, bs, v).value, BindStore(s, code.binds, v).value;
          assert Fragment(data, arity, arms[0].body, env'.Keys) by { NamesBound(arms[0].pat, env, env'); }
          ExtLess(s, t, k0, k);
          ParamsLater(params, s, t, k0, k + |bs|);
          TailCorrect(m, data, arity, fun, params, arms[0].body, ScopeWith(scope, bs, k), k + |bs|, env', t, calls,
                      ccalls);
        }
    }
  }

  lemma NoTailArms(m: Prims, data: Data, arity: map<string, nat>, fun: string, params: seq<nat>, parent: Expr,
                   scope: Scope, k: nat, v: Boxed, env: Env, s: Store, calls: Calls, ccalls: Calls)
    ensures Amounts(RunBranch(m, TailArms(data, arity, fun, params, parent, [], scope, k).0, v, s, ccalls), fun,
                    params, ccalls)
         == EvalArms(m, data, arity, parent, [], v, env, calls)
  {}

  lemma Stops(fun: string, params: seq<nat>, calls: Calls)
    ensures Amounts(Stopped, fun, params, calls) == None
  {}

  // ------------------------------------------------------------ whole programs

  datatype Fun = Fun(params: seq<string>, body: Expr)

  type Program = map<string, Fun>

  function ArityOf(p: Program): map<string, nat> { map f | f in p :: |p[f].params| }

  /** The last of two parameters of one name counts. */
  function BindParams(params: seq<string>, args: seq<Boxed>): Env
    requires |params| == |args|
  {
    if params == [] then map[]
    else BindParams(params[..|params| - 1], args[..|args| - 1])[params[|params| - 1] := args[|args| - 1]]
  }

  function ParamScope(params: seq<string>): Scope {
    if params == [] then map[] else ParamScope(params[..|params| - 1])[params[|params| - 1] := |params|]
  }

  function ParamStore(args: seq<Boxed>): Store {
    if args == [] then map[] else ParamStore(args[..|args| - 1])[|args| := args[|args| - 1]]
  }

  /** A function's parameters are the first variables, then its body is a loop. */
  function CodeOf(data: Data, p: Program, f: string): TailCode
    requires f in p
  {
    TailOf(data, ArityOf(p), f, Temps(0, |p[f].params|), p[f].body, ParamScope(p[f].params), |p[f].params|).0
  }

  /** What a call means, as far as `fuel` nested calls tell. */
  function Meaning(m: Prims, data: Data, p: Program, fuel: nat, f: string, args: seq<Boxed>): Option<Boxed>
    decreases fuel
  {
    if fuel == 0 || f !in p || |args| != |p[f].params| then None
    else
      Eval(m, data, ArityOf(p), p[f].body, BindParams(p[f].params, args),
           (g: string, vs: seq<Boxed>) => Meaning(m, data, p, fuel - 1, g, vs))
  }

  /** What the compiled call computes: each round of the loop, like each call,
      takes one unit of `fuel`. */
  function Execution(m: Prims, data: Data, p: Program, fuel: nat, f: string, args: seq<Boxed>): Option<Boxed>
    decreases fuel
  {
    if fuel == 0 || f !in p || |args| != |p[f].params| then None
    else
      var calls: Calls := (g: string, vs: seq<Boxed>) => Execution(m, data, p, fuel - 1, g, vs);
      var params := Temps(0, |args|);
      match RunTail(m, CodeOf(data, p, f), ParamStore(args), calls)
      case Stopped => None
      case Result(v) => Some(v)
      case Round(s) =>
        match ReadParams(params, s)
        case None => None
        case Some(vs) => Execution(m, data, p, fuel - 1, f, vs)
  }

  lemma {:induction false} ParamsAgree(params: seq<string>, args: seq<Boxed>)
    requires |params| == |args|
    ensures Agree(ParamScope(params), BindParams(params, args), ParamStore(args), |args|)
    ensures forall x :: x in ParamStore(args) <==> 1 <= x <= |args|
    ensures forall n :: n in BindParams(params, args) <==> n in params
    decreases |params|
  {
    if params != [] {
      var n := |params| - 1;
      ParamsAgree(params[..n], args[..n]);
      ExtSelf(ParamStore(args[..n]), n);
      AgreeBind(ParamScope(params[..n]), BindParams(params[..n], args[..n]), ParamStore(args[..n]), n, params[n],
                n + 1, args[n]);
      assert params == params[..n] + [params[n]];
    }
  }

  ghost predicate Compilable(data: Data, p: Program) {
    forall f :: f in p ==> Fragment(data, ArityOf(p), p[f].body, set n | n in p[f].params)
  }

  /** The compiled program computes what the source means: the same value, or
      none, for every function, every argument and every amount of fuel. A loop
      is the recursion it stands for. */
  lemma {:induction false} CompiledMeans(m: Prims, data: Data, p: Program, fuel: nat, f: string, args: seq<Boxed>)
    requires Compilable(data, p)
    ensures Execution(m, data, p, fuel, f, args) == Meaning(m, data, p, fuel, f, args)
    decreases fuel
  {
    hide Agree, Eval, TailOf, RunTail, Fragment, ReadParams, ParamScope, ParamStore, BindParams;
    if fuel > 0 && f in p && |args| == |p[f].params| {
      var calls: Calls := (g: string, vs: seq<Boxed>) => Meaning(m, data, p, fuel - 1, g, vs);
      var ccalls: Calls := (g: string, vs: seq<Boxed>) => Execution(m, data, p, fuel - 1, g, vs);
      forall g, vs ensures calls(g, vs) == ccalls(g, vs) { CompiledMeans(m, data, p, fuel - 1, g, vs); }
      var params, env := p[f].params, BindParams(p[f].params, args);
      ParamsAgree(params, args);
      assert env.Keys == set n | n in params;
      TailCorrect(m, data, ArityOf(p), f, Temps(0, |params|), p[f].body, ParamScope(params), |params|, env,
                  ParamStore(args),
                  calls, ccalls);
    }
  }
}
