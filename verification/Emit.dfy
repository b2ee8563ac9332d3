/** The C that bodies compile to, and what it computes (src/codegen.rs): delayed
    expressions, fresh variables, and one loop for self tail calls. */
module Emit {
  import opened Wrappers
  import opened Ast
  import opened MatchCode
  import opened Patterns

  /** The C variables in scope, by number. */
  type Store = map<nat, Boxed>

  /** What calling a function of the module yields, if it yields anything. */
  type Calls = (string, seq<Boxed>) -> Option<Boxed>

  datatype Maker = ATuple | AList | ACtor(name: string) | ABuiltin(name: string)

  /** The runtime's operators and constructors; any of them may stop the program. */
  datatype Prims = Prims(bin: (BinOp, Boxed, Boxed) -> Option<Boxed>, neg: Boxed -> Option<Boxed>,
                         make: (Maker, seq<Boxed>) -> Option<Boxed>)

  /** The unit value, which nothing takes apart. */
  const UNIT: Boxed := BOther

  function Truth(v: Boxed): Option<bool> { if v.BBool? then Some(v.b) else None }

  // ----------------------------------------------------------- what source means

  function LitOf(e: Expr): Option<Boxed> {
    match e
    case Int(n) => Some(IntLit(n))
    case Float(x) => Some(BFloat(x))
    case Str(s) => Some(BStr(s))
    case Char(c) => Some(BChar(c))
    case Bool(b) => Some(BBool(b))
    case Unit => Some(UNIT)
    case _ => None
  }

  /** A literal as it is emitted: a string goes through `vb_strz`, which cuts it. */
  function EmittedLit(e: Expr): Option<Boxed> { if e.Str? then Some(BStr(Cut(e.s))) else LitOf(e) }

  /** A call of a module function; every other application is of a constructor
      or of a name the runtime defines. */
  predicate Calling(arity: map<string, nat>, e: Expr) {
    e.App? && e.head.Var? && e.head.name in arity && arity[e.head.name] == |e.args|
  }

  function MakerOf(h: Expr): Maker { if h.Ctor? then ACtor(h.name) else ABuiltin(if h.Var? then h.name else "") }

  function Eval(m: Prims, data: Data, arity: map<string, nat>, e: Expr, env: Env, calls: Calls): Option<Boxed>
    decreases e
  {
    match e
    case Var(n) => if n in env then Some(env[n]) else None
    case Ctor(n) => m.make(ACtor(n), [])
    case Borrow(x) => Eval(m, data, arity, x, env, calls)
    case Arena(_, x) => Eval(m, data, arity, x, env, calls)
    case Neg(x) => (match Eval(m, data, arity, x, env, calls) case None => None case Some(v) => m.neg(v))
    case Not(x) =>
      (match Eval(m, data, arity, x, env, calls)
       case None => None
       case Some(v) => (match Truth(v) case None => None case Some(b) => Some(BBool(!b))))
    case Binop(op, a, b) =>
      (match Eval(m, data, arity, a, env, calls)
       case None => None
       case Some(l) =>
         if ShortCircuit(op) then
           (match Truth(l)
            case None => None
            case Some(t) => if t == (op == And) then Eval(m, data, arity, b, env, calls) else Some(BBool(op == Or)))
         else (match Eval(m, data, arity, b, env, calls) case None => None case Some(r) => m.bin(op, l, r)))
    case Tuple(xs) =>
      (match EvalAll(m, data, arity, e, xs, env, calls) case None => None case Some(vs) => m.make(ATuple, vs))
    case List(xs) =>
      (match EvalAll(m, data, arity, e, xs, env, calls) case None => None case Some(vs) => m.make(AList, vs))
    case App(h, args) =>
      (match EvalAll(m, data, arity, e, args, env, calls)
       case None => None
       case Some(vs) => if Calling(arity, e) then calls(h.name, vs) else m.make(MakerOf(h), vs))
    case Let(n, v, b) =>
      (match Eval(m, data, arity, v, env, calls) case None => None case Some(x) => Eval(m, data, arity, b,
          env[n := x], calls))
    case Bind(n, v, b) =>
      (match Eval(m, data, arity, v, env, calls) case None => None case Some(x) => Eval(m, data, arity, b,
          env[n := x], calls))
    case Match(s, arms) =>
      (match Eval(m, data, arity, s, env, calls) case None => None case Some(v) => EvalArms(m, data, arity, e, arms,
          v, env, calls))
    case _ => LitOf(e)
  }

  function EvalAll(m: Prims, data: Data, arity: map<string, nat>, parent: Expr, es: seq<Expr>, env: Env,
                   calls: Calls): Option<seq<Boxed>>
    requires forall i :: 0 <= i < |es| ==> es[i] < parent
    decreases parent, |es|
  {
    if es == [] then Some([])
    else
      match Eval(m, data, arity, es[0], env, calls)
      case None => None
      case Some(v) =>
        match EvalAll(m, data, arity, parent, es[1..], env, calls)
        case None => None
        case Some(vs) => Some([v] + vs)
  }

  /** The first arm whose pattern fits, under what its names then stand for. */
  function EvalArms(m: Prims, data: Data, arity: map<string, nat>, parent: Expr, arms: seq<Arm>, v: Boxed, env: Env,
                    calls: Calls): Option<Boxed>
    requires forall i :: 0 <= i < |arms| ==> arms[i] < parent
    decreases parent, |arms|
  {
    if arms == [] then None
    else
      match Fits(data, arms[0].pat, Some(v))
      case None => None
      case Some(false) => EvalArms(m, data, arity, parent, arms[1..], v, env, calls)
      case Some(true) =>
        match Binds(arms[0].pat, Some(v), env)
        case None => None
        case Some(env') => Eval(m, data, arity, arms[0].body, env', calls)
  }

  // -------------------------------------------------------------- emitted code

  datatype CExpr =
    | CVar(x: nat)
    | CConst(v: Boxed)
    | CBin(op: BinOp, l: CExpr, r: CExpr)
    | CNeg(e: CExpr)
    | CNot(e: CExpr)
    | CMake(how: Maker, args: seq<CExpr>)

  datatype Stmt =
    | Decl(x: nat, e: CExpr)
    | DeclCall(x: nat, f: string, args: seq<CExpr>)
    | Assign(x: nat, e: CExpr)
    /** `if` the condition is `want`, the block */
    | Guard(cond: CExpr, want: bool, body: seq<Stmt>)
    /** one `if`, `else if`, ... `else` that fails */
    | Chain(sv: nat, arms: seq<CArm>)

  datatype CArm = CArm(tests: seq<Test>, binds: seq<(nat, Access)>, body: seq<Stmt>)

  datatype TailCode =
    | Do(first: seq<Stmt>, next: TailCode)
    | Branch(sv: nat, arms: seq<TailArm>)
    | Return(e: CExpr)
    /** the parameters take the temporaries' values, and the loop goes round */
    | Again(params: seq<nat>, temps: seq<nat>)

  datatype TailArm = TailArm(tests: seq<Test>, binds: seq<(nat, Access)>, body: TailCode)

  function CEval(m: Prims, e: CExpr, s: Store): Option<Boxed>
    decreases e
  {
    match e
    case CVar(x) => if x in s then Some(s[x]) else None
    case CConst(v) => Some(v)
    case CBin(op, l, r) =>
      (match CEval(m, l, s)
       case None => None
       case Some(a) => (match CEval(m, r, s) case None => None case Some(b) => m.bin(op, a, b)))
    case CNeg(x) => (match CEval(m, x, s) case None => None case Some(v) => m.neg(v))
    case CNot(x) =>
      (match CEval(m, x, s)
       case None => None
       case Some(v) => (match Truth(v) case None => None case Some(b) => Some(BBool(!b))))
    case CMake(how, args) => (match CEvalAll(m, e, args, s) case None => None case Some(vs) => m.make(how, vs))
  }

  function CEvalAll(m: Prims, parent: CExpr, es: seq<CExpr>, s: Store): Option<seq<Boxed>>
    requires forall i :: 0 <= i < |es| ==> es[i] < parent
    decreases parent, |es|
  {
    if es == [] then Some([])
    else
      match CEval(m, es[0], s)
      case None => None
      case Some(v) =>
        match CEvalAll(m, parent, es[1..], s)
        case None => None
        case Some(vs) => Some([v] + vs)
  }

  /** Leaving a block: its own variables are gone. */
  function Leave(s: Store, inner: Option<Store>): Option<Store> {
    match inner
    case None => None
    case Some(t) => if forall x :: x in s ==> x in t then Some(map x | x in s :: t[x]) else None
  }

  function BindStore(s: Store, bs: seq<(nat, Access)>, root: Boxed): Option<Store>
    decreases |bs|
  {
    if bs == [] then Some(s)
    else
      match Read(bs[0].1, root)
      case None => None
      case Some(v) => BindStore(s[bs[0].0 := v], bs[1..], root)
  }

  function Run(m: Prims, ss: seq<Stmt>, s: Store, calls: Calls): Option<Store>
    decreases ss
  {
    if ss == [] then Some(s)
    else
      match Step(m, ss[0], s, calls)
      case None => None
      case Some(t) => Run(m, ss[1..], t, calls)
  }

  function Step(m: Prims, st: Stmt, s: Store, calls: Calls): Option<Store>
    decreases st
  {
    match st
    case Decl(x, e) => (match CEval(m, e, s) case None => None case Some(v) => Some(s[x := v]))
    case DeclCall(x, f, args) =>
      (match CEvalAll(m, CMake(ATuple, args), args, s)
       case None => None
       case Some(vs) => (match calls(f, vs) case None => None case Some(v) => Some(s[x := v])))
    case Assign(x, e) =>
      if x !in s then None else (match CEval(m, e, s) case None => None case Some(v) => Some(s[x := v]))
    case Guard(cond, want, body) =>
      (match CEval(m, cond, s)
       case None => None
       case Some(v) =>
         match Truth(v)
         case None => None
         case Some(b) => if b == want then Leave(s, Run(m, body, s, calls)) else Some(s))
    case Chain(sv, arms) => if sv !in s then None else Leave(s, RunChain(m, arms, s[sv], s, calls))
  }

  function RunChain(m: Prims, arms: seq<CArm>, v: Boxed, s: Store, calls: Calls): Option<Store>
    decreases arms
  {
    if arms == [] then None
    else
      match RunTests(arms[0].tests, v)
      case None => None
      case Some(false) => RunChain(m, arms[1..], v, s, calls)
      case Some(true) =>
        match BindStore(s, arms[0].binds, v)
        case None => None
        case Some(t) => Run(m, arms[0].body, t, calls)
  }

  // ---------------------------------------------------------------- generation

  type Scope = map<string, nat>

  /** Statements, the expression that reads their result, and the counter after. */
  datatype Emitted = Emitted(out: seq<Stmt>, e: CExpr, k: nat)

  datatype EmittedAll = EmittedAll(out: seq<Stmt>, es: seq<CExpr>, k: nat)

  function Numbered(bs: seq<Binding>, k: nat): (r: seq<(nat, Access)>)
    ensures |r| == |bs|
  {
    if bs == [] then [] else [(k + 1, bs[0].at)] + Numbered(bs[1..], k + 1)
  }

  function ScopeWith(scope: Scope, bs: seq<Binding>, k: nat): Scope
    decreases |bs|
  {
    if bs == [] then scope else ScopeWith(scope[bs[0].name := k + 1], bs[1..], k + 1)
  }

  function Ex(data: Data, arity: map<string, nat>, e: Expr, scope: Scope, k: nat): (r: Emitted)
    ensures r.k >= k
    decreases e
  {
    match e
    case Var(n) => Emitted([], if n in scope then CVar(scope[n]) else CConst(UNIT), k)
    case Ctor(n) => Emitted([], CMake(ACtor(n), []), k)
    case Borrow(x) => Ex(data, arity, x, scope, k)
    case Arena(_, x) => Ex(data, arity, x, scope, k)
    case Neg(x) => var r := Ex(data, arity, x, scope, k); Emitted(r.out, CNeg(r.e), r.k)
    case Not(x) => var r := Ex(data, arity, x, scope, k); Emitted(r.out, CNot(r.e), r.k)
    case Binop(op, a, b) =>
      var l := Ex(data, arity, a, scope, k);
      if ShortCircuit(op) then
        var d := l.k + 1;
        var r := Ex(data, arity, b, scope, d);
        Emitted(l.out + [Decl(d, CConst(BBool(op == Or))), Guard(l.e, op == And, r.out + [Assign(d, r.e)])], CVar(d),
                r.k)
      else
        var r := Ex(data, arity, b, scope, l.k);
        Emitted(l.out + r.out, CBin(op, l.e, r.e), r.k)
    case Tuple(xs) => var r := ExAll(data, arity, e, xs, scope, k); Emitted(r.out, CMake(ATuple, r.es), r.k)
    case List(xs) => var r := ExAll(data, arity, e, xs, scope, k); Emitted(r.out, CMake(AList, r.es), r.k)
    case App(h, args) =>
      var r := ExAll(data, arity, e, args, scope, k);
      if Calling(arity, e) then Emitted(r.out + [DeclCall(r.k + 1, h.name, r.es)], CVar(r.k + 1), r.k + 1)
      else Emitted(r.out, CMake(MakerOf(h), r.es), r.k)
    case Let(n, v, b) => ExLet(data, arity, e, n, v, b, scope, k)
    case Bind(n, v, b) => ExLet(data, arity, e, n, v, b, scope, k)
    case Match(s, arms) =>
      var r := Ex(data, arity, s, scope, k);
      var d := r.k + 1;
      var sv := d + 1;
      var (cs, k') := ExArms(data, arity, e, arms, scope, sv, d);
      Emitted(r.out + [Decl(d, CConst(UNIT)), Decl(sv, r.e), Chain(sv, cs)], CVar(d), k')
    case _ => Emitted([], CConst(if EmittedLit(e).Some? then EmittedLit(e).value else UNIT), k)
  }

  function ExLet(data: Data, arity: map<string, nat>, parent: Expr, n: string, v: Expr, b: Expr, scope: Scope,
                 k: nat): (r: Emitted)
    requires v < parent && b < parent
    ensures r.k >= k
    decreases parent, 0
  {
    var x := Ex(data, arity, v, scope, k);
    var c := x.k + 1;
    var r := Ex(data, arity, b, scope[n := c], c);
    Emitted(x.out + [Decl(c, x.e)] + r.out, r.e, r.k)
  }

  function ExAll(data: Data, arity: map<string, nat>, parent: Expr, es: seq<Expr>, scope: Scope,
                 k: nat): (r: EmittedAll)
    requires forall i :: 0 <= i < |es| ==> es[i] < parent
    ensures r.k >= k && |r.es| == |es|
    decreases parent, |es|
  {
    if es == [] then EmittedAll([], [], k)
    else
      var x := Ex(data, arity, es[0], scope, k);
      var r := ExAll(data, arity, parent, es[1..], scope, x.k);
      EmittedAll(x.out + r.out, [x.e] + r.es, r.k)
  }

  function ExArms(data: Data, arity: map<string, nat>, parent: Expr, arms: seq<Arm>, scope: Scope, k: nat,
                  d: nat): (r: (seq<CArm>, nat))
    requires forall i :: 0 <= i < |arms| ==> arms[i] < parent
    ensures r.1 >= k && |r.0| == |arms|
    decreases parent, |arms|
  {
    if arms == [] then ([], k)
    else
      var bs := PatBind(arms[0].pat, Root);
      var k1 := k + |bs|;
      var x := Ex(data, arity, arms[0].body, ScopeWith(scope, bs, k), k1);
      var rest := ExArms(data, arity, parent, arms[1..], scope, x.k, d);
      ([CArm(PatCond(data, arms[0].pat, Root), Numbered(bs, k), x.out + [Assign(d, x.e)])] + rest.0, rest.1)
  }

  /** A self tail call: the back edge. */
  predicate BackEdge(fun: string, arity: map<string, nat>, e: Expr, scope: Scope) {
    Calling(arity, e) && e.head.name == fun && fun !in scope
  }

  function Temps(k: nat, n: nat): (r: seq<nat>)
    ensures |r| == n && forall i :: 0 <= i < n ==> r[i] == k + 1 + i
  {
    seq<nat>(n, i requires 0 <= i < n => k + 1 + i)
  }

  function Decls(xs: seq<nat>, es: seq<CExpr>): seq<Stmt>
    requires |xs| == |es|
  {
    if xs == [] then [] else [Decl(xs[0], es[0])] + Decls(xs[1..], es[1..])
  }

  /** `e` in tail position, inside the loop; and the counter after. */
  function TailOf(data: Data, arity: map<string, nat>, fun: string, params: seq<nat>, e: Expr, scope: Scope,
                  k: nat): (r: (TailCode, nat))
    ensures r.1 >= k
    decreases e
  {
    if e.Let? || e.Bind? then
      var x := Ex(data, arity, e.value, scope, k);
      var c := x.k + 1;
      var r := TailOf(data, arity, fun, params, e.body, scope[e.name := c], c);
      (Do(x.out + [Decl(c, x.e)], r.0), r.1)
    else if e.Match? then
      var x := Ex(data, arity, e.scrut, scope, k);
      var sv := x.k + 1;
      var r := TailArms(data, arity, fun, params, e, e.arms, scope, sv);
      (Do(x.out + [Decl(sv, x.e)], Branch(sv, r.0)), r.1)
    else if BackEdge(fun, arity, e, scope) then
      var r := ExAll(data, arity, e, e.args, scope, k);
      var ts := Temps(r.k, |e.args|);
      (Do(r.out + Decls(ts, r.es), Again(params, ts)), r.k + |e.args|)
    else
      var x := Ex(data, arity, e, scope, k);
      (Do(x.out, Return(x.e)), x.k)
  }

  function TailArms(data: Data, arity: map<string, nat>, fun: string, params: seq<nat>, parent: Expr, arms: seq<Arm>,
                    scope: Scope, k: nat): (r: (seq<TailArm>, nat))
    requires forall i :: 0 <= i < |arms| ==> arms[i] < parent
    ensures r.1 >= k && |r.0| == |arms|
    decreases parent, |arms|
  {
    if arms == [] then ([], k)
    else
      var bs := PatBind(arms[0].pat, Root);
      var x := TailOf(data, arity, fun, params, arms[0].body, ScopeWith(scope, bs, k), k + |bs|);
      var rest := TailArms(data, arity, fun, params, parent, arms[1..], scope, x.1);
      ([TailArm(PatCond(data, arms[0].pat, Root), Numbered(bs, k), x.0)] + rest.0, rest.1)
  }

  // ------------------------------------------------------------- the generator

  /** What the stack of scopes shows: the innermost binding of each name. */
  function Shown(scopes: seq<Scope>): Scope {
    if scopes == [] then map[] else Shown(scopes[..|scopes| - 1]) + scopes[|scopes| - 1]
  }

  lemma ShownPush(scopes: seq<Scope>, top: Scope)
    ensures Shown(scopes + [top]) == Shown(scopes) + top
  {
    assert (scopes + [top])[..|scopes|] == scopes;
  }

  function Rebound(scope: Scope, n: string, c: nat): Scope { scope[n := c] }

  lemma ShownBind(scopes: seq<Scope>, n: string, c: nat)
    requires scopes != []
    ensures var i := |scopes| - 1; Shown(scopes[i := Rebound(scopes[i], n, c)]) == Shown(scopes)[n := c]
  {
    var i := |scopes| - 1;
    assert scopes[i := Rebound(scopes[i], n, c)][..i] == scopes[..i];
  }

  /** The generator: a counter of variables and a stack of scopes. */
  class Gen {
    const data: Data
    const arity: map<string, nat>
    var tmp: nat
    var scopes: seq<Scope>

    constructor (data: Data, arity: map<string, nat>)
      ensures this.data == data && this.arity == arity && tmp == 0 && scopes == [map[]]
    {
      this.data, this.arity, tmp, scopes := data, arity, 0, [map[]];
    }

    method Fresh() returns (x: nat)
      modifies this`tmp
      ensures x == tmp == old(tmp) + 1
    {
      tmp := tmp + 1;
      x := tmp;
    }

    method PushScope()
      modifies this`scopes
      ensures scopes == old(scopes) + [map[]] && Shown(scopes) == Shown(old(scopes))
    {
      ShownPush(scopes, map[]);
      scopes := scopes + [map[]];
    }

    method PopScope()
      requires scopes != []
      modifies this`scopes
      ensures scopes == old(scopes[..|scopes| - 1])
    {
      scopes := scopes[..|scopes| - 1];
    }

    method BindName(n: string) returns (c: nat)
      requires scopes != []
      modifies this
      ensures c == tmp == old(tmp) + 1 && Shown(scopes) == Shown(old(scopes))[n := c]
      ensures |scopes| == |old(scopes)| && scopes[..|scopes| - 1] == old(scopes[..|scopes| - 1])
    {
      tmp := tmp + 1;
      c := tmp;
      var i := |scopes| - 1;
      ShownBind(scopes, n, c);
      scopes := scopes[i := Rebound(scopes[i], n, c)];
    }

    method Lookup(n: string) returns (r: Option<nat>)
      ensures r == if n in Shown(scopes) then Some(Shown(scopes)[n]) else None
    {
      var i := |scopes|;
      assert scopes[..i] == scopes;
      while i > 0
        invariant 0 <= i <= |scopes|
        invariant (n in Shown(scopes) <==> n in Shown(scopes[..i]))
        invariant (n in Shown(scopes[..i]) ==> Shown(scopes)[n] == Shown(scopes[..i])[n])
      {
        i := i - 1;
        assert scopes[..i + 1][..i] == scopes[..i];
        if n in scopes[i] { return Some(scopes[i][n]); }
      }
      r := None;
    }

    method BindPattern(bs: seq<Binding>) returns (r: seq<(nat, Access)>)
      requires scopes != []
      modifies this
      ensures r == Numbered(bs, old(tmp)) && tmp == old(tmp) + |bs|
      ensures Shown(scopes) == ScopeWith(Shown(old(scopes)), bs, old(tmp))
      ensures |scopes| == |old(scopes)| && scopes[..|scopes| - 1] == old(scopes[..|scopes| - 1])
      decreases |bs|
    {
      if bs == [] { return []; }
      var c := BindName(bs[0].name);
      var rest := BindPattern(bs[1..]);
      r := [(c, bs[0].at)] + rest;
    }

    /** The statements of `e`, and the expression that reads its result. */
    method Expr(e: Expr) returns (out: seq<Stmt>, c: CExpr)
      requires scopes != []
      modifies this
      ensures Emitted(out, c, tmp) == Ex(data, arity, e, Shown(old(scopes)), old(tmp)) && scopes == old(scopes)
      decreases e, 2, 0
    {
      hide Shown, ExAll, ExLet, ExArms, Calling, EmittedLit;
      match e
      case Var(n) =>
        var x := Lookup(n);
        out, c := [], if x.Some? then CVar(x.value) else CConst(UNIT);
      case Borrow(x) => out, c := Expr(x);
      case Arena(_, x) => out, c := Expr(x);
      case Neg(x) => out, c := Expr(x); c := CNeg(c);
      case Not(x) => out, c := Expr(x); c := CNot(c);
      case Binop(op, _, _) => if ShortCircuit(op) { out, c := Short(e); } else { out, c := Both(e); }
      case Tuple(_) => out, c := Listing(e);
      case List(_) => out, c := Listing(e);
      case App(_, _) => out, c := Applying(e);
      case Let(n, v, b) => out, c := Binder(e, n, v, b);
      case Bind(n, v, b) => out, c := Binder(e, n, v, b);
      case Match(_, _) => out, c := Matching(e);
      case Ctor(n) => out, c := [], CMake(ACtor(n), []);
      case _ => out, c := [], CConst(if EmittedLit(e).Some? then EmittedLit(e).value else UNIT);
    }

    method Listing(e: Expr) returns (out: seq<Stmt>, c: CExpr)
      requires scopes != [] && (e.Tuple? || e.List?)
      modifies this
      ensures Emitted(out, c, tmp) == Ex(data, arity, e, Shown(old(scopes)), old(tmp)) && scopes == old(scopes)
      decreases e, 1, 0
    {
      hide Shown, ExAll;
      var es;
      if e.Tuple? {
        out, es := Exprs(e, e.items);
        c := CMake(ATuple, es);
      } else {
        out, es := Exprs(e, e.items);
        c := CMake(AList, es);
      }
    }

    method Applying(e: Expr) returns (out: seq<Stmt>, c: CExpr)
      requires scopes != [] && e.App?
      modifies this
      ensures Emitted(out, c, tmp) == Ex(data, arity, e, Shown(old(scopes)), old(tmp)) && scopes == old(scopes)
      decreases e, 1, 0
    {
      hide Shown, ExAll;
      var es;
      out, es := Exprs(e, e.args);
      if Calling(arity, e) {
        var d := Fresh();
        out, c := out + [DeclCall(d, e.head.name, es)], CVar(d);
      } else {
        c := CMake(MakerOf(e.head), es);
      }
    }

    method Both(e: Expr) returns (out: seq<Stmt>, c: CExpr)
      requires scopes != [] && e.Binop? && !ShortCircuit(e.op)
      modifies this
      ensures Emitted(out, c, tmp) == Ex(data, arity, e, Shown(old(scopes)), old(tmp)) && scopes == old(scopes)
      decreases e, 1, 0
    {
      hide Shown;
      var l, a := Expr(e.left);
      var r, b := Expr(e.right);
      out, c := l + r, CBin(e.op, a, b);
    }

    method Short(e: Expr) returns (out: seq<Stmt>, c: CExpr)
      requires scopes != [] && e.Binop? && ShortCircuit(e.op)
      modifies this
      ensures Emitted(out, c, tmp) == Ex(data, arity, e, Shown(old(scopes)), old(tmp)) && scopes == old(scopes)
      decreases e, 1, 0
    {
      hide Shown;
      var l, a := Expr(e.left);
      var d := Fresh();
      var r, b := Expr(e.right);
      out := l + [Decl(d, CConst(BBool(e.op == Or))), Guard(a, e.op == And, r + [Assign(d, b)])];
      c := CVar(d);
    }

    method Exprs(parent: Expr, es: seq<Expr>) returns (out: seq<Stmt>, cs: seq<CExpr>)
      requires scopes != [] && forall i :: 0 <= i < |es| ==> es[i] < parent
      modifies this
      ensures EmittedAll(out, cs, tmp) == ExAll(data, arity, parent, es, Shown(old(scopes)), old(tmp))
      ensures scopes == old(scopes)
      decreases parent, 0, |es|
    {
      hide Shown, Ex;
      if es == [] { return [], []; }
      var first, c := Expr(es[0]);
      var rest, more := Exprs(parent, es[1..]);
      out, cs := first + rest, [c] + more;
    }

    method Binder(parent: Expr, n: string, v: Expr, b: Expr) returns (out: seq<Stmt>, c: CExpr)
      requires scopes != [] && v < parent && b < parent
      modifies this
      ensures Emitted(out, c, tmp) == ExLet(data, arity, parent, n, v, b, Shown(old(scopes)), old(tmp))
      ensures scopes == old(scopes)
      decreases parent, 0, 0
    {
      hide Shown, Ex;
      ghost var before := scopes;
      var first, x := Expr(v);
      PushScope();
      var d := BindName(n);
      var rest, y := Expr(b);
      PopScope();
      assert scopes == before;
      out, c := first + [Decl(d, x)] + rest, y;
    }

    method Matching(e: Expr) returns (out: seq<Stmt>, c: CExpr)
      requires scopes != [] && e.Match?
      modifies this
      ensures Emitted(out, c, tmp) == Ex(data, arity, e, Shown(old(scopes)), old(tmp)) && scopes == old(scopes)
      decreases e, 1, 0
    {
      hide Shown, ExArms;
      var first, s := Expr(e.scrut);
      var d := Fresh();
      var sv := Fresh();
      var arms := Arms(e, e.arms, d);
      out, c := first + [Decl(d, CConst(UNIT)), Decl(sv, s), Chain(sv, arms)], CVar(d);
    }

    method Arms(parent: Expr, arms: seq<Arm>, d: nat) returns (r: seq<CArm>)
      requires scopes != [] && forall i :: 0 <= i < |arms| ==> arms[i] < parent
      modifies this
      ensures (r, tmp) == ExArms(data, arity, parent, arms, Shown(old(scopes)), old(tmp), d) && scopes == old(scopes)
      decreases parent, 0, |arms|
    {
      hide Shown, Ex, Numbered, ScopeWith, PatCond, PatBind;
      if arms == [] { return []; }
      ghost var before := scopes;
      PushScope();
      var binds := BindPattern(PatBind(arms[0].pat, Root));
      var body, x := Expr(arms[0].body);
      PopScope();
      assert scopes == before;
      var rest := Arms(parent, arms[1..], d);
      r := [CArm(PatCond(data, arms[0].pat, Root), binds, body + [Assign(d, x)])] + rest;
    }

    /** `e` in tail position: a result, or another round. */
    method Tail(fun: string, params: seq<nat>, e: Expr) returns (c: TailCode)
      requires scopes != []
      modifies this
      ensures (c, tmp) == TailOf(data, arity, fun, params, e, Shown(old(scopes)), old(tmp)) && scopes == old(scopes)
      decreases e, 1, 0
    {
      hide Shown, Ex, ExAll, TailArms, Calling, Temps, Decls;
      ghost var before := scopes;
      if e.Let? || e.Bind? {
        var first, x := Expr(e.value);
        PushScope();
        var d := BindName(e.name);
        var rest := Tail(fun, params, e.body);
        PopScope();
        assert scopes == before;
        c := Do(first + [Decl(d, x)], rest);
      } else if e.Match? {
        var first, x := Expr(e.scrut);
        var sv := Fresh();
        var arms := TailChain(fun, params, e, e.arms);
        c := Do(first + [Decl(sv, x)], Branch(sv, arms));
      } else {
        c := TailEnd(fun, params, e);
      }
    }

    method TailEnd(fun: string, params: seq<nat>, e: Expr) returns (c: TailCode)
      requires scopes != [] && !e.Let? && !e.Bind? && !e.Match?
      modifies this
      ensures (c, tmp) == TailOf(data, arity, fun, params, e, Shown(old(scopes)), old(tmp)) && scopes == old(scopes)
      decreases e, 0, 0
    {
      hide Shown, Ex, ExAll, Decls;
      var shadow := Lookup(fun);
      if Calling(arity, e) && e.head.name == fun && shadow == None {
        var out, es := Exprs(e, e.args);
        var ts := Temps(tmp, |e.args|);
        tmp := tmp + |e.args|;
        c := Do(out + Decls(ts, es), Again(params, ts));
      } else {
        var out, x := Expr(e);
        c := Do(out, Return(x));
      }
    }

    method TailChain(fun: string, params: seq<nat>, parent: Expr, arms: seq<Arm>) returns (r: seq<TailArm>)
      requires scopes != [] && forall i :: 0 <= i < |arms| ==> arms[i] < parent
      modifies this
      ensures (r, tmp) == TailArms(data, arity, fun, params, parent, arms, Shown(old(scopes)), old(tmp))
      ensures scopes == old(scopes)
      decreases parent, 0, |arms|
    {
      hide Shown, TailOf, Numbered, ScopeWith, PatCond, PatBind;
      if arms == [] { return []; }
      ghost var before := scopes;
      PushScope();
      var binds := BindPattern(PatBind(arms[0].pat, Root));
      var body := Tail(fun, params, arms[0].body);
      PopScope();
      assert scopes == before;
      var rest := TailChain(fun, params, parent, arms[1..]);
      r := [TailArm(PatCond(data, arms[0].pat, Root), binds, body)] + rest;
    }
  }
}
