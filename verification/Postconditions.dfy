/** Inferred postconditions: how long a constructor's payload is at least, read
    off the arms above the one that binds it (src/refine.rs). */
module Postconditions {
  import opened Wrappers
  import opened Ast
  import opened Patterns

  type Lens = map<string, nat>

  function Strip(e: Expr): Expr { if e.Borrow? then Strip(e.operand) else e }

  function AsName(e: Expr): Option<string> {
    var s := Strip(e);
    if s.Var? || s.Ctor? then Some(s.name) else None
  }

  /** A chain of applications as its head and all its arguments. */
  function Flatten(e: Expr): (Expr, seq<Expr>) {
    if e.App? then var h := Flatten(e.head); (h.0, h.1 + e.args) else (e, [])
  }

  predicate Irrefutable(p: Pat) { p.PWild? || p.PVar? }

  /** The lengths an arm above rules out for the payload of `c`. */
  function Excluded(c: string, above: seq<Arm>): set<nat> {
    if above == [] then {}
    else
      var q := above[0].pat;
      (if q.PCtor? && q.ctor == c && |q.args| == 1 && q.args[0].PList?
          && (forall i :: 0 <= i < |q.args[0].items| ==> Irrefutable(q.args[0].items[i]))
       then {|q.args[0].items|} else {}) + Excluded(c, above[1..])
  }

  /** The least number from `k` on that is not in the set. */
  function Least(s: set<nat>, k: nat): (r: nat)
    ensures r >= k && r !in s
    decreases |s|
  {
    if k !in s then k
    else
      Smaller(s, k);
      var r := Least(s - {k}, k + 1);
      assert r != k && (r in s ==> r in s - {k});
      r
  }

  lemma {:induction false} LeastAll(s: set<nat>, k: nat, j: nat)
    requires k <= j < Least(s, k)
    ensures j in s
    decreases |s|
  {
    Smaller(s, k);
    if j > k { LeastAll(s - {k}, k + 1, j); }
  }

  lemma Smaller(s: set<nat>, k: nat)
    requires k in s
    ensures |s - {k}| < |s|
  {}

  /** The bounds in force in an arm. */
  function ArmLens(p: Pat, above: seq<Arm>, env: Lens): Lens {
    var kept := env - set n | n in Names(p);
    if p.PCtor? && |p.args| == 1 && p.args[0].PVar? && Least(Excluded(p.ctor, above), 0) > 0 then
      kept[p.args[0].name := Least(Excluded(p.ctor, above), 0)]
    else kept
  }

  function Min(a: nat, b: nat): nat { if a < b then a else b }

  /** A returned value: what it says of its constructor. */
  function Leaf(e: Expr, env: Lens, out: Lens): Option<Lens> {
    var (h, args) := Flatten(e);
    if !h.Ctor? then None
    else
      var k: nat :=
        if |args| == 1 && AsName(args[0]).Some? && AsName(args[0]).value in env then env[AsName(args[0]).value] else 0;
      Some(out[h.name := if h.name in out then Min(out[h.name], k) else k])
  }

  /** Every tail position, the least bound of each constructor; nothing when some
      tail is not a constructor's. */
  function Tails(e: Expr, env: Lens, out: Lens): Option<Lens>
    decreases e
  {
    match e
    case Let(n, _, rest) => Tails(rest, env - {n}, out)
    case Bind(n, _, rest) => Tails(rest, env - {n}, out)
    case Arena(n, rest) => Tails(rest, env - {n}, out)
    case Match(_, arms) => TailsArms(e, arms, 0, env, out)
    case _ => Leaf(e, env, out)
  }

  function TailsArms(parent: Expr, arms: seq<Arm>, i: nat, env: Lens, out: Lens): Option<Lens>
    requires i <= |arms| && forall k :: 0 <= k < |arms| ==> arms[k] < parent
    decreases parent, |arms| - i
  {
    if i == |arms| then Some(out)
    else
      match Tails(arms[i].body, ArmLens(arms[i].pat, arms[..i], env), out)
      case None => None
      case Some(next) => TailsArms(parent, arms, i + 1, env, next)
  }

  /** What is inferred of a function: the positive bounds, if every tail is a
      constructor's. */
  function Inferred(body: Expr): Lens {
    match Tails(body, map[], map[])
    case None => map[]
    case Some(out) => map c | c in out && out[c] > 0 :: out[c]
  }

  // ---------------------------------------------------------- with mutable maps

  method ExcludedLengths(c: string, above: seq<Arm>) returns (s: set<nat>)
    ensures s == Excluded(c, above)
  {
    s := {};
    var i := 0;
    while i < |above|
      invariant 0 <= i <= |above| && s + Excluded(c, above[i..]) == Excluded(c, above)
    {
      var q := above[i].pat;
      assert above[i..][1..] == above[i + 1..];
      if q.PCtor? && q.ctor == c && |q.args| == 1 && q.args[0].PList? {
        var all := true;
        var j := 0;
        while j < |q.args[0].items|
          invariant 0 <= j <= |q.args[0].items|
          invariant all == forall m :: 0 <= m < j ==> Irrefutable(q.args[0].items[m])
        {
          all := all && Irrefutable(q.args[0].items[j]);
          j := j + 1;
        }
        if all { s := s + {|q.args[0].items|}; }
      }
      i := i + 1;
    }
  }

  method WithoutNames(env: Lens, names: seq<string>) returns (r: Lens)
    ensures r == env - set n | n in names
  {
    r := env;
    var i := 0;
    while i < |names|
      invariant 0 <= i <= |names| && r == env - set n | n in names[..i]
    {
      r := r - {names[i]};
      i := i + 1;
    }
    assert names[..i] == names;
  }

  method FirstMissing(s: set<nat>) returns (k: nat)
    ensures k == Least(s, 0)
  {
    k := 0;
    ghost var left := s;
    while k in s
      invariant left <= s && (forall j: nat :: j in s && j >= k ==> j in left) && forall j: nat :: j < k ==> j in s
      decreases |left|
    {
      Smaller(left, k);
      left := left - {k};
      k := k + 1;
    }
    assert Least(s, 0) !in s;
    if k < Least(s, 0) { LeastAll(s, 0, k); }
  }

  method ArmBounds(p: Pat, above: seq<Arm>, env: Lens) returns (r: Lens)
    ensures r == ArmLens(p, above, env)
  {
    hide Excluded, Names, Least;
    r := WithoutNames(env, Names(p));
    if !p.PCtor? || |p.args| != 1 || !p.args[0].PVar? { return; }
    var excluded := ExcludedLengths(p.ctor, above);
    var k := FirstMissing(excluded);
    if k > 0 { r := r[p.args[0].name := k]; }
  }

  /** Fills in `out`, giving up at the first tail that is no constructor's. */
  method FillTails(e: Expr, env: Lens, out: Lens) returns (ok: bool, r: Lens)
    ensures Tails(e, env, out) == if ok then Some(r) else None
    decreases e
  {
    hide ArmLens, Leaf;
    r := out;
    match e
    case Let(n, _, rest) => ok, r := FillTails(rest, env - {n}, out);
    case Bind(n, _, rest) => ok, r := FillTails(rest, env - {n}, out);
    case Arena(n, rest) => ok, r := FillTails(rest, env - {n}, out);
    case Match(_, arms) =>
      ok := true;
      var i := 0;
      while i < |arms|
        invariant 0 <= i <= |arms| && ok
        invariant TailsArms(e, arms, i, env, r) == TailsArms(e, arms, 0, env, out)
      {
        var bounds := ArmBounds(arms[i].pat, arms[..i], env);
        ok, r := FillTails(arms[i].body, bounds, r);
        if !ok { return; }
        i := i + 1;
      }
    case _ =>
      var leaf := Leaf(e, env, out);
      ok := leaf.Some?;
      if ok { r := leaf.value; }
  }

  // ------------------------------------------------------------------ evaluation

  type Env = map<string, Value>

  /** Any semantics of what is not in tail position. */
  type Oracle = (Expr, Env) -> Option<Value>

  /** Matching one value: taken with what it binds, passed over, or stopped where
      the runtime's check of a tag fails. */
  datatype Try = Hit(env: Env) | Miss | Abort

  function TryPat(p: Pat, v: Value, env: Env): Try
    decreases p
  {
    match p
    case PWild => Hit(env)
    case PVar(n) => Hit(env[n := v])
    case PInt(n) => if v == VInt(n) then Hit(env) else Miss
    case PFloat(x) => if v == VFloat(x) then Hit(env) else Miss
    case PStr(s) => if v == VStr(s) then Hit(env) else Miss
    case PChar(c) => if v == VChar(c) then Hit(env) else Miss
    case PBool(b) => if v == VBool(b) then Hit(env) else Miss
    case PCtor(c, ps) =>
      if IsBoolCtor(c) then (if v == VBool(c == "True") then Hit(env) else Miss)
      else if !v.VCtor? then Abort
      else if v.ctor != c then Miss
      else TryAll(p, ps, v.args, env)
    case PList(ps) =>
      if !v.VList? then Abort else if |v.items| != |ps| then Miss else TryAll(p, ps, v.items, env)
    case PTuple(ps) => if !v.VTuple? then Abort else TryAll(p, ps, v.parts, env)
  }

  function TryAll(parent: Pat, ps: seq<Pat>, vs: seq<Value>, env: Env): Try
    requires forall i :: 0 <= i < |ps| ==> ps[i] < parent
    decreases parent, |ps|
  {
    if ps == [] then Hit(env)
    else if vs == [] then Abort
    else
      match TryPat(ps[0], vs[0], env)
      case Hit(env') => TryAll(parent, ps[1..], vs[1..], env')
      case t => t
  }

  function Eval(ev: Oracle, e: Expr, env: Env): Option<Value>
    decreases e
  {
    match e
    case Let(n, v, rest) => (match ev(v, env) case None => None case Some(x) => Eval(ev, rest, env[n := x]))
    case Bind(n, v, rest) => (match ev(v, env) case None => None case Some(x) => Eval(ev, rest, env[n := x]))
    case Arena(n, rest) => Eval(ev, rest, env[n := VOther])
    case Match(s, arms) => (match ev(s, env) case None => None case Some(v) => EvalArms(ev, e, arms, 0, v, env))
    case _ => ev(e, env)
  }

  function EvalArms(ev: Oracle, parent: Expr, arms: seq<Arm>, i: nat, v: Value, env: Env): Option<Value>
    requires i <= |arms| && forall k :: 0 <= k < |arms| ==> arms[k] < parent
    decreases parent, |arms| - i
  {
    if i == |arms| then None
    else
      match TryPat(arms[i].pat, v, env)
      case Abort => None
      case Miss => EvalArms(ev, parent, arms, i + 1, v, env)
      case Hit(env') => Eval(ev, arms[i].body, env')
  }

  /** Names read as what they are bound to, borrowing changes nothing, and a
      constructor applied builds a value of that constructor, or a function. */
  ghost predicate Faithful(ev: Oracle) {
    && (forall n, env :: n in env ==> ev(Var(n), env) == Some(env[n]))
    && (forall x, env :: ev(Borrow(x), env) == ev(x, env))
    && forall e, env :: Flatten(e).0.Ctor? && ev(e, env).Some? && ev(e, env).value.VCtor? ==>
         && ev(e, env).value.ctor == Flatten(e).0.name
         && (|Flatten(e).1| == 1 && |ev(e, env).value.args| == 1 ==>
             ev(Flatten(e).1[0], env) == Some(ev(e, env).value.args[0]))
  }

  predicate Capital(n: string) { n != "" && 'A' <= n[0] <= 'Z' }

  /** `True` and `False` are no constructors' names, and bound names are not capitalised. */
  ghost predicate LexedPat(p: Pat) {
    (p.PCtor? ==> !IsBoolCtor(p.ctor)) && forall n :: n in Names(p) ==> !Capital(n)
  }

  /** As the lexer has it: constructors are capitalised, bound names are not. */
  ghost predicate Lexed(e: Expr)
    decreases e
  {
    match e
    case Let(_, _, rest) => Lexed(rest)
    case Bind(_, _, rest) => Lexed(rest)
    case Arena(_, rest) => Lexed(rest)
    case Match(_, arms) =>
      forall i :: 0 <= i < |arms| ==> Lexed(arms[i].body) && LexedPat(arms[i].pat)
    case _ => forall a :: a in Flatten(e).1 && Strip(a).Ctor? ==> Capital(Strip(a).name)
  }

  // ------------------------------------------------------------------- soundness

  predicate AtLeast(v: Value, k: nat) { v.VList? && |v.items| >= k }

  /** The bounds hold of what the names stand for. */
  ghost predicate Bounds(lens: Lens, env: Env) {
    forall n :: n in lens ==> n in env && lens[n] > 0 && !Capital(n) && AtLeast(env[n], lens[n])
  }

  /** A result is as the bounds say. */
  ghost predicate Meets(r: Option<Value>, out: Lens) {
    r.Some? && r.value.VCtor? ==>
      r.value.ctor in out && (|r.value.args| == 1 && out[r.value.ctor] > 0 ==>
          AtLeast(r.value.args[0], out[r.value.ctor]))
  }

  /** Bounds only come down, and none is forgotten. */
  ghost predicate Lowers(out: Lens, out': Lens) {
    forall c :: c in out ==> c in out' && out'[c] <= out[c]
  }

  lemma MeetsLower(r: Option<Value>, out: Lens, out': Lens)
    requires Meets(r, out) && Lowers(out, out')
    ensures Meets(r, out')
  {}

  lemma {:induction false} StripReads(ev: Oracle, e: Expr, env: Env)
    requires Faithful(ev)
    ensures ev(e, env) == ev(Strip(e), env)
    decreases e
  {
    if e.Borrow? { StripReads(ev, e.operand, env); }
  }

  lemma {:induction false} IrrefutableHits(parent: Pat, ps: seq<Pat>, vs: seq<Value>, env: Env)
    requires (forall i :: 0 <= i < |ps| ==> ps[i] < parent && Irrefutable(ps[i])) && |vs| == |ps|
    ensures TryAll(parent, ps, vs, env).Hit?
    decreases |ps|
  {
    if ps != [] {
      var t := TryPat(ps[0], vs[0], env);
      IrrefutableHits(parent, ps[1..], vs[1..], t.env);
    }
  }

  /** A constructor's one argument decides, once the constructor is right. */
  lemma OnePat(q: Pat, v: Value, env: Env)
    requires q.PCtor? && |q.args| == 1 && !IsBoolCtor(q.ctor) && v.VCtor? && v.ctor == q.ctor && |v.args| >= 1
    ensures TryPat(q, v, env) == TryPat(q.args[0], v.args[0], env)
  {
    var ps, vs := q.args, v.args;
    var t := TryPat(ps[0], vs[0], env);
    assert ps[1..] == [];
    assert TryPat(q, v, env) == TryAll(q, ps, vs, env);
    if t.Hit? { assert TryAll(q, ps[1..], vs[1..], t.env) == Hit(t.env); }
  }

  /** An arm passed over rules out the length it tests. */
  lemma MissExcludes(q: Pat, c: string, v: Value, env: Env)
    requires q.PCtor? && q.ctor == c && |q.args| == 1 && q.args[0].PList? && !IsBoolCtor(c)
    requires forall i :: 0 <= i < |q.args[0].items| ==> Irrefutable(q.args[0].items[i])
    requires v.VCtor? && v.ctor == c && |v.args| >= 1 && TryPat(q, v, env) == Miss
    ensures v.args[0].VList? && |v.args[0].items| != |q.args[0].items|
  {
    var l, x := q.args[0], v.args[0];
    OnePat(q, v, env);
    if x.VList? && |x.items| == |l.items| { IrrefutableHits(l, l.items, x.items, env); }
  }

  lemma {:induction false} AllMissed(c: string, above: seq<Arm>, v: Value, env: Env)
    requires (forall i :: 0 <= i < |above| ==> TryPat(above[i].pat, v, env) == Miss) && !IsBoolCtor(c)
    requires v.VCtor? && v.ctor == c && |v.args| >= 1
    ensures Excluded(c, above) != {} ==> v.args[0].VList? && |v.args[0].items| !in Excluded(c, above)
  {
    hide TryPat;
    if above != [] {
      AllMissed(c, above[1..], v, env);
      var q := above[0].pat;
      if q.PCtor? && q.ctor == c && |q.args| == 1 && q.args[0].PList?
         && (forall i :: 0 <= i < |q.args[0].items| ==> Irrefutable(q.args[0].items[i]))
      {
        MissExcludes(q, c, v, env);
      } else {
        assert Excluded(c, above) == Excluded(c, above[1..]);
      }
    }
  }

  lemma {:induction false} TryKeeps(p: Pat, v: Value, env: Env)
    ensures TryPat(p, v, env).Hit? ==>
              forall n :: n in env && n !in Names(p) ==>
                  n in TryPat(p, v, env).env && TryPat(p, v, env).env[n] == env[n]
    decreases p
  {
    match p
    case PCtor(_, ps) => if v.VCtor? { TryAllKeeps(p, ps, v.args, env); }
    case PList(ps) => if v.VList? { TryAllKeeps(p, ps, v.items, env); }
    case PTuple(ps) => if v.VTuple? { TryAllKeeps(p, ps, v.parts, env); }
    case _ =>
  }

  lemma {:induction false} TryAllKeeps(parent: Pat, ps: seq<Pat>, vs: seq<Value>, env: Env)
    requires forall i :: 0 <= i < |ps| ==> ps[i] < parent
    ensures TryAll(parent, ps, vs, env).Hit? ==>
              forall n :: n in env && n !in NamesOf(ps) ==>
                n in TryAll(parent, ps, vs, env).env && TryAll(parent, ps, vs, env).env[n] == env[n]
    decreases parent, |ps|
  {
    if ps != [] && vs != [] {
      TryKeeps(ps[0], vs[0], env);
      var t := TryPat(ps[0], vs[0], env);
      if t.Hit? { TryAllKeeps(parent, ps[1..], vs[1..], t.env); }
    }
  }

  /** In an arm reached by passing over those above, its bounds hold. */
  lemma ArmBound(arms: seq<Arm>, i: nat, v: Value, lens: Lens, env: Env)
    requires i < |arms| && Bounds(lens, env) && LexedPat(arms[i].pat)
    requires forall j :: 0 <= j < i ==> TryPat(arms[j].pat, v, env) == Miss
    requires TryPat(arms[i].pat, v, env).Hit?
    ensures Bounds(ArmLens(arms[i].pat, arms[..i], lens), TryPat(arms[i].pat, v, env).env)
  {
    hide TryPat, Excluded;
    var p := arms[i].pat;
    TryKeeps(p, v, env);
    if p.PCtor? && |p.args| == 1 && p.args[0].PVar? && Least(Excluded(p.ctor, arms[..i]), 0) > 0 {
      PayloadBound(arms[..i], p, v, env);
    }
  }

  lemma PayloadBound(above: seq<Arm>, p: Pat, v: Value, env: Env)
    requires p.PCtor? && |p.args| == 1 && p.args[0].PVar? && !IsBoolCtor(p.ctor)
    requires Least(Excluded(p.ctor, above), 0) > 0
    requires forall j :: 0 <= j < |above| ==> TryPat(above[j].pat, v, env) == Miss
    requires TryPat(p, v, env).Hit?
    ensures var n := p.args[0].name; var env' := TryPat(p, v, env).env;
            n in env' && AtLeast(env'[n], Least(Excluded(p.ctor, above), 0)) && n in Names(p)
  {
    hide Excluded, TryPat;
    NamesOne(p);
    PayloadRead(p, v, env);
    AllMissed(p.ctor, above, v, env);
    var s := Excluded(p.ctor, above);
    LeastAll(s, 0, 0);
    var n := |v.args[0].items|;
    if n < Least(s, 0) { LeastAll(s, 0, n); }
  }

  lemma NamesOne(p: Pat)
    requires p.PCtor? && |p.args| == 1 && p.args[0].PVar?
    ensures Names(p) == [p.args[0].name]
  {
    var a := p.args[0];
    assert p.args[1..] == [] && Names(a) == [a.name];
    assert NamesOf(p.args) == Names(a) + NamesOf([]);
  }

  lemma PayloadRead(p: Pat, v: Value, env: Env)
    requires p.PCtor? && |p.args| == 1 && p.args[0].PVar? && !IsBoolCtor(p.ctor) && TryPat(p, v, env).Hit?
    ensures v.VCtor? && v.ctor == p.ctor && |v.args| >= 1
    ensures TryPat(p, v, env).env == env[p.args[0].name := v.args[0]]
  {
    if v.VCtor? && v.ctor == p.ctor {
      assert TryPat(p, v, env) == TryAll(p, p.args, v.args, env);
    }
    OnePat(p, v, env);
  }

  lemma LeafSound(ev: Oracle, e: Expr, lens: Lens, out: Lens, env: Env)
    requires Faithful(ev) && Bounds(lens, env) && Leaf(e, lens, out).Some?
    requires forall a :: a in Flatten(e).1 && Strip(a).Ctor? ==> Capital(Strip(a).name)
    ensures Lowers(out, Leaf(e, lens, out).value) && Meets(ev(e, env), Leaf(e, lens, out).value)
  {
    var (h, args) := Flatten(e);
    var r := ev(e, env);
    if r.Some? && r.value.VCtor? && |args| == 1 && AsName(args[0]).Some? && AsName(args[0]).value in lens {
      var n := AsName(args[0]).value;
      assert args[0] in args;
      StripReads(ev, args[0], env);
      assert Strip(args[0]) == Var(n);
    }
  }

  /** Every bound recorded holds of every value the body can yield. */
  lemma {:induction false} TailsSound(ev: Oracle, e: Expr, lens: Lens, out: Lens, env: Env)
    requires Faithful(ev) && Lexed(e) && Bounds(lens, env) && Tails(e, lens, out).Some?
    ensures Lowers(out, Tails(e, lens, out).value) && Meets(Eval(ev, e, env), Tails(e, lens, out).value)
    decreases e, 1
  {
    hide Faithful, Leaf, AtLeast, Meets, Lowers, Flatten;
    match e
    case Let(n, v, rest) => BinderSound(ev, e, n, rest, ev(v, env), lens, out, env);
    case Bind(n, v, rest) => BinderSound(ev, e, n, rest, ev(v, env), lens, out, env);
    case Arena(n, rest) => BinderSound(ev, e, n, rest, Some(VOther), lens, out, env);
    case Match(s, arms) =>
      if ev(s, env).Some? {
        ArmsSound(ev, e, arms, 0, ev(s, env).value, lens, out, env, true);
      } else {
        ArmsSound(ev, e, arms, 0, VOther, lens, out, env, false);
        NoneMeets(Tails(e, lens, out).value);
      }
    case _ => LeafSound(ev, e, lens, out, env);
  }

  lemma NoneMeets(out: Lens)
    ensures Meets(None, out)
  {}

  lemma {:induction false} BinderSound(ev: Oracle, e: Expr, n: string, rest: Expr, x: Option<Value>, lens: Lens,
                                       out: Lens, env: Env)
    requires Faithful(ev) && Lexed(e) && Bounds(lens, env) && Tails(rest, lens - {n}, out).Some? && rest < e
    requires Lexed(rest)
    ensures Lowers(out, Tails(rest, lens - {n}, out).value)
    ensures Meets(match x case None => None case Some(v) => Eval(ev, rest, env[n := v]),
                  Tails(rest, lens - {n}, out).value)
    decreases e, 0
  {
    hide Faithful, Meets, Lowers, AtLeast;
    var v := if x.Some? then x.value else VOther;
    BoundsDrop(lens, env, n, v);
    TailsSound(ev, rest, lens - {n}, out, env[n := v]);
    NoneMeets(Tails(rest, lens - {n}, out).value);
  }

  lemma BoundsDrop(lens: Lens, env: Env, n: string, v: Value)
    requires Bounds(lens, env)
    ensures Bounds(lens - {n}, env[n := v])
  {
    hide AtLeast;
  }

  lemma LowersChain(a: Lens, b: Lens, c: Lens)
    requires Lowers(a, b) && Lowers(b, c)
    ensures Lowers(a, c)
  {}

  /** The arms from `i` on, `v` having passed over those above when `live`; with
      no value to match, only the bounds are followed. */
  lemma {:induction false} ArmsSound(ev: Oracle, parent: Expr, arms: seq<Arm>, i: nat, v: Value, lens: Lens, out: Lens,
                                     env: Env, live: bool)
    requires i <= |arms|
    requires forall k :: 0 <= k < |arms| ==> arms[k] < parent && Lexed(arms[k].body) && LexedPat(arms[k].pat)
    requires Faithful(ev) && Bounds(lens, env) && TailsArms(parent, arms, i, lens, out).Some?
    requires live ==> forall j :: 0 <= j < i ==> TryPat(arms[j].pat, v, env) == Miss
    ensures Lowers(out, TailsArms(parent, arms, i, lens, out).value)
    ensures live ==> Meets(EvalArms(ev, parent, arms, i, v, env), TailsArms(parent, arms, i, lens, out).value)
    decreases parent, 0, |arms| - i
  {
    hide Faithful, Meets, Lowers, AtLeast, TryPat, ArmLens, LexedPat, Lexed, Bounds, Eval, Tails;
    if i == |arms| {
      LowersSelf(out);
      NoneMeets(out);
    } else {
      var p, body := arms[i].pat, arms[i].body;
      var bounds := ArmLens(p, arms[..i], lens);
      var next := Tails(body, bounds, out).value;
      var last := TailsArms(parent, arms, i, lens, out).value;
      var t := TryPat(p, v, env);
      NoneMeets(last);
      if live && t.Hit? {
        ArmBound(arms, i, v, lens, env);
        TailsSound(ev, body, bounds, out, t.env);
        ArmsSound(ev, parent, arms, i + 1, v, lens, next, env, false);
        MeetsLower(Eval(ev, body, t.env), next, last);
      } else {
        TailsLower(ev, body, bounds, out);
        ArmsSound(ev, parent, arms, i + 1, v, lens, next, env, live && t == Miss);
      }
      LowersChain(out, next, last);
    }
  }

  lemma LowersSelf(out: Lens)
    ensures Lowers(out, out)
  {}

  lemma {:induction false} TailsLower(ev: Oracle, e: Expr, lens: Lens, out: Lens)
    requires Tails(e, lens, out).Some?
    ensures Lowers(out, Tails(e, lens, out).value)
    decreases e, 1, 0
  {
    hide Lowers, ArmLens;
    match e
    case Let(n, _, rest) => TailsLower(ev, rest, lens - {n}, out);
    case Bind(n, _, rest) => TailsLower(ev, rest, lens - {n}, out);
    case Arena(n, rest) => TailsLower(ev, rest, lens - {n}, out);
    case Match(_, arms) => ArmsLower(ev, e, arms, 0, lens, out);
    case _ => LeafLowers(e, lens, out);
  }

  lemma LeafLowers(e: Expr, lens: Lens, out: Lens)
    requires Leaf(e, lens, out).Some?
    ensures Lowers(out, Leaf(e, lens, out).value)
  {
    hide Flatten;
  }

  lemma {:induction false} ArmsLower(ev: Oracle, parent: Expr, arms: seq<Arm>, i: nat, lens: Lens, out: Lens)
    requires i <= |arms| && forall k :: 0 <= k < |arms| ==> arms[k] < parent
    requires TailsArms(parent, arms, i, lens, out).Some?
    ensures Lowers(out, TailsArms(parent, arms, i, lens, out).value)
    decreases parent, 0, |arms| - i
  {
    hide Lowers, ArmLens, Tails;
    if i == |arms| {
      LowersSelf(out);
    } else {
      var bounds := ArmLens(arms[i].pat, arms[..i], lens);
      TailsLower(ev, arms[i].body, bounds, out);
      ArmsLower(ev, parent, arms, i + 1, lens, Tails(arms[i].body, bounds, out).value);
      LowersChain(out, Tails(arms[i].body, bounds, out).value, TailsArms(parent, arms, i, lens, out).value);
    }
  }

  /** An inferred bound holds: whenever the function yields the constructor on one
      payload, that payload is a list at least as long as recorded, whatever its
      arguments and whatever the rest of the program computes. */
  lemma InferredSound(ev: Oracle, body: Expr, env: Env, c: string, x: Value)
    requires Faithful(ev) && Lexed(body) && c in Inferred(body) && Eval(ev, body, env) == Some(VCtor(c, [x]))
    ensures AtLeast(x, Inferred(body)[c])
  {
    hide Faithful, Lexed, Tails, Eval;
    var none: Lens := map[];
    assert Bounds(none, env);
    TailsSound(ev, body, none, none, env);
  }

  // ------------------------------------------------------------------- exactness

  /** A tail position: the constructor it applies, if it does, and how long its one
      argument is known to be. */
  datatype Claim = Claim(ctor: Option<string>, k: nat)

  function ClaimOf(e: Expr, env: Lens): Claim {
    var (h, args) := Flatten(e);
    if !h.Ctor? then Claim(None, 0)
    else if |args| == 1 && AsName(args[0]).Some? && AsName(args[0]).value in env
      then Claim(Some(h.name), env[AsName(args[0]).value])
    else Claim(Some(h.name), 0)
  }

  /** What a tail position says of its payload: the bound of the name that it is, borrowed or
      not, and nothing where it is no name; arguments may come one at a time. */
  lemma ClaimReads(c: string, n: string, x: Expr, h: Expr, xs: seq<Expr>, ys: seq<Expr>, env: Lens)
    ensures ClaimOf(App(Ctor(c), [Var(n)]), env) == Claim(Some(c), if n in env then env[n] else 0)
    ensures ClaimOf(App(Ctor(c), [Borrow(x)]), env) == ClaimOf(App(Ctor(c), [x]), env)
    ensures ClaimOf(App(App(h, xs), ys), env) == ClaimOf(App(h, xs + ys), env)
  {
    forall y: Expr ensures Flatten(App(Ctor(c), [y])) == (Ctor(c), [y]) {
      var none: seq<Expr> := [];
      assert Flatten(Ctor(c)) == (Ctor(c), none) && none + [y] == [y];
    }
    assert AsName(Borrow(x)) == AsName(x);
    assert Flatten(App(App(h, xs), ys)) == (Flatten(h).0, Flatten(h).1 + xs + ys);
    assert Flatten(h).1 + xs + ys == Flatten(h).1 + (xs + ys);
  }

  /** The patterns that are not tested are exactly those every value gets past. */
  lemma IrrefutableIff(p: Pat)
    ensures Irrefutable(p) <==> AlwaysHits(p)
  {
    var none: Env := map[];
    if !Irrefutable(p) {
      assert !TryPat(p, VOther, none).Hit?;
    }
  }

  ghost predicate AlwaysHits(p: Pat) { forall v, env :: TryPat(p, v, env).Hit? }

  /** All the tail positions, from left to right. */
  function Claims(e: Expr, env: Lens): seq<Claim>
    decreases e
  {
    match e
    case Let(n, _, rest) => Claims(rest, env - {n})
    case Bind(n, _, rest) => Claims(rest, env - {n})
    case Arena(n, rest) => Claims(rest, env - {n})
    case Match(_, arms) => ClaimsArms(e, arms, 0, env)
    case _ => [ClaimOf(e, env)]
  }

  function ClaimsArms(parent: Expr, arms: seq<Arm>, i: nat, env: Lens): seq<Claim>
    requires i <= |arms| && forall k :: 0 <= k < |arms| ==> arms[k] < parent
    decreases parent, |arms| - i
  {
    if i == |arms| then []
    else Claims(arms[i].body, ArmLens(arms[i].pat, arms[..i], env)) + ClaimsArms(parent, arms, i + 1, env)
  }

  /** Taking the claims up one after the other. */
  function Absorb(out: Lens, cs: seq<Claim>): Option<Lens>
    decreases |cs|
  {
    if cs == [] then Some(out)
    else if cs[0].ctor == None then None
    else
      var c := cs[0].ctor.value;
      Absorb(out[c := if c in out then Min(out[c], cs[0].k) else cs[0].k], cs[1..])
  }

  lemma {:induction false} AbsorbConcat(out: Lens, a: seq<Claim>, b: seq<Claim>)
    ensures Absorb(out, a + b) == match Absorb(out, a) case None => None case Some(next) => Absorb(next, b)
    decreases |a|
  {
    if a == [] {
      assert a + b == b;
    } else {
      assert (a + b)[1..] == a[1..] + b;
      if a[0].ctor.Some? {
        var c := a[0].ctor.value;
        AbsorbConcat(out[c := if c in out then Min(out[c], a[0].k) else a[0].k], a[1..], b);
      }
    }
  }

  lemma LeafAbsorbs(e: Expr, env: Lens, out: Lens)
    ensures Leaf(e, env, out) == Absorb(out, [ClaimOf(e, env)])
  {
    var cs := [ClaimOf(e, env)];
    assert cs[1..] == [];
  }

  lemma {:induction false} TailsAbsorb(e: Expr, env: Lens, out: Lens)
    ensures Tails(e, env, out) == Absorb(out, Claims(e, env))
    decreases e, 1
  {
    hide Leaf, ClaimOf, Absorb, ArmLens;
    match e
    case Let(n, _, rest) => TailsAbsorb(rest, env - {n}, out);
    case Bind(n, _, rest) => TailsAbsorb(rest, env - {n}, out);
    case Arena(n, rest) => TailsAbsorb(rest, env - {n}, out);
    case Match(_, arms) => ArmsAbsorb(e, arms, 0, env, out);
    case _ => LeafAbsorbs(e, env, out);
  }

  lemma {:induction false} ArmsAbsorb(parent: Expr, arms: seq<Arm>, i: nat, env: Lens, out: Lens)
    requires i <= |arms| && forall k :: 0 <= k < |arms| ==> arms[k] < parent
    ensures TailsArms(parent, arms, i, env, out) == Absorb(out, ClaimsArms(parent, arms, i, env))
    decreases parent, 0, |arms| - i
  {
    hide Leaf, ClaimOf, ArmLens, Tails, Claims;
    if i < |arms| {
      var bounds := ArmLens(arms[i].pat, arms[..i], env);
      var here := Claims(arms[i].body, bounds);
      TailsAbsorb(arms[i].body, bounds, out);
      AbsorbConcat(out, here, ClaimsArms(parent, arms, i + 1, env));
      if Absorb(out, here).Some? { ArmsAbsorb(parent, arms, i + 1, env, Absorb(out, here).value); }
    }
  }

  /** `k` is the least that is claimed of `c`. */
  ghost predicate LeastClaim(cs: seq<Claim>, c: string, k: nat) {
    Claim(Some(c), k) in cs && forall j :: Claim(Some(c), j) in cs ==> k <= j
  }

  ghost predicate AllClaim(cs: seq<Claim>) { forall i :: 0 <= i < |cs| ==> cs[i].ctor.Some? }

  /** What was there before counts as one more claim. */
  ghost predicate LeastWith(out: Lens, cs: seq<Claim>, c: string, k: nat) {
    && ((c in out && out[c] == k) || Claim(Some(c), k) in cs)
    && (c in out ==> k <= out[c]) && forall j :: Claim(Some(c), j) in cs ==> k <= j
  }

  lemma {:induction false} AbsorbExact(out: Lens, cs: seq<Claim>, c: string, k: nat)
    ensures Absorb(out, cs).Some? <==> AllClaim(cs)
    ensures Absorb(out, cs).Some? ==>
              (c in Absorb(out, cs).value && Absorb(out, cs).value[c] == k <==> LeastWith(out, cs, c, k))
    decreases |cs|
  {
    hide LeastWith;
    if cs == [] {
      NothingClaimed(out, c, k);
    } else {
      assert forall i :: 1 <= i < |cs| ==> cs[i] == cs[1..][i - 1];
      if cs[0].ctor.Some? {
        var d := cs[0].ctor.value;
        var next := out[d := if d in out then Min(out[d], cs[0].k) else cs[0].k];
        AbsorbExact(next, cs[1..], c, k);
        OneMoreClaim(out, next, cs, c, k);
      }
    }
  }

  lemma NothingClaimed(out: Lens, c: string, k: nat)
    ensures LeastWith(out, [], c, k) <==> c in out && out[c] == k
  {}

  lemma OneMoreClaim(out: Lens, next: Lens, cs: seq<Claim>, c: string, k: nat)
    requires cs != [] && cs[0].ctor.Some?
    requires var d := cs[0].ctor.value; next == out[d := if d in out then Min(out[d], cs[0].k) else cs[0].k]
    ensures LeastWith(next, cs[1..], c, k) <==> LeastWith(out, cs, c, k)
  {
    forall x ensures x in cs <==> x == cs[0] || x in cs[1..] {}
    assert cs[0] == Claim(Some(cs[0].ctor.value), cs[0].k);
    assert cs[0] in cs;
    if c == cs[0].ctor.value {
      assert next[c] == k ==> (c in out && out[c] == k) || Claim(Some(c), k) == cs[0];
    }
  }

  /** Something is inferred of a constructor exactly where every tail position applies one,
      and the least known of its payload over all those that apply it is not zero: that. */
  lemma InferredIff(body: Expr, c: string, k: nat)
    ensures c in Inferred(body) && Inferred(body)[c] == k
       <==> AllClaim(Claims(body, map[])) && LeastClaim(Claims(body, map[]), c, k) && k > 0
  {
    hide Tails, Claims, Absorb, AllClaim;
    TailsAbsorb(body, map[], map[]);
    AbsorbExact(map[], Claims(body, map[]), c, k);
  }

  /** The arms whose tests are followed: another constructor, or a list of names and wildcards. */
  predicate Followed(q: Pat, c: string) {
    && q.PCtor? && !IsBoolCtor(q.ctor)
    && (q.ctor == c ==>
          && |q.args| == 1 && q.args[0].PList?
          && forall i :: 0 <= i < |q.args[0].items| ==> Irrefutable(q.args[0].items[i]))
  }

  /** A payload of `k` elements. */
  function OfLength(c: string, k: nat): Value { VCtor(c, [VList(seq(k, _ => VOther))]) }

  lemma {:induction false} ExcludedHas(c: string, above: seq<Arm>, j: nat)
    requires j < |above| && Followed(above[j].pat, c) && above[j].pat.ctor == c
    ensures |above[j].pat.args[0].items| in Excluded(c, above)
  {
    if j > 0 {
      assert above[1..][j - 1] == above[j];
      ExcludedHas(c, above[1..], j - 1);
    }
  }

  /** The bound of an arm cannot be raised: below arms whose tests are followed, a payload of just
      that length is passed on to it. */
  lemma ArmBoundTight(c: string, above: seq<Arm>, j: nat, env: Env)
    requires j < |above| && Followed(above[j].pat, c) && !IsBoolCtor(c)
    ensures TryPat(above[j].pat, OfLength(c, Least(Excluded(c, above), 0)), env) == Miss
  {
    hide Excluded, Least;
    var q, k := above[j].pat, Least(Excluded(c, above), 0);
    if q.ctor == c {
      ExcludedHas(c, above, j);
      OnePat(q, OfLength(c, k), env);
      assert |OfLength(c, k).args[0].items| == k;
    }
  }
}
