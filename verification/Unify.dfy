/** First-order unification over a triangular substitution, with an occurs check
    and the kinds of literal variables (src/types.rs). */
module Unify {
  import opened Wrappers

  datatype T = Var(i: nat) | Con(name: string, args: seq<T>) | Fun(dom: T,
                                                                   cod: T) | Tuple(parts: seq<T>) | Eff(inner: T)

  datatype Kind = Any | Num | Float

  /** A bound variable maps to a type that may mention bound variables in turn. */
  type Subst = seq<Option<T>>

  // ------------------------------------------------------------------ types

  predicate Wf(t: T, n: nat) {
    match t
    case Var(i) => i < n
    case Con(_, ts) => forall k :: 0 <= k < |ts| ==> Wf(ts[k], n)
    case Fun(a, b) => Wf(a, n) && Wf(b, n)
    case Tuple(ts) => forall k :: 0 <= k < |ts| ==> Wf(ts[k], n)
    case Eff(a) => Wf(a, n)
  }

  /** Whether variable `v` stands in `t`. */
  ghost predicate In(v: nat, t: T) {
    match t
    case Var(i) => i == v
    case Con(_, ts) => exists k :: 0 <= k < |ts| && In(v, ts[k])
    case Fun(a, b) => In(v, a) || In(v, b)
    case Tuple(ts) => exists k :: 0 <= k < |ts| && In(v, ts[k])
    case Eff(a) => In(v, a)
  }

  ghost function Size(t: T): nat
    decreases t
  {
    match t
    case Var(_) => 1
    case Con(_, ts) => 1 + SizeAll(t, ts)
    case Fun(a, b) => 1 + Size(a) + Size(b)
    case Tuple(ts) => 1 + SizeAll(t, ts)
    case Eff(a) => 1 + Size(a)
  }

  ghost function SizeAll(parent: T, ts: seq<T>): (n: nat)
    requires forall k :: 0 <= k < |ts| ==> ts[k] < parent
    ensures forall k :: 0 <= k < |ts| ==> Size(ts[k]) <= n
    decreases parent, |ts|
  {
    if ts == [] then 0 else Size(ts[0]) + SizeAll(parent, ts[1..])
  }

  // -------------------------------------------------------------- acyclicity

  /** One more than the largest rank of a variable in `t`. */
  ghost function Top(r: seq<nat>, t: T): nat
    decreases t
  {
    match t
    case Var(i) => if i < |r| then r[i] + 1 else 0
    case Con(_, ts) => TopAll(r, t, ts)
    case Fun(a, b) => Max(Top(r, a), Top(r, b))
    case Tuple(ts) => TopAll(r, t, ts)
    case Eff(a) => Top(r, a)
  }

  ghost function TopAll(r: seq<nat>, parent: T, ts: seq<T>): (n: nat)
    requires forall k :: 0 <= k < |ts| ==> ts[k] < parent
    ensures forall k :: 0 <= k < |ts| ==> Top(r, ts[k]) <= n
    decreases parent, |ts|
  {
    if ts == [] then 0 else Max(Top(r, ts[0]), TopAll(r, parent, ts[1..]))
  }

  function Max(a: nat, b: nat): nat { if a < b then b else a }

  /** Each bound variable ranks above everything in its type. */
  ghost predicate Ranked(s: Subst, r: seq<nat>) {
    |r| == |s| && forall v :: 0 <= v < |s| && s[v].Some? ==> Wf(s[v].value, |s|) && Top(r, s[v].value) <= r[v]
  }

  ghost predicate Acyclic(s: Subst) {
    exists r :: Ranked(s, r)
  }

  ghost function RankOf(s: Subst): (r: seq<nat>)
    requires Acyclic(s)
    ensures Ranked(s, r)
  {
    var r :| Ranked(s, r); r
  }

  // ------------------------------------------------------------- resolution

  function Resolve(s: Subst, t: T): (r: T)
    requires Acyclic(s) && Wf(t, |s|)
    ensures Wf(r, |s|)
    decreases Top(RankOf(s), t), t
  {
    match t
    case Var(i) => if s[i].Some? then Resolve(s, s[i].value) else t
    case Con(n, ts) => Con(n, ResolveAll(s, t, ts))
    case Fun(a, b) => Fun(Resolve(s, a), Resolve(s, b))
    case Tuple(ts) => Tuple(ResolveAll(s, t, ts))
    case Eff(a) => Eff(Resolve(s, a))
  }

  function ResolveAll(s: Subst, ghost parent: T, ts: seq<T>): (r: seq<T>)
    requires forall k :: 0 <= k < |ts| ==> ts[k] < parent
    requires Acyclic(s) && forall k :: 0 <= k < |ts| ==> Wf(ts[k], |s|)
    ensures |r| == |ts|
    ensures forall k :: 0 <= k < |ts| ==> r[k] == Resolve(s, ts[k])
    decreases TopAll(RankOf(s), parent, ts), parent, |ts|
  {
    if ts == [] then []
    else [Resolve(s, ts[0])] + ResolveAll(s, parent, ts[1..])
  }

  /** No variable of `t` is bound. */
  ghost predicate Resolved(s: Subst, t: T) {
    forall v: nat :: In(v, t) ==> v < |s| && s[v] == None
  }

  lemma {:induction false} ResolveIsResolved(s: Subst, t: T)
    requires Acyclic(s) && Wf(t, |s|)
    ensures Wf(Resolve(s, t), |s|) && Resolved(s, Resolve(s, t))
    decreases Top(RankOf(s), t), t
  {
    match t
    case Var(i) => if s[i].Some? { ResolveIsResolved(s, s[i].value); }
    case Con(_, ts) => ResolveAllResolved(s, t, ts);
    case Fun(a, b) => ResolveIsResolved(s, a); ResolveIsResolved(s, b);
    case Tuple(ts) => ResolveAllResolved(s, t, ts);
    case Eff(a) => ResolveIsResolved(s, a);
  }

  lemma {:induction false} ResolveAllResolved(s: Subst, parent: T, ts: seq<T>)
    requires forall k :: 0 <= k < |ts| ==> ts[k] < parent
    requires Acyclic(s) && forall k :: 0 <= k < |ts| ==> Wf(ts[k], |s|)
    ensures forall k :: 0 <= k < |ts| ==> Wf(Resolve(s, ts[k]), |s|) && Resolved(s, Resolve(s, ts[k]))
    decreases TopAll(RankOf(s), parent, ts), parent, |ts|
  {
    if ts != [] {
      ResolveIsResolved(s, ts[0]);
      ResolveAllResolved(s, parent, ts[1..]);
      assert forall k :: 1 <= k < |ts| ==> ts[k] == ts[1..][k - 1];
    }
  }

  lemma {:induction false} ResolvedIsFixed(s: Subst, t: T)
    requires Acyclic(s) && Wf(t, |s|) && Resolved(s, t)
    ensures Resolve(s, t) == t
    decreases t
  {
    match t
    case Var(i) => assert In(i, t);
    case Con(n, ts) =>
      forall k | 0 <= k < |ts| ensures Resolve(s, ts[k]) == ts[k] {
        ChildResolved(s, t, ts[k]);
        ResolvedIsFixed(s, ts[k]);
      }
      assert ResolveAll(s, t, ts) == ts;
    case Fun(a, b) =>
      ChildResolved(s, t, a);
      ChildResolved(s, t, b);
      ResolvedIsFixed(s, a);
      ResolvedIsFixed(s, b);
    case Tuple(ts) =>
      forall k | 0 <= k < |ts| ensures Resolve(s, ts[k]) == ts[k] {
        ChildResolved(s, t, ts[k]);
        ResolvedIsFixed(s, ts[k]);
      }
      assert ResolveAll(s, t, ts) == ts;
    case Eff(a) =>
      ChildResolved(s, t, a);
      ResolvedIsFixed(s, a);
  }

  ghost predicate Child(t: T, c: T) {
    match t
    case Var(_) => false
    case Con(_, ts) => c in ts
    case Fun(a, b) => c == a || c == b
    case Tuple(ts) => c in ts
    case Eff(a) => c == a
  }

  lemma ChildResolved(s: Subst, t: T, c: T)
    requires Child(t, c) && Resolved(s, t)
    ensures Resolved(s, c)
  {
    forall v | In(v, c) ensures In(v, t) {
      ChildIn(v, t, c);
    }
  }

  lemma ChildIn(v: nat, t: T, c: T)
    requires Child(t, c) && In(v, c)
    ensures In(v, t)
  {}

  lemma ChildWf(t: T, c: T, n: nat)
    requires Child(t, c) && Wf(t, n)
    ensures Wf(c, n)
  {}

  lemma ChildSize(t: T, c: T)
    requires Child(t, c)
    ensures Size(c) < Size(t)
  {
    match t
    case Con(_, ts) => assert exists k :: 0 <= k < |ts| && ts[k] == c;
    case Tuple(ts) => assert exists k :: 0 <= k < |ts| && ts[k] == c;
    case _ =>
  }

  // ------------------------------------------------------------ occurs check

  /** Whether `v` occurs in `t`, resolving as it goes. */
  predicate Occurs(s: Subst, v: nat, t: T)
    requires Acyclic(s) && Wf(t, |s|)
    decreases Size(Resolve(s, t))
  {
    var r := Resolve(s, t);
    ChildrenSmaller(s, t);
    match r
    case Var(i) => i == v
    case Con(_, ts) => exists k :: 0 <= k < |ts| && Occurs(s, v, ts[k])
    case Fun(a, b) => Occurs(s, v, a) || Occurs(s, v, b)
    case Tuple(ts) => exists k :: 0 <= k < |ts| && Occurs(s, v, ts[k])
    case Eff(a) => Occurs(s, v, a)
  }

  lemma ChildrenSmaller(s: Subst, t: T)
    requires Acyclic(s) && Wf(t, |s|)
    ensures forall c :: Child(Resolve(s, t), c) ==>
              Wf(c, |s|) && Resolve(s, c) == c && Size(Resolve(s, c)) < Size(Resolve(s, t))
  {
    var r := Resolve(s, t);
    ResolveIsResolved(s, t);
    forall c | Child(r, c) ensures Wf(c, |s|) && Resolve(s, c) == c && Size(Resolve(s, c)) < Size(r) {
      ChildWf(r, c, |s|);
      ChildResolved(s, r, c);
      ResolvedIsFixed(s, c);
      ChildSize(r, c);
    }
  }

  lemma {:induction false} OccursExact(s: Subst, v: nat, t: T)
    requires Acyclic(s) && Wf(t, |s|)
    ensures Occurs(s, v, t) <==> In(v, Resolve(s, t))
    decreases Size(Resolve(s, t))
  {
    var r := Resolve(s, t);
    ChildrenSmaller(s, t);
    forall c | Child(r, c) ensures Wf(c, |s|) && (Occurs(s, v, c) <==> In(v, c)) {
      OccursExact(s, v, c);
    }
    match r
    case Con(_, ts) => assert forall k :: 0 <= k < |ts| ==> Child(r, ts[k]);
    case Fun(a, b) => assert Child(r, a) && Child(r, b);
    case Tuple(ts) => assert forall k :: 0 <= k < |ts| ==> Child(r, ts[k]);
    case Eff(a) => assert Child(r, a);
    case Var(_) =>
  }

  // ------------------------------------------------------------ solutions

  /** A total assignment of types to variables. */
  type Theta = nat -> T

  ghost function Apply(theta: Theta, t: T): T
    decreases t
  {
    match t
    case Var(i) => theta(i)
    case Con(n, ts) => Con(n, ApplyAll(theta, t, ts))
    case Fun(a, b) => Fun(Apply(theta, a), Apply(theta, b))
    case Tuple(ts) => Tuple(ApplyAll(theta, t, ts))
    case Eff(a) => Eff(Apply(theta, a))
  }

  ghost function ApplyAll(theta: Theta, parent: T, ts: seq<T>): (r: seq<T>)
    requires forall k :: 0 <= k < |ts| ==> ts[k] < parent
    ensures |r| == |ts| && forall k :: 0 <= k < |ts| ==> r[k] == Apply(theta, ts[k])
    decreases parent, |ts|
  {
    if ts == [] then [] else [Apply(theta, ts[0])] + ApplyAll(theta, parent, ts[1..])
  }

  ghost predicate Solves(theta: Theta, s: Subst) {
    forall v :: 0 <= v < |s| && s[v].Some? ==> theta(v) == Apply(theta, s[v].value)
  }

  predicate IsFloat(n: string) { n == "F32" || n == "F64" }

  predicate IsNum(n: string) {
    IsFloat(n) || n in {"U8", "U16", "U32", "U64", "I8", "I16", "I32", "I64"}
  }

  /** Whether a literal variable of this kind may be the type constructor `n`. */
  predicate Allows(k: Kind, n: string) {
    match k
    case Any => true
    case Num => IsNum(n)
    case Float => IsFloat(n)
  }

  /** The stronger constraint of the two. */
  function Merge(a: Kind, b: Kind): Kind {
    if a == Float || b == Float then Float else if a == Num || b == Num then Num else Any
  }

  ghost predicate Kinded(theta: Theta, kinds: seq<Kind>) {
    forall v :: 0 <= v < |kinds| && theta(v).Con? ==> Allows(kinds[v], theta(v).name)
  }

  /** What the checker's state stands for: the assignments it still admits. */
  ghost predicate Solution(theta: Theta, s: Subst, kinds: seq<Kind>) {
    Solves(theta, s) && Kinded(theta, kinds)
  }

  /** An assignment that solves the state and makes the two types one. */
  ghost predicate Unifier(theta: Theta, s: Subst, kinds: seq<Kind>, a: T, b: T) {
    Solution(theta, s, kinds) && Apply(theta, a) == Apply(theta, b)
  }

  /** Resolving changes no solution's view of a type. */
  lemma {:induction false} ApplyResolve(theta: Theta, s: Subst, t: T)
    requires Acyclic(s) && Wf(t, |s|) && Solves(theta, s)
    ensures Apply(theta, Resolve(s, t)) == Apply(theta, t)
    decreases Top(RankOf(s), t), t
  {
    match t
    case Var(i) => if s[i].Some? { ApplyResolve(theta, s, s[i].value); }
    case Con(_, ts) => ApplyResolveAll(theta, s, t, ts);
    case Fun(a, b) => ApplyResolve(theta, s, a); ApplyResolve(theta, s, b);
    case Tuple(ts) => ApplyResolveAll(theta, s, t, ts);
    case Eff(a) => ApplyResolve(theta, s, a);
  }

  lemma {:induction false} ApplyResolveAll(theta: Theta, s: Subst, t: T, ts: seq<T>)
    requires Acyclic(s) && Wf(t, |s|) && Solves(theta, s)
    requires (t.Con? && t.args == ts) || (t.Tuple? && t.parts == ts)
    ensures Apply(theta, Resolve(s, t)) == Apply(theta, t)
    decreases Top(RankOf(s), t), t, 0
  {
    forall k | 0 <= k < |ts| ensures Apply(theta, Resolve(s, ts[k])) == Apply(theta, ts[k]) {
      assert ts[k] < t;
      ApplyResolve(theta, s, ts[k]);
    }
    var rs := ResolveAll(s, t, ts);
    assert ApplyAll(theta, Resolve(s, t), rs) == ApplyAll(theta, t, ts);
  }

  // -------------------------------------------------------- growing a state

  ghost predicate Extends(s: Subst, s': Subst) {
    |s| == |s'| && forall v :: 0 <= v < |s| && s[v].Some? ==> s'[v] == s[v]
  }

  /** Resolving by less first makes no difference. */
  lemma {:induction false} ResolveExtends(s: Subst, s': Subst, t: T)
    requires Acyclic(s) && Acyclic(s') && Extends(s, s') && Wf(t, |s|)
    ensures Resolve(s', Resolve(s, t)) == Resolve(s', t)
    decreases Top(RankOf(s), t), t
  {
    match t
    case Var(i) => if s[i].Some? { ResolveExtends(s, s', s[i].value); }
    case Con(_, ts) => ResolveExtendsAll(s, s', t, ts);
    case Fun(a, b) => ResolveExtends(s, s', a); ResolveExtends(s, s', b);
    case Tuple(ts) => ResolveExtendsAll(s, s', t, ts);
    case Eff(a) => ResolveExtends(s, s', a);
  }

  lemma {:induction false} ResolveExtendsAll(s: Subst, s': Subst, t: T, ts: seq<T>)
    requires Acyclic(s) && Acyclic(s') && Extends(s, s') && Wf(t, |s|)
    requires (t.Con? && t.args == ts) || (t.Tuple? && t.parts == ts)
    ensures Resolve(s', Resolve(s, t)) == Resolve(s', t)
    decreases Top(RankOf(s), t), t, 0
  {
    forall k | 0 <= k < |ts| ensures Resolve(s', Resolve(s, ts[k])) == Resolve(s', ts[k]) {
      assert ts[k] < t;
      ResolveExtends(s, s', ts[k]);
    }
    var rs := ResolveAll(s, t, ts);
    assert ResolveAll(s', Resolve(s, t), rs) == ResolveAll(s', t, ts);
  }

  /** Types made equal stay equal. */
  lemma EqualStays(s: Subst, s': Subst, a: T, b: T)
    requires Acyclic(s) && Acyclic(s') && Extends(s, s') && Wf(a, |s|) && Wf(b, |s|)
    requires Resolve(s, a) == Resolve(s, b)
    ensures Resolve(s', a) == Resolve(s', b)
  {
    ResolveExtends(s, s', a);
    ResolveExtends(s, s', b);
  }

  function Unbound(s: Subst): nat {
    if s == [] then 0 else Unbound(s[1..]) + if s[0] == None then 1 else 0
  }

  lemma {:induction false} UnboundShrinks(s: Subst, s': Subst)
    requires Extends(s, s')
    ensures Unbound(s') <= Unbound(s) && (Unbound(s') == Unbound(s) ==> s' == s)
  {
    if s != [] {
      UnboundShrinks(s[1..], s'[1..]);
      assert s == [s[0]] + s[1..] && s' == [s'[0]] + s'[1..];
    }
  }

  // ---------------------------------------------------------------- binding

  /** The ranks after binding `v`: variables still free sink below it. */
  ghost function Reranked(s: Subst, r: seq<nat>, v: nat): seq<nat>
    requires |r| == |s|
  {
    seq(|s|, u requires 0 <= u < |s| => if s[u].Some? then r[u] + 2 else if u == v then 1 else 0)
  }

  lemma {:induction false} RerankedTop(s: Subst, r: seq<nat>, v: nat, t: T)
    requires |r| == |s| && Wf(t, |s|)
    ensures Top(Reranked(s, r, v), t) <= Top(r, t) + 2
    ensures Resolved(s, t) && !In(v, t) ==> Top(Reranked(s, r, v), t) <= 1
    decreases t
  {
    match t
    case Var(i) => assert In(i, t);
    case Con(_, ts) => RerankedTopAll(s, r, v, t, ts);
    case Fun(a, b) =>
      RerankedTop(s, r, v, a);
      RerankedTop(s, r, v, b);
      if Resolved(s, t) { ChildResolved(s, t, a); ChildResolved(s, t, b); }
    case Tuple(ts) => RerankedTopAll(s, r, v, t, ts);
    case Eff(a) =>
      RerankedTop(s, r, v, a);
      if Resolved(s, t) { ChildResolved(s, t, a); }
  }

  lemma {:induction false} RerankedTopAll(s: Subst, r: seq<nat>, v: nat, parent: T, ts: seq<T>)
    requires |r| == |s| && Wf(parent, |s|)
    requires forall k :: 0 <= k < |ts| ==> ts[k] < parent && Child(parent, ts[k])
    ensures TopAll(Reranked(s, r, v), parent, ts) <= TopAll(r, parent, ts) + 2
    ensures Resolved(s, parent) && !In(v, parent) ==> TopAll(Reranked(s, r, v), parent, ts) <= 1
    decreases parent, |ts|
  {
    if ts != [] {
      ChildWf(parent, ts[0], |s|);
      RerankedTop(s, r, v, ts[0]);
      if Resolved(s, parent) { ChildResolved(s, parent, ts[0]); }
      if In(v, ts[0]) { ChildIn(v, parent, ts[0]); }
      RerankedTopAll(s, r, v, parent, ts[1..]);
    }
  }

  /** Binding a free variable to a resolved type it does not occur in keeps the
      substitution acyclic. */
  lemma BindAcyclic(s: Subst, v: nat, t: T)
    requires Acyclic(s) && v < |s| && s[v] == None && Wf(t, |s|) && Resolved(s, t) && !In(v, t)
    ensures Acyclic(s[v := Some(t)]) && Extends(s, s[v := Some(t)])
  {
    var s', r := s[v := Some(t)], RankOf(s);
    var r' := Reranked(s, r, v);
    forall u | 0 <= u < |s'| && s'[u].Some?
      ensures Wf(s'[u].value, |s'|) && Top(r', s'[u].value) <= r'[u]
    {
      RerankedTop(s, r, v, s'[u].value);
    }
    assert Ranked(s', r');
  }

  /** A type standing properly inside another is smaller under any assignment. */
  lemma {:induction false} InsideSmaller(theta: Theta, v: nat, t: T)
    requires In(v, t)
    ensures Size(theta(v)) <= Size(Apply(theta, t))
    ensures t != Var(v) ==> Size(theta(v)) < Size(Apply(theta, t))
    decreases t
  {
    match t
    case Var(_) =>
    case Con(_, ts) =>
      var k :| 0 <= k < |ts| && In(v, ts[k]);
      InsideSmaller(theta, v, ts[k]);
      assert Child(Apply(theta, t), ApplyAll(theta, t, ts)[k]);
      ChildSize(Apply(theta, t), Apply(theta, ts[k]));
    case Fun(a, b) =>
      if In(v, a) { InsideSmaller(theta, v, a); } else { InsideSmaller(theta, v, b); }
    case Tuple(ts) =>
      var k :| 0 <= k < |ts| && In(v, ts[k]);
      InsideSmaller(theta, v, ts[k]);
      assert Child(Apply(theta, t), ApplyAll(theta, t, ts)[k]);
      ChildSize(Apply(theta, t), Apply(theta, ts[k]));
    case Eff(a) => InsideSmaller(theta, v, a);
  }

  // ------------------------------------------------------------------ kinds

  predicate Stronger(a: Kind, b: Kind) { Merge(a, b) == a }

  /** Every variable resolves to something its kind allows, or to a variable
      whose kind is at least as strong. */
  ghost predicate KindsOk(s: Subst, kinds: seq<Kind>)
    requires Acyclic(s)
  {
    && |kinds| == |s|
    && forall v :: 0 <= v < |s| ==> KindOk(s, kinds, v)
  }

  ghost predicate KindOk(s: Subst, kinds: seq<Kind>, v: nat)
    requires Acyclic(s) && v < |s| == |kinds|
  {
    var r := Resolve(s, Var(v));
    && (r.Con? ==> Allows(kinds[v], r.name))
    && (r.Var? ==> Stronger(kinds[r.i], kinds[v]))
  }

  /** The kinds after binding `v` to `t`. */
  function Merged(kinds: seq<Kind>, v: nat, t: T): seq<Kind>
    requires v < |kinds| && Wf(t, |kinds|)
  {
    if t.Var? then kinds[t.i := Merge(kinds[v], kinds[t.i])] else kinds
  }

  ghost predicate KindFits(k: Kind, t: T) { t.Con? ==> Allows(k, t.name) }

  lemma BindKinds(s: Subst, kinds: seq<Kind>, v: nat, t: T)
    requires Acyclic(s) && KindsOk(s, kinds) && v < |s| && s[v] == None && Wf(t, |s|) && Resolved(s, t) && !In(v, t)
    requires KindFits(kinds[v], t)
    ensures Acyclic(s[v := Some(t)]) && KindsOk(s[v := Some(t)], Merged(kinds, v, t))
  {
    BindAcyclic(s, v, t);
    var s', kinds' := s[v := Some(t)], Merged(kinds, v, t);
    forall u | 0 <= u < |s| ensures KindOk(s', kinds', u) {
      assert KindOk(s, kinds, u);
      var r := Resolve(s, Var(u));
      ResolveIsResolved(s, Var(u));
      ResolveExtends(s, s', Var(u));
      if r.Var? {
        assert In(r.i, r);
        if r.i == v {
          ResolvedAfterBind(s, v, t);
        } else {
          assert Resolve(s', r) == r;
        }
      }
    }
  }

  lemma ResolvedAfterBind(s: Subst, v: nat, t: T)
    requires Acyclic(s) && v < |s| && s[v] == None && Wf(t, |s|) && Resolved(s, t) && !In(v, t)
    requires Acyclic(s[v := Some(t)])
    ensures Resolve(s[v := Some(t)], Var(v)) == t
    ensures Wf(t, |s[v := Some(t)]|) && Resolve(s[v := Some(t)], t) == t
  {
    ResolvedIsFixed(s[v := Some(t)], t);
  }

  /** The solutions left are those of before in which `v` is `t`. */
  lemma BindSolutions(s: Subst, kinds: seq<Kind>, v: nat, t: T, theta: Theta)
    requires v < |s| == |kinds| && s[v] == None && Wf(t, |s|) && KindFits(kinds[v], t)
    ensures Solution(theta, s[v := Some(t)], Merged(kinds, v, t)) <==>
              Solution(theta, s, kinds) && theta(v) == Apply(theta, t)
  {
    var s', kinds' := s[v := Some(t)], Merged(kinds, v, t);
    if Solves(theta, s') {
      assert s'[v].Some?;
      assert theta(v) == Apply(theta, t);
    }
    if theta(v) == Apply(theta, t) {
      BindKinded(kinds, v, t, theta);
    }
  }

  lemma BindKinded(kinds: seq<Kind>, v: nat, t: T, theta: Theta)
    requires v < |kinds| && Wf(t, |kinds|) && KindFits(kinds[v], t) && theta(v) == Apply(theta, t)
    ensures Kinded(theta, Merged(kinds, v, t)) <==> Kinded(theta, kinds)
  {
    var kinds' := Merged(kinds, v, t);
    if Kinded(theta, kinds') {
      forall u | 0 <= u < |kinds| && theta(u).Con? ensures Allows(kinds[u], theta(u).name) {
        assert Allows(kinds'[u], theta(u).name);
        if t.Var? { assert theta(t.i).Con? ==> Allows(kinds'[t.i], theta(t.i).name); }
      }
    }
    if Kinded(theta, kinds) {
      forall u | 0 <= u < |kinds'| && theta(u).Con? ensures Allows(kinds'[u], theta(u).name) {
        assert Allows(kinds[u], theta(u).name);
        assert theta(v).Con? ==> Allows(kinds[v], theta(v).name);
      }
    }
  }

  // ------------------------------------------------------------ unification

  datatype Error = Infinite | NotANumber | NotADecimal | EffectLeak | EffectMissing | Mismatch

  datatype Outcome = Fine | Fail(error: Error)

  /** The complaint about two resolved types whose heads can never agree. */
  function Clash(a: T, b: T): Option<Error> {
    if a.Var? || b.Var? then None
    else if a.Eff? && b.Eff? then None
    else if a.Eff? then Some(EffectLeak)
    else if b.Eff? then Some(EffectMissing)
    else if SameHead(a, b) then None
    else Some(Mismatch)
  }

  predicate SameHead(a: T, b: T) {
    || (a.Con? && b.Con? && a.name == b.name && |a.args| == |b.args|)
    || (a.Fun? && b.Fun?)
    || (a.Tuple? && b.Tuple? && |a.parts| == |b.parts|)
    || (a.Eff? && b.Eff?)
  }

  function Parts(t: T): (r: seq<T>)
    ensures forall k :: 0 <= k < |r| ==> Child(t, r[k])
  {
    match t
    case Var(_) => []
    case Con(_, ts) => ts
    case Fun(a, b) => [a, b]
    case Tuple(ts) => ts
    case Eff(a) => [a]
  }

  ghost predicate UnifierAll(theta: Theta, s: Subst, kinds: seq<Kind>, xs: seq<T>, ys: seq<T>) {
    Solution(theta, s, kinds) && AgreeAll(theta, xs, ys)
  }

  ghost predicate AgreeAll(theta: Theta, xs: seq<T>, ys: seq<T>) {
    |xs| == |ys| && forall k :: 0 <= k < |xs| ==> Apply(theta, xs[k]) == Apply(theta, ys[k])
  }

  /** The new state admits exactly the old state's unifiers of `a` and `b`. */
  ghost predicate Exactly(s: Subst, kinds: seq<Kind>, s': Subst, kinds': seq<Kind>, a: T, b: T) {
    forall theta :: Solution(theta, s', kinds') <==> Unifier(theta, s, kinds, a, b)
  }

  ghost predicate ExactlyAll(s: Subst, kinds: seq<Kind>, s': Subst, kinds': seq<Kind>, xs: seq<T>, ys: seq<T>) {
    forall theta :: Solution(theta, s', kinds') <==> UnifierAll(theta, s, kinds, xs, ys)
  }

  ghost predicate Hopeless(s: Subst, kinds: seq<Kind>, a: T, b: T) {
    forall theta :: !Unifier(theta, s, kinds, a, b)
  }

  ghost predicate HopelessAll(s: Subst, kinds: seq<Kind>, xs: seq<T>, ys: seq<T>) {
    forall theta :: !UnifierAll(theta, s, kinds, xs, ys)
  }

  ghost predicate SameResolved(s: Subst, a: T, b: T) {
    Acyclic(s) && Wf(a, |s|) && Wf(b, |s|) && Resolve(s, a) == Resolve(s, b)
  }

  ghost predicate SameResolvedAll(s: Subst, xs: seq<T>, ys: seq<T>) {
    |xs| == |ys| && forall k :: 0 <= k < |xs| ==> SameResolved(s, xs[k], ys[k])
  }

  ghost predicate Good(s: Subst, kinds: seq<Kind>) {
    Acyclic(s) && KindsOk(s, kinds)
  }

  // Each lemma below moves one verdict from the parts, or the resolved forms,
  // to the types themselves.

  lemma ApplyParts(theta: Theta, a: T, b: T)
    requires SameHead(a, b)
    ensures Apply(theta, a) == Apply(theta, b) <==> AgreeAll(theta, Parts(a), Parts(b))
  {
    match a
    case Con(n, xs) =>
      assert Apply(theta, a) == Apply(theta, b) <==> ApplyAll(theta, a, xs) == ApplyAll(theta, b, b.args);
    case Tuple(xs) =>
      assert Apply(theta, a) == Apply(theta, b) <==> ApplyAll(theta, a, xs) == ApplyAll(theta, b, b.parts);
    case Fun(x, y) =>
      assert Parts(a) == [x, y] && Parts(b) == [b.dom, b.cod];
      if AgreeAll(theta, Parts(a), Parts(b)) {
        assert Apply(theta, Parts(a)[0]) == Apply(theta, Parts(b)[0]);
        assert Apply(theta, Parts(a)[1]) == Apply(theta, Parts(b)[1]);
      }
    case Eff(x) =>
      assert Parts(a) == [x] && Parts(b) == [b.inner];
      if AgreeAll(theta, Parts(a), Parts(b)) {
        assert Apply(theta, Parts(a)[0]) == Apply(theta, Parts(b)[0]);
      }
  }

  lemma ResolveParts(s: Subst, a: T, b: T)
    requires SameHead(a, b) && Acyclic(s) && Wf(a, |s|) && Wf(b, |s|)
    requires SameResolvedAll(s, Parts(a), Parts(b))
    ensures SameResolved(s, a, b)
  {
    var xs, ys := Parts(a), Parts(b);
    assert forall k :: 0 <= k < |xs| ==> SameResolved(s, xs[k], ys[k]);
    match a
    case Con(n, ts) => assert ResolveAll(s, a, ts) == ResolveAll(s, b, b.args);
    case Tuple(ts) => assert ResolveAll(s, a, ts) == ResolveAll(s, b, b.parts);
    case Fun(x, y) => assert xs[0] == x && xs[1] == y && ys[0] == b.dom && ys[1] == b.cod;
    case Eff(x) => assert xs[0] == x && ys[0] == b.inner;
  }

  lemma ResolvedForms(theta: Theta, s: Subst, kinds: seq<Kind>, a: T, b: T)
    requires Acyclic(s) && Wf(a, |s|) && Wf(b, |s|)
    ensures Unifier(theta, s, kinds, a, b) <==> Unifier(theta, s, kinds, Resolve(s, a), Resolve(s, b))
  {
    hide Kinded, Apply, Resolve;
    if Solves(theta, s) {
      ApplyResolve(theta, s, a);
      ApplyResolve(theta, s, b);
    }
  }

  lemma SameResolvedForms(s: Subst, s': Subst, a: T, b: T)
    requires Acyclic(s) && Acyclic(s') && Extends(s, s') && Wf(a, |s|) && Wf(b, |s|)
    requires SameResolved(s', Resolve(s, a), Resolve(s, b))
    ensures SameResolved(s', a, b)
  {
    hide Resolve, Wf, Acyclic, Extends;
    ResolveExtends(s, s', a);
    ResolveExtends(s, s', b);
    assert Wf(a, |s'|) && Wf(b, |s'|) by { assert |s| == |s'| by { ExtendsLength(s, s'); } }
  }

  lemma ExtendsLength(s: Subst, s': Subst)
    requires Extends(s, s')
    ensures |s| == |s'|
  {}

  lemma ExtendsTrans(s: Subst, s': Subst, s'': Subst)
    requires Extends(s, s') && Extends(s', s'')
    ensures Extends(s, s'')
  {}

  /** What a finished run over the parts says of the whole. */
  lemma WholeFromParts(s: Subst, kinds: seq<Kind>, s': Subst, kinds': seq<Kind>, a: T, b: T)
    requires SameHead(a, b)
    ensures ExactlyAll(s, kinds, s', kinds', Parts(a), Parts(b)) ==> Exactly(s, kinds, s', kinds', a, b)
    ensures HopelessAll(s, kinds, Parts(a), Parts(b)) ==> Hopeless(s, kinds, a, b)
  {
    hide Solution, Apply, AgreeAll, SameHead, Parts;
    forall theta: Theta ensures UnifierAll(theta, s, kinds, Parts(a), Parts(b)) <==> Unifier(theta, s, kinds, a, b) {
      ApplyParts(theta, a, b);
    }
  }

  lemma UnresolvedToo(s: Subst, kinds: seq<Kind>, s': Subst, kinds': seq<Kind>, a: T, b: T)
    requires Acyclic(s) && Wf(a, |s|) && Wf(b, |s|)
    ensures Exactly(s, kinds, s', kinds', Resolve(s, a), Resolve(s, b)) ==> Exactly(s, kinds, s', kinds', a, b)
    ensures Hopeless(s, kinds, Resolve(s, a), Resolve(s, b)) ==> Hopeless(s, kinds, a, b)
  {
    hide Unifier, Solution, Resolve, Acyclic, Wf;
    forall theta: Theta
      ensures Unifier(theta, s, kinds, a, b) <==> Unifier(theta, s, kinds, Resolve(s, a), Resolve(s, b))
    {
      ResolvedForms(theta, s, kinds, a, b);
    }
  }

  lemma Swapped(s: Subst, kinds: seq<Kind>, s': Subst, kinds': seq<Kind>, a: T, b: T)
    ensures Exactly(s, kinds, s', kinds', a, b) ==> Exactly(s, kinds, s', kinds', b, a)
    ensures Hopeless(s, kinds, a, b) ==> Hopeless(s, kinds, b, a)
  {
    hide Solution, Apply;
    forall theta: Theta ensures Unifier(theta, s, kinds, a, b) <==> Unifier(theta, s, kinds, b, a) {}
  }

  lemma ClashHopeless(s: Subst, kinds: seq<Kind>, a: T, b: T)
    requires Clash(a, b).Some?
    ensures Hopeless(s, kinds, a, b)
  {
    hide Solution;
  }

  lemma OccursHopeless(s: Subst, kinds: seq<Kind>, v: nat, t: T)
    requires In(v, t) && t != Var(v)
    ensures Hopeless(s, kinds, Var(v), t)
  {
    hide Solution, In, Size;
    forall theta: Theta ensures !Unifier(theta, s, kinds, Var(v), t) {
      InsideSmaller(theta, v, t);
    }
  }

  lemma KindHopeless(s: Subst, kinds: seq<Kind>, v: nat, t: T)
    requires v < |kinds| && !KindFits(kinds[v], t)
    ensures Hopeless(s, kinds, Var(v), t)
  {
    hide Solves, Allows;
    forall theta: Theta ensures !Unifier(theta, s, kinds, Var(v), t) {
      assert Apply(theta, t).name == t.name;
      assert Kinded(theta, kinds) && theta(v).Con? ==> Allows(kinds[v], theta(v).name);
    }
  }

  lemma BindExact(s: Subst, kinds: seq<Kind>, v: nat, t: T)
    requires v < |s| == |kinds| && s[v] == None && Wf(t, |s|) && KindFits(kinds[v], t)
    ensures Exactly(s, kinds, s[v := Some(t)], Merged(kinds, v, t), Var(v), t)
  {
    hide Solution, KindFits, Merged;
    forall theta: Theta
      ensures Solution(theta, s[v := Some(t)], Merged(kinds, v, t)) <==> Unifier(theta, s, kinds, Var(v), t)
    {
      BindSolutions(s, kinds, v, t, theta);
    }
  }

  lemma SelfExact(s: Subst, kinds: seq<Kind>, a: T)
    ensures Exactly(s, kinds, s, kinds, a, a)
  {
    hide Solution, Apply;
  }

  /** One more pair unified. */
  lemma OneMore(s: Subst, kinds: seq<Kind>, s1: Subst, kinds1: seq<Kind>, s2: Subst, kinds2: seq<Kind>,
                xs: seq<T>, ys: seq<T>, i: nat)
    requires i < |xs| == |ys| && ExactlyAll(s, kinds, s1, kinds1, xs[..i], ys[..i])
    ensures Exactly(s1, kinds1, s2, kinds2, xs[i], ys[i]) ==>
              ExactlyAll(s, kinds, s2, kinds2, xs[..i + 1], ys[..i + 1])
    ensures Hopeless(s1, kinds1, xs[i], ys[i]) ==> HopelessAll(s, kinds, xs, ys)
  {
    hide Solution, Apply, AgreeAll;
    forall theta: Theta
      ensures UnifierAll(theta, s, kinds, xs[..i + 1], ys[..i + 1]) <==> Unifier(theta, s1, kinds1, xs[i], ys[i])
      ensures UnifierAll(theta, s, kinds, xs, ys) ==> UnifierAll(theta, s, kinds, xs[..i + 1], ys[..i + 1])
    {
      AgreeOneMore(theta, xs, ys, i);
      assert Solution(theta, s1, kinds1) <==> UnifierAll(theta, s, kinds, xs[..i], ys[..i]);
    }
  }

  lemma AgreeOneMore(theta: Theta, xs: seq<T>, ys: seq<T>, i: nat)
    requires i < |xs| == |ys|
    ensures AgreeAll(theta, xs[..i + 1], ys[..i + 1]) <==>
              AgreeAll(theta, xs[..i], ys[..i]) && Apply(theta, xs[i]) == Apply(theta, ys[i])
    ensures AgreeAll(theta, xs, ys) ==> AgreeAll(theta, xs[..i + 1], ys[..i + 1])
  {
    hide Apply;
    var us, vs, us', vs' := xs[..i], ys[..i], xs[..i + 1], ys[..i + 1];
    if AgreeAll(theta, us', vs') {
      forall k | 0 <= k < i ensures Apply(theta, us[k]) == Apply(theta, vs[k]) {
        assert us[k] == us'[k] && vs[k] == vs'[k];
      }
      assert us'[i] == xs[i] && vs'[i] == ys[i];
    }
    if AgreeAll(theta, us, vs) && Apply(theta, xs[i]) == Apply(theta, ys[i]) {
      forall k | 0 <= k < i + 1 ensures Apply(theta, us'[k]) == Apply(theta, vs'[k]) {
        if k < i { assert us[k] == us'[k] && vs[k] == vs'[k]; }
      }
    }
  }

  lemma StaySame(s: Subst, s': Subst, xs: seq<T>, ys: seq<T>)
    requires SameResolvedAll(s, xs, ys) && Acyclic(s) && Acyclic(s') && Extends(s, s')
    ensures SameResolvedAll(s', xs, ys)
  {
    hide Resolve, Acyclic, Wf;
    forall k | 0 <= k < |xs| ensures SameResolved(s', xs[k], ys[k]) {
      assert SameResolved(s, xs[k], ys[k]);
      EqualStays(s, s', xs[k], ys[k]);
    }
  }

  /** The assignment a finished state reads off: it solves the state. */
  ghost function Reading(s: Subst): Theta
    requires Acyclic(s)
  {
    (v: nat) => if v < |s| then Resolve(s, Var(v)) else Var(v)
  }

  lemma {:induction false} ReadingApplies(s: Subst, t: T)
    requires Acyclic(s) && Wf(t, |s|)
    ensures Apply(Reading(s), t) == Resolve(s, t)
    decreases t
  {
    var theta := Reading(s);
    match t
    case Var(_) =>
    case Con(n, ts) =>
      forall k | 0 <= k < |ts| ensures Apply(theta, ts[k]) == Resolve(s, ts[k]) { ReadingApplies(s, ts[k]); }
      assert ApplyAll(theta, t, ts) == ResolveAll(s, t, ts);
    case Fun(a, b) => ReadingApplies(s, a); ReadingApplies(s, b);
    case Tuple(ts) =>
      forall k | 0 <= k < |ts| ensures Apply(theta, ts[k]) == Resolve(s, ts[k]) { ReadingApplies(s, ts[k]); }
      assert ApplyAll(theta, t, ts) == ResolveAll(s, t, ts);
    case Eff(a) => ReadingApplies(s, a);
  }

  lemma ReadingSolves(s: Subst, kinds: seq<Kind>)
    requires Good(s, kinds)
    ensures Solution(Reading(s), s, kinds)
  {
    var theta := Reading(s);
    forall v | 0 <= v < |s| && s[v].Some? ensures theta(v) == Apply(theta, s[v].value) {
      ReadingApplies(s, s[v].value);
    }
    forall v | 0 <= v < |kinds| && theta(v).Con? ensures Allows(kinds[v], theta(v).name) {
      assert KindOk(s, kinds, v);
    }
  }

  /** A state that admits exactly the unifiers of `a` and `b` shows that there is one. */
  lemma ExactlyIsHopeful(s: Subst, kinds: seq<Kind>, s': Subst, kinds': seq<Kind>, a: T, b: T)
    requires Good(s', kinds') && Exactly(s, kinds, s', kinds', a, b)
    ensures !Hopeless(s, kinds, a, b)
  {
    hide Unifier, Solution, Good;
    assert Acyclic(s') by { GoodAcyclic(s', kinds'); }
    ReadingSolves(s', kinds');
    assert Unifier(Reading(s'), s, kinds, a, b);
  }

  lemma GoodAcyclic(s: Subst, kinds: seq<Kind>)
    requires Good(s, kinds)
    ensures Acyclic(s) && |kinds| == |s|
  {}

  lemma ExtendsSelf(s: Subst)
    ensures Extends(s, s)
  {}

  /** A kind never weakens, so what it forbids stays forbidden. */
  ghost predicate Tightens(kinds: seq<Kind>, kinds': seq<Kind>) {
    |kinds| == |kinds'| && forall v :: 0 <= v < |kinds| ==> Stronger(kinds'[v], kinds[v])
  }

  lemma TightensTrans(k: seq<Kind>, k': seq<Kind>, k'': seq<Kind>)
    requires Tightens(k, k') && Tightens(k', k'')
    ensures Tightens(k, k'')
  {}

  /** No variable ever resolves to a constructor that its kind, at any earlier
      moment, ruled out. */
  lemma KindRespected(s: Subst, kinds: seq<Kind>, earlier: seq<Kind>, v: nat)
    requires Good(s, kinds) && Tightens(earlier, kinds) && v < |s|
    ensures Resolve(s, Var(v)).Con? ==> Allows(earlier[v], Resolve(s, Var(v)).name)
  {
    assert KindOk(s, kinds, v);
    assert Stronger(kinds[v], earlier[v]);
  }

  /** Every unifier factors through the state a run leaves behind. */
  lemma MostGeneral(s: Subst, kinds: seq<Kind>, s': Subst, kinds': seq<Kind>, a: T, b: T, theta: Theta, t: T)
    requires Good(s', kinds') && Exactly(s, kinds, s', kinds', a, b)
    requires Unifier(theta, s, kinds, a, b) && Wf(t, |s'|)
    ensures Apply(theta, Resolve(s', t)) == Apply(theta, t)
  {
    hide Unifier, Apply, Resolve, Wf, Kinded;
    assert Solution(theta, s', kinds');
    ApplyResolve(theta, s', t);
  }

  lemma VarWf(v: nat, n: nat)
    requires v < n
    ensures Wf(Var(v), n)
  {}

  lemma WfVar(t: T, n: nat)
    requires t.Var? && Wf(t, n)
    ensures t.i < n
  {}

  lemma ResolvedVar(s: Subst, t: T)
    requires t.Var? && Resolved(s, t)
    ensures t.i < |s| && s[t.i] == None
  {
    assert In(t.i, t);
  }

  lemma PartsSmaller(s: Subst, t: T)
    requires Acyclic(s) && Wf(t, |s|) && Resolved(s, t)
    ensures forall k :: 0 <= k < |Parts(t)| ==> Wf(Parts(t)[k], |s|)
    ensures forall k :: 0 <= k < |Parts(t)| ==> Size(Resolve(s, Parts(t)[k])) < Size(t)
  {
    hide Resolve, Size, Acyclic, Resolved, Wf;
    forall k | 0 <= k < |Parts(t)| ensures Wf(Parts(t)[k], |s|) && Size(Resolve(s, Parts(t)[k])) < Size(t) {
      var c := Parts(t)[k];
      ChildWf(t, c, |s|);
      ChildResolved(s, t, c);
      ResolvedIsFixed(s, c);
      ChildSize(t, c);
    }
  }

  lemma PartsWf(t: T, n: nat)
    requires Wf(t, n)
    ensures forall k :: 0 <= k < |Parts(t)| ==> Wf(Parts(t)[k], n)
  {
    forall k | 0 <= k < |Parts(t)| ensures Wf(Parts(t)[k], n) { ChildWf(t, Parts(t)[k], n); }
  }

  lemma NoneYet(s: Subst, kinds: seq<Kind>, xs: seq<T>, ys: seq<T>)
    ensures ExactlyAll(s, kinds, s, kinds, xs[..0], ys[..0])
    ensures SameResolvedAll(s, xs[..0], ys[..0])
  {
    hide Solution;
  }

  lemma SameOneMore(s: Subst, xs: seq<T>, ys: seq<T>, i: nat)
    requires i < |xs| == |ys| && SameResolvedAll(s, xs[..i], ys[..i]) && SameResolved(s, xs[i], ys[i])
    ensures SameResolvedAll(s, xs[..i + 1], ys[..i + 1])
  {
    hide SameResolved;
    var us, vs := xs[..i + 1], ys[..i + 1];
    forall k | 0 <= k < i + 1 ensures SameResolved(s, us[k], vs[k]) {
      if k < i { assert SameResolved(s, xs[..i][k], ys[..i][k]); }
    }
  }

  lemma {:induction false} TopGrown(r: seq<nat>, t: T, x: nat)
    requires Wf(t, |r|)
    ensures Top(r + [x], t) == Top(r, t)
    decreases t
  {
    match t
    case Var(_) =>
    case Con(_, ts) => TopGrownAll(r, t, ts, x);
    case Fun(a, b) => TopGrown(r, a, x); TopGrown(r, b, x);
    case Tuple(ts) => TopGrownAll(r, t, ts, x);
    case Eff(a) => TopGrown(r, a, x);
  }

  lemma {:induction false} TopGrownAll(r: seq<nat>, parent: T, ts: seq<T>, x: nat)
    requires Wf(parent, |r|) && forall k :: 0 <= k < |ts| ==> ts[k] < parent && Child(parent, ts[k])
    ensures TopAll(r + [x], parent, ts) == TopAll(r, parent, ts)
    decreases parent, |ts|
  {
    if ts != [] {
      ChildWf(parent, ts[0], |r|);
      TopGrown(r, ts[0], x);
      TopGrownAll(r, parent, ts[1..], x);
    }
  }

  lemma {:induction false} WfGrown(t: T, n: nat)
    requires Wf(t, n)
    ensures Wf(t, n + 1)
    decreases t
  {
    match t
    case Var(_) =>
    case Con(_, ts) => forall k | 0 <= k < |ts| ensures Wf(ts[k], n + 1) { WfGrown(ts[k], n); }
    case Fun(a, b) => WfGrown(a, n); WfGrown(b, n);
    case Tuple(ts) => forall k | 0 <= k < |ts| ensures Wf(ts[k], n + 1) { WfGrown(ts[k], n); }
    case Eff(a) => WfGrown(a, n);
  }

  lemma FreshAcyclic(s: Subst)
    requires Acyclic(s)
    ensures Acyclic(s + [None])
  {
    var s', r := s + [None], RankOf(s);
    forall v | 0 <= v < |s'| && s'[v].Some?
      ensures Wf(s'[v].value, |s'|) && Top(r + [0], s'[v].value) <= (r + [0])[v]
    {
      assert s'[v] == s[v];
      WfGrown(s[v].value, |s|);
      TopGrown(r, s[v].value, 0);
    }
    assert Ranked(s', r + [0]);
  }

  /** A variable made later changes nothing resolved before. */
  lemma {:induction false} FreshResolve(s: Subst, t: T)
    requires Acyclic(s) && Acyclic(s + [None]) && Wf(t, |s|)
    ensures Wf(t, |s + [None]|) && Resolve(s + [None], t) == Resolve(s, t)
    decreases Top(RankOf(s), t), t
  {
    match t
    case Var(i) => if s[i].Some? { FreshResolve(s, s[i].value); }
    case Con(_, ts) => FreshResolveAll(s, t, ts);
    case Fun(a, b) => FreshResolve(s, a); FreshResolve(s, b);
    case Tuple(ts) => FreshResolveAll(s, t, ts);
    case Eff(a) => FreshResolve(s, a);
  }

  lemma {:induction false} FreshResolveAll(s: Subst, t: T, ts: seq<T>)
    requires Acyclic(s) && Acyclic(s + [None]) && Wf(t, |s|)
    requires (t.Con? && t.args == ts) || (t.Tuple? && t.parts == ts)
    ensures Wf(t, |s + [None]|) && Resolve(s + [None], t) == Resolve(s, t)
    decreases Top(RankOf(s), t), t, 0
  {
    forall k | 0 <= k < |ts|
      ensures Wf(ts[k], |s + [None]|) && Resolve(s + [None], ts[k]) == Resolve(s, ts[k])
    {
      assert ts[k] < t;
      FreshResolve(s, ts[k]);
    }
    assert ResolveAll(s + [None], t, ts) == ResolveAll(s, t, ts);
  }

  lemma FreshGood(s: Subst, kinds: seq<Kind>, k: Kind)
    requires Good(s, kinds)
    ensures Good(s + [None], kinds + [k])
  {
    hide Acyclic;
    FreshAcyclic(s);
    var s', kinds' := s + [None], kinds + [k];
    forall v | 0 <= v < |s'| ensures KindOk(s', kinds', v) {
      if v < |s| {
        assert KindOk(s, kinds, v);
        FreshResolve(s, Var(v));
      }
    }
  }

  lemma DefaultGood(s: Subst, kinds: seq<Kind>, v: nat, n: string)
    requires Good(s, kinds) && v < |s| && s[v] == None && Allows(kinds[v], n)
    ensures Good(s[v := Some(Con(n, []))], kinds) && Extends(s, s[v := Some(Con(n, []))])
  {
    hide Acyclic, KindsOk;
    var t := Con(n, []);
    assert Resolved(s, t) && !In(v, t) && Wf(t, |s|);
    BindAcyclic(s, v, t);
    BindKinds(s, kinds, v, t);
  }

  class Checker {
    var subst: Subst
    var kinds: seq<Kind>

    ghost predicate Valid()
      reads this
    {
      Good(subst, kinds)
    }

    constructor ()
      ensures Valid() && subst == [] && kinds == []
    {
      subst, kinds := [], [];
      new;
      assert Ranked([], []);
    }

    /** A new variable, constrained by `k` alone. */
    method Fresh(k: Kind) returns (t: T)
      requires Valid()
      modifies this
      ensures Valid() && t == Var(|old(subst)|)
      ensures subst == old(subst) + [None] && kinds == old(kinds) + [k]
    {
      FreshGood(subst, kinds, k);
      subst, kinds := subst + [None], kinds + [k];
      t := Var(|subst| - 1);
    }

    /** Binds a free variable, unless that would tie a knot or break its kind. */
    method BindVar(v: nat, t: T) returns (r: Outcome)
      requires Valid() && v < |subst| && subst[v] == None
      requires Wf(t, |subst|) && Resolved(subst, t) && t != Var(v)
      modifies this
      ensures Valid() && Extends(old(subst), subst) && Tightens(old(kinds), kinds)
      ensures r.Fine? ==> SameResolved(subst, Var(v), t)
      ensures r.Fine? ==> Exactly(old(subst), old(kinds), subst, kinds, Var(v), t)
      ensures r.Fail? ==> Hopeless(old(subst), old(kinds), Var(v), t)
      ensures r == Fail(Infinite) <==> In(v, t)
      ensures r.Fail? ==> subst == old(subst) && kinds == old(kinds)
    {
      hide Resolve, Exactly, Hopeless, Solution, KindOk, Extends, Acyclic, Wf, In, Resolved;
      OccursExact(subst, v, t);
      ResolvedIsFixed(subst, t);
      ExtendsSelf(subst);
      if Occurs(subst, v, t) {
        OccursHopeless(subst, kinds, v, t);
        return Fail(Infinite);
      }
      if !KindFits(kinds[v], t) { KindHopeless(subst, kinds, v, t); }
      if kinds[v] == Num && t.Con? && !IsNum(t.name) {
        return Fail(NotANumber);
      } else if kinds[v] == Float && t.Con? && !IsFloat(t.name) {
        return Fail(NotADecimal);
      }
      BindExact(subst, kinds, v, t);
      BindAcyclic(subst, v, t);
      BindKinds(subst, kinds, v, t);
      ResolvedAfterBind(subst, v, t);
      assert Wf(Var(v), |subst|) by { VarWf(v, |subst|); }
      if t.Var? {
        WfVar(t, |subst|);
        kinds := kinds[t.i := Merge(kinds[v], kinds[t.i])];
      }
      subst := subst[v := Some(t)];
      r := Fine;
    }

    /** Makes the two types one if anything can, losing no solution that does. */
    method Unify(a: T, b: T) returns (r: Outcome)
      requires Valid() && Wf(a, |subst|) && Wf(b, |subst|)
      modifies this
      ensures Valid() && Extends(old(subst), subst) && Tightens(old(kinds), kinds)
      ensures r.Fine? ==> SameResolved(subst, a, b)
      ensures r.Fine? ==> Exactly(old(subst), old(kinds), subst, kinds, a, b)
      ensures r.Fail? <==> Hopeless(old(subst), old(kinds), a, b)
      ensures var clash := Clash(Resolve(old(subst), a), Resolve(old(subst), b));
              clash.Some? ==> r == Fail(clash.value)
      decreases Unbound(subst), Size(Resolve(subst, a)), 1
    {
      hide Resolve, Exactly, Hopeless, ExactlyAll, HopelessAll, Solution, KindsOk, Extends, Acyclic, Wf, Size,
           SameResolvedAll, Unbound;
      ghost var s, ks := subst, kinds;
      var a', b' := Resolve(subst, a), Resolve(subst, b);
      ResolveIsResolved(s, a);
      ResolveIsResolved(s, b);
      ExtendsSelf(s);
      if a'.Var? && b'.Var? && a'.i == b'.i {
        SelfExact(s, ks, a');
        ResolvedIsFixed(s, a');
        r := Fine;
      } else if a'.Var? {
        ResolvedVar(s, a');
        r := BindVar(a'.i, b');
      } else if b'.Var? {
        ResolvedVar(s, b');
        r := BindVar(b'.i, a');
        Swapped(s, ks, subst, kinds, b', a');
      } else if SameHead(a', b') {
        PartsSmaller(s, a');
        PartsWf(b', |s|);
        r := UnifyAll(Parts(a'), Parts(b'), Size(a'));
        WholeFromParts(s, ks, subst, kinds, a', b');
        if r.Fine? {
          ExtendsLength(s, subst);
          ResolveParts(subst, a', b');
        }
      } else {
        ClashHopeless(s, ks, a', b');
        r := Fail(if a'.Eff? then EffectLeak else if b'.Eff? then EffectMissing else Mismatch);
      }
      UnresolvedToo(s, ks, subst, kinds, a, b);
      if r.Fine? {
        SameResolvedForms(s, subst, a, b);
        ExactlyIsHopeful(s, ks, subst, kinds, a, b);
      }
    }

    /** Unifies the pairs from left to right, stopping at the first that fails. */
    method UnifyAll(xs: seq<T>, ys: seq<T>, ghost size: nat) returns (r: Outcome)
      requires Valid() && |xs| == |ys|
      requires forall k :: 0 <= k < |xs| ==> Wf(xs[k], |subst|) && Wf(ys[k], |subst|)
      requires forall k :: 0 <= k < |xs| ==> Size(Resolve(subst, xs[k])) < size
      modifies this
      ensures Valid() && Extends(old(subst), subst) && Tightens(old(kinds), kinds)
      ensures r.Fine? ==> SameResolvedAll(subst, xs, ys)
      ensures r.Fine? ==> ExactlyAll(old(subst), old(kinds), subst, kinds, xs, ys)
      ensures r.Fail? ==> HopelessAll(old(subst), old(kinds), xs, ys)
      decreases Unbound(subst), size, 0
    {
      hide Resolve, Exactly, Hopeless, HopelessAll, ExactlyAll, Solution, KindsOk, Extends, Acyclic, Wf, Size,
           SameResolvedAll, SameResolved, Unbound;
      ghost var s, ks := subst, kinds;
      ExtendsSelf(s);
      NoneYet(s, ks, xs, ys);
      var i := 0;
      while i < |xs|
        invariant 0 <= i <= |xs| && Valid() && Extends(s, subst) && Tightens(ks, kinds)
        invariant SameResolvedAll(subst, xs[..i], ys[..i])
        invariant ExactlyAll(s, ks, subst, kinds, xs[..i], ys[..i])
      {
        ghost var s1, ks1 := subst, kinds;
        ExtendsLength(s, s1);
        UnboundShrinks(s, s1);
        r := Unify(xs[i], ys[i]);
        OneMore(s, ks, s1, ks1, subst, kinds, xs, ys, i);
        ExtendsTrans(s, s1, subst);
        TightensTrans(ks, ks1, kinds);
        if r.Fail? { return; }
        StaySame(s1, subst, xs[..i], ys[..i]);
        SameOneMore(subst, xs, ys, i);
        i := i + 1;
      }
      assert xs[..i] == xs && ys[..i] == ys;
      r := Fine;
    }

    /** Literal variables nothing else decided become the default widths. */
    method DefaultNumerics()
      requires Valid()
      modifies this
      ensures Valid() && Extends(old(subst), subst) && kinds == old(kinds)
      ensures forall v :: 0 <= v < |subst| && old(subst)[v] == None ==>
                subst[v] == Defaulted(kinds[v])
    {
      hide KindsOk, Acyclic;
      GoodAcyclic(subst, kinds);
      var i := 0;
      while i < |subst|
        invariant 0 <= i <= |subst| && Valid() && kinds == old(kinds) && |subst| == |old(subst)| == |kinds|
        invariant forall v :: 0 <= v < |subst| ==>
                    subst[v] == if v < i && old(subst)[v] == None then Defaulted(kinds[v]) else old(subst)[v]
      {
        if subst[i] == None {
          if kinds[i] != Any {
            var t := Con(if kinds[i] == Num then "I64" else "F64", []);
            DefaultGood(subst, kinds, i, t.name);
            subst := subst[i := Some(t)];
          }
        }
        i := i + 1;
      }
    }
  }

  /** What an undecided variable of each kind becomes. */
  function Defaulted(k: Kind): Option<T> {
    match k
    case Any => None
    case Num => Some(Con("I64", []))
    case Float => Some(Con("F64", []))
  }
}
