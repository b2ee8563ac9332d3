/** Which functions the totality check accepts, and why they terminate
    (src/total.rs). */
module Totality {
  import opened Wrappers
  import opened Ast
  import opened CallGraph
  import opened Measures
  import opened Counting

  datatype Fun = Fun(name: string, params: seq<string>, ret: Option<Ty>, body: Expr, measure: Option<Expr>)

  type Program = seq<Fun>

  /** A way of reaching another function: its number, and the arguments, none
      where the function is only mentioned as a value. */
  datatype Call = Call(callee: nat, args: seq<Expr>)

  type Index = map<string, nat>

  // ------------------------------------------------------------- call sites

  function Scan(e: Expr, index: Index): seq<Call>
    decreases e
  {
    if e.App? && e.head.Var? && e.head.name in index then
      [Call(index[e.head.name], e.args)] + ScanAll(e, e.args, index)
    else
      (if e.Var? && e.name in index then [Call(index[e.name], [])] else [])
      + ScanAll(e, Children(e), index)
  }

  function ScanAll(parent: Expr, es: seq<Expr>, index: Index): seq<Call>
    requires forall i :: 0 <= i < |es| ==> es[i] < parent
    decreases parent, |es|
  {
    if es == [] then [] else Scan(es[0], index) + ScanAll(parent, es[1..], index)
  }

  lemma {:induction false} ScanAllHas(parent: Expr, es: seq<Expr>, index: Index, i: nat, c: Call)
    requires forall i :: 0 <= i < |es| ==> es[i] < parent
    requires i < |es| && c in Scan(es[i], index)
    ensures c in ScanAll(parent, es, index)
    decreases |es|
  {
    if i > 0 {
      ScanAllHas(parent, es[1..], index, i - 1, c);
    }
  }

  lemma {:induction false} ScanBound(e: Expr, index: Index, n: nat)
    requires forall k :: k in index ==> index[k] < n
    ensures forall i :: 0 <= i < |Scan(e, index)| ==> Scan(e, index)[i].callee < n
    decreases e
  {
    ScanAllBound(e, if e.App? && e.head.Var? && e.head.name in index then e.args else Children(e), index, n);
  }

  lemma {:induction false} ScanAllBound(parent: Expr, es: seq<Expr>, index: Index, n: nat)
    requires forall i :: 0 <= i < |es| ==> es[i] < parent
    requires forall k :: k in index ==> index[k] < n
    ensures forall i :: 0 <= i < |ScanAll(parent, es, index)| ==> ScanAll(parent, es, index)[i].callee < n
    decreases parent, |es|
  {
    if es != [] {
      ScanBound(es[0], index, n);
      ScanAllBound(parent, es[1..], index, n);
    }
  }

  /** Function names to numbers; of two functions of one name the later counts. */
  function IndexOf(funs: Program): (m: Index)
    ensures forall k :: k in m ==> m[k] < |funs|
  {
    if funs == [] then map[]
    else IndexOf(funs[..|funs| - 1])[funs[|funs| - 1].name := |funs| - 1]
  }

  function CallsOf(funs: Program, i: nat): seq<Call>
    requires i < |funs|
  {
    Scan(funs[i].body, IndexOf(funs))
  }

  function GraphOf(funs: Program): (g: Graph)
    ensures |g| == |funs|
  {
    seq(|funs|, i requires 0 <= i < |funs| =>
      seq(|CallsOf(funs, i)|, k requires 0 <= k < |CallsOf(funs, i)| => CallsOf(funs, i)[k].callee))
  }

  lemma GraphClosed(funs: Program)
    ensures Closed(GraphOf(funs))
  {
    forall i | 0 <= i < |funs|
      ensures forall k :: 0 <= k < |CallsOf(funs, i)| ==> CallsOf(funs, i)[k].callee < |funs|
    {
      ScanBound(funs[i].body, IndexOf(funs), |funs|);
    }
  }

  // --------------------------------------------------------------- cycles

  /** `i` can be reached from itself along at least one call. */
  ghost predicate OnCycle(g: Graph, i: nat) {
    exists p :: PathFrom(g, p, i, i) && |p| > 1
  }

  lemma CycleOfPair(g: Graph, i: nat, j: nat)
    requires i != j && Mutual(g, i, j)
    ensures OnCycle(g, i)
  {
    var p :| PathFrom(g, p, i, j);
    var q :| PathFrom(g, q, j, i);
    var r := p + q[1..];
    forall k | 0 <= k < |r| - 1
      ensures r[k + 1] in g[r[k]]
    {
      if k >= |p| - 1 {
        assert r[k] == q[k - |p| + 1] && r[k + 1] == q[k - |p| + 2];
      }
    }
    assert PathFrom(g, r, i, i);
  }

  lemma CycleOfLoop(g: Graph, i: nat)
    requires i < |g| && i in g[i]
    ensures OnCycle(g, i)
  {
    assert PathFrom(g, [i, i], i, i);
  }

  /** A cycle either is a self call or passes through another member of the
      component. */
  lemma CycleParts(g: Graph, i: nat)
    requires OnCycle(g, i)
    ensures i < |g| && (i in g[i] || exists j: nat :: j != i && j < |g| && Mutual(g, i, j))
  {
    var p :| PathFrom(g, p, i, i) && |p| > 1;
    var j := p[1];
    assert PathFrom(g, p[..2], i, j);
    assert PathFrom(g, p[1..], j, i);
    assert Mutual(g, i, j);
  }

  // ------------------------------------------------------------ the verdict

  /** A function declared effectful announces that it may not terminate. */
  function Effectful(t: Ty): bool {
    match t
    case TEff(_) => true
    case TFun(_, r) => Effectful(r)
    case _ => false
  }

  function Diverges(f: Fun): bool {
    f.ret.Some? && Effectful(f.ret.value)
  }

  /** Functions of `doms`, one after the other, to `r`. */
  function Arrows(doms: seq<Ty>, r: Ty): Ty { if doms == [] then r else TFun(doms[0], Arrows(doms[1..], r)) }

  lemma {:induction false} ArrowsEffectful(doms: seq<Ty>, r: Ty)
    ensures Effectful(Arrows(doms, TEff(r)))
    decreases |doms|
  {
    if doms != [] { ArrowsEffectful(doms[1..], r); }
  }

  lemma {:induction false} EffectfulArrows(t: Ty) returns (doms: seq<Ty>, r: Ty)
    requires Effectful(t)
    ensures t == Arrows(doms, TEff(r))
    decreases t
  {
    if t.TEff? {
      doms, r := [], t.inner;
    } else {
      var more, q := EffectfulArrows(t.cod);
      doms, r := [t.dom] + more, q;
      assert doms[1..] == more;
    }
  }

  /** A result is announced as effectful exactly where it is an effect once it has been given
      all its arguments. */
  lemma EffectfulIff(t: Ty)
    ensures Effectful(t) <==> exists doms, r :: t == Arrows(doms, TEff(r))
  {
    hide Arrows;
    if Effectful(t) { var doms, r := EffectfulArrows(t); }
    if doms, r :| t == Arrows(doms, TEff(r)) { ArrowsEffectful(doms, r); }
  }

  /** A tuple is compared part by part, anything else as one part. */
  function ComponentsOf(e: Expr): seq<Expr> {
    if e.Tuple? then e.items else [e]
  }

  function LinearAll(es: seq<Expr>): (ls: seq<Lin>)
    ensures |ls| == |es|
  {
    seq(|es|, i requires 0 <= i < |es| => Linear(es[i]))
  }

  ghost predicate AllOver(ls: seq<Lin>, params: seq<string>) {
    forall i :: 0 <= i < |ls| ==> OverParams(ls[i], params)
  }

  /** The parameter drops at every call of the function to itself. */
  ghost predicate DropsEverywhere(funs: Program, i: nat, p: string)
    requires i < |funs|
  {
    var l := LinVar(Name(p));
    forall c :: c in CallsOf(funs, i) && c.callee == i ==>
      var d := DeltaOf(l, l, funs[i].params, c.args); d.Some? && d.value > 0
  }

  /** No call leads to another member of the function's own component. */
  ghost predicate Solo(funs: Program, i: nat)
    requires i < |funs|
  {
    forall c :: c in CallsOf(funs, i) ==> c.callee == i || !Mutual(GraphOf(funs), i, c.callee)
  }

  ghost predicate FirstDropping(funs: Program, i: nat, k: nat)
    requires i < |funs|
  {
    && k < |funs[i].params| && DropsEverywhere(funs, i, funs[i].params[k])
    && forall j :: 0 <= j < k ==> !DropsEverywhere(funs, i, funs[i].params[j])
  }

  /** The measure a function is given: the written one where it is linear over
      the parameters, or else the first parameter that drops at every self call. */
  ghost predicate HasMeasure(funs: Program, i: nat, m: Option<seq<Lin>>)
    requires i < |funs|
  {
    if !OnCycle(GraphOf(funs), i) || Diverges(funs[i]) then m == None
    else match funs[i].measure
      case Some(e) =>
        var parts := LinearAll(ComponentsOf(e));
        m == if AllOver(parts, funs[i].params) then Some(parts) else None
      case None =>
        match m
        case Some(parts) =>
          Solo(funs, i) && exists k: nat :: FirstDropping(funs, i, k) && parts == [LinVar(Name(funs[i].params[k]))]
        case None =>
          !Solo(funs, i) || forall k :: 0 <= k < |funs[i].params| ==> !DropsEverywhere(funs, i, funs[i].params[k])
  }

  datatype Diag =
    | NoMeasure(fun: nat)
    | NotDecreasing(fun: nat, call: nat)

  ghost predicate Measuring(funs: Program, ms: seq<Option<seq<Lin>>>) {
    |ms| == |funs| && forall i :: 0 <= i < |funs| ==> HasMeasure(funs, i, ms[i])
  }

  /** What the check has to report. */
  ghost predicate Faulty(funs: Program, ms: seq<Option<seq<Lin>>>, d: Diag)
    requires Measuring(funs, ms)
  {
    match d
    case NoMeasure(i) => i < |funs| && OnCycle(GraphOf(funs), i) && !Diverges(funs[i]) && ms[i] == None
    case NotDecreasing(i, k) => i < |funs| && k < |CallsOf(funs, i)| && CallFaulty(funs, ms, i, k)
  }

  /** A call inside the component that does not take the measure down. */
  ghost predicate CallFaulty(funs: Program, ms: seq<Option<seq<Lin>>>, i: nat, k: nat)
    requires |ms| == |funs| && i < |funs| && k < |CallsOf(funs, i)|
  {
    var c := CallsOf(funs, i)[k];
    && c.callee < |funs| && Mutual(GraphOf(funs), i, c.callee)
    && ms[i].Some? && ms[c.callee].Some?
    && !LexDrops(ms[i].value, ms[c.callee].value, funs[c.callee].params, c.args)
  }

  /** Every call of the function that leads back to it is a call of itself. */
  ghost predicate OnlyOwnCalls(funs: Program, i: nat)
    requires i < |funs|
  {
    forall c :: c in CallsOf(funs, i) && Mutual(GraphOf(funs), i, c.callee) ==> c.callee == i
  }

  /** Each of those calls passes for the parameter something less by a constant, whatever the
      parameters are worth. */
  ghost predicate AlwaysLess(funs: Program, i: nat, p: string)
    requires i < |funs|
  {
    forall c :: c in CallsOf(funs, i) && c.callee == i ==> LessIn(funs[i].params, p, c.args)
  }

  ghost predicate LessIn(params: seq<string>, p: string, args: seq<Expr>) {
    exists d :: d > 0 && |args| == |params| && ConstantGap(LinVar(Name(p)), LinVar(Name(p)), params, args, d)
  }

  lemma DropsIffLess(funs: Program, i: nat, p: string)
    requires i < |funs| && p in funs[i].params
    ensures DropsEverywhere(funs, i, p) <==> AlwaysLess(funs, i, p)
  {
    hide ConstantGap;
    var l, ps := LinVar(Name(p)), funs[i].params;
    assert OverParams(l, ps);
    forall c | c in CallsOf(funs, i) && c.callee == i
      ensures (DeltaOf(l, l, ps, c.args).Some? && DeltaOf(l, l, ps, c.args).value > 0) <==> LessIn(ps, p, c.args)
    {
      if d :| d > 0 && |c.args| == |ps| && ConstantGap(l, l, ps, c.args, d) {
        GapUnique(l, l, ps, c.args, d, DeltaOf(l, l, ps, c.args).value);
      }
    }
  }

  /** A recursive function without a written measure gets one exactly where it calls no other
      member of its component and some parameter is always less: the first such. */
  lemma UnwrittenMeasure(funs: Program, ms: seq<Option<seq<Lin>>>, i: nat)
    requires Measuring(funs, ms) && i < |funs| && OnCycle(GraphOf(funs), i) && !Diverges(funs[i])
    requires funs[i].measure == None
    ensures ms[i].Some? <==> OnlyOwnCalls(funs, i) && exists p :: p in funs[i].params && AlwaysLess(funs, i, p)
    ensures ms[i].Some? ==>
              exists k :: 0 <= k < |funs[i].params| && ms[i] == Some([LinVar(Name(funs[i].params[k]))])
                          && AlwaysLess(funs, i, funs[i].params[k])
                          && forall j :: 0 <= j < k ==> !AlwaysLess(funs, i, funs[i].params[j])
  {
    hide DropsEverywhere, AlwaysLess, OnCycle, GraphOf, Mutual, Scan;
    var ps := funs[i].params;
    forall k | 0 <= k < |ps| ensures DropsEverywhere(funs, i, ps[k]) <==> AlwaysLess(funs, i, ps[k]) {
      DropsIffLess(funs, i, ps[k]);
    }
    assert HasMeasure(funs, i, ms[i]);
  }

  // ---------------------------------------------------------------- the check

  function Count(s: seq<nat>, c: nat): nat {
    if s == [] then 0 else Count(s[..|s| - 1], c) + if s[|s| - 1] == c then 1 else 0
  }

  lemma {:induction false} CountOthers(s: seq<nat>, i: nat, c: nat)
    requires i < |s| && s[i] == c
    ensures Count(s, c) >= 1
    ensures Count(s, c) > 1 <==> exists j :: 0 <= j < |s| && j != i && s[j] == c
  {
    var last := |s| - 1;
    if i < last {
      CountOthers(s[..last], i, c);
      if s[last] != c {
        assert forall j :: 0 <= j < |s| && j != i && s[j] == c ==> s[..last][j] == c;
      }
    } else {
      CountSome(s[..last], c);
      if j :| 0 <= j < |s| && j != i && s[j] == c {
        assert s[..last][j] == c;
      }
    }
  }

  lemma {:induction false} CountSome(s: seq<nat>, c: nat)
    ensures Count(s, c) > 0 <==> exists j :: 0 <= j < |s| && s[j] == c
  {
    if s != [] {
      var last := |s| - 1;
      CountSome(s[..last], c);
      if s[last] != c {
        assert forall j :: 0 <= j < |s| && s[j] == c ==> s[..last][j] == c;
      }
    }
  }

  /** Counts the members of each component, and flags exactly the vertices that a
      walk along calls can come back to. */
  method Recursive(g: Graph, comp: seq<nat>) returns (r: seq<bool>)
    requires Closed(g) && Components(g, comp) && forall v :: 0 <= v < |g| ==> comp[v] < |g|
    ensures |r| == |g| && forall i :: 0 <= i < |g| ==> (r[i] <==> OnCycle(g, i))
  {
    hide Components, OnCycle, Closed;
    assert |comp| == |g| by { CompSize(g, comp); }
    var size := new nat[|g|](_ => 0);
    for v := 0 to |g|
      invariant forall c :: 0 <= c < |g| ==> size[c] == Count(comp[..v], c)
    {
      assert comp[..v + 1][..v] == comp[..v];
      size[comp[v]] := size[comp[v]] + 1;
    }
    assert comp[..|g|] == comp;
    r := [];
    for i := 0 to |g|
      invariant forall c :: 0 <= c < |g| ==> size[c] == Count(comp, c)
      invariant |r| == i && forall j :: 0 <= j < i ==> (r[j] <==> OnCycle(g, j))
    {
      CountOthers(comp, i, comp[i]);
      RecursiveIff(g, comp, i);
      r := r + [size[comp[i]] > 1 || i in g[i]];
    }
  }

  lemma CompSize(g: Graph, comp: seq<nat>)
    requires Components(g, comp)
    ensures |comp| == |g|
  {}

  lemma SameComp(g: Graph, comp: seq<nat>, i: nat, j: nat)
    requires Components(g, comp) && i < |g| && j < |g|
    ensures |comp| == |g| && (comp[i] == comp[j] <==> Mutual(g, i, j))
  {}

  lemma RecursiveIff(g: Graph, comp: seq<nat>, i: nat)
    requires Components(g, comp) && i < |g|
    ensures OnCycle(g, i) <==> i in g[i] || exists j :: 0 <= j < |g| && j != i && comp[j] == comp[i]
  {
    if i in g[i] {
      CycleOfLoop(g, i);
    } else if j :| 0 <= j < |g| && j != i && comp[j] == comp[i] {
      assert Mutual(g, j, i);
      CycleOfPair(g, i, j);
    }
    if OnCycle(g, i) {
      CycleParts(g, i);
    }
  }

  method DropsAtSelfCalls(funs: Program, i: nat, p: string) returns (b: bool)
    requires i < |funs|
    ensures b == DropsEverywhere(funs, i, p)
  {
    hide DeltaOf, Scan, IndexOf;
    var l, calls := LinVar(Name(p)), CallsOf(funs, i);
    for k := 0 to |calls|
      invariant forall j :: 0 <= j < k && calls[j].callee == i ==>
        var d := DeltaOf(l, l, funs[i].params, calls[j].args); d.Some? && d.value > 0
    {
      if calls[k].callee == i {
        var d := Delta(l, l, funs[i].params, calls[k].args);
        if d == None || d.value <= 0 {
          assert calls[k] in calls;
          return false;
        }
      }
    }
    b := true;
  }

  method MeasureOf(funs: Program, i: nat, comp: seq<nat>, recursive: bool) returns (m: Option<seq<Lin>>)
    requires i < |funs| && Components(GraphOf(funs), comp) && (recursive <==> OnCycle(GraphOf(funs), i))
    ensures HasMeasure(funs, i, m)
    ensures m.Some? ==> forall k :: 0 <= k < |m.value| ==> Reduced(m.value[k])
  {
    hide Components;
    if !recursive || Diverges(funs[i]) {
      return None;
    }
    match funs[i].measure
    case Some(e) =>
      var parts := LinearAll(ComponentsOf(e));
      LinearReduced(ComponentsOf(e));
      var over := OverAll(parts, funs[i].params);
      m := if over then Some(parts) else None;
    case None =>
      var solo := IsSolo(funs, i, comp);
      if !solo {
        return None;
      }
      m := Inferred(funs, i);
  }

  /** The first parameter that drops at every call of the function to itself. */
  method Inferred(funs: Program, i: nat) returns (m: Option<seq<Lin>>)
    requires i < |funs|
    ensures match m
      case Some(ls) =>
        exists k :: 0 <= k < |funs[i].params| && FirstDropping(funs, i, k) && ls == [LinVar(Name(funs[i].params[k]))]
      case None => forall k :: 0 <= k < |funs[i].params| ==> !DropsEverywhere(funs, i, funs[i].params[k])
  {
    hide DropsEverywhere;
    for k := 0 to |funs[i].params|
      invariant forall j :: 0 <= j < k ==> !DropsEverywhere(funs, i, funs[i].params[j])
    {
      var drops := DropsAtSelfCalls(funs, i, funs[i].params[k]);
      if drops {
        assert FirstDropping(funs, i, k);
        return Some([LinVar(Name(funs[i].params[k]))]);
      }
    }
    m := None;
  }

  lemma LinearReduced(es: seq<Expr>)
    ensures forall k :: 0 <= k < |es| ==> Reduced(LinearAll(es)[k])
  {
    forall k | 0 <= k < |es| ensures Reduced(Linear(es[k])) {
      LinearEval(es[k], a => 0);
    }
  }

  method OverAll(parts: seq<Lin>, params: seq<string>) returns (b: bool)
    ensures b == AllOver(parts, params)
  {
    b := forall k :: 0 <= k < |parts| ==> forall a :: a in parts[k].terms ==> a.Name? && a.name in params;
  }

  method IsSolo(funs: Program, i: nat, comp: seq<nat>) returns (b: bool)
    requires i < |funs| && Components(GraphOf(funs), comp)
    ensures b == Solo(funs, i)
  {
    var calls := CallsOf(funs, i);
    GraphClosed(funs);
    assert forall k :: 0 <= k < |calls| ==> calls[k].callee == GraphOf(funs)[i][k];
    b := forall c :: c in calls ==> c.callee == i || comp[i] != comp[c.callee];
  }

  /** Both passes: first the measures, then the calls that stay inside a component.
      It reports exactly what is faulty. */
  method Check(funs: Program) returns (ds: seq<Diag>, ms: seq<Option<seq<Lin>>>)
    requires |funs| < UNSEEN
    ensures Measuring(funs, ms) && forall d :: d in ds <==> Faulty(funs, ms, d)
  {
    hide Closed, Components, OnCycle;
    var g := GraphOf(funs);
    GraphClosed(funs);
    var comp, _ := CallComponents(g);
    var recursive := Recursive(g, comp);
    ds, ms := [], [];
    for i := 0 to |funs|
      invariant |ms| == i && forall j :: 0 <= j < i ==> HasMeasure(funs, j, ms[j])
      invariant forall j, k :: 0 <= j < i && ms[j].Some? && 0 <= k < |ms[j].value| ==> Reduced(ms[j].value[k])
      invariant forall d :: d in ds <==>
        d.NoMeasure? && d.fun < i && OnCycle(g, d.fun) && !Diverges(funs[d.fun]) && ms[d.fun] == None
    {
      var m := MeasureOf(funs, i, comp, recursive[i]);
      if recursive[i] && !Diverges(funs[i]) && m == None {
        ds := ds + [NoMeasure(i)];
      }
      ms := ms + [m];
    }
    for i := 0 to |funs|
      invariant forall d :: d in ds <==>
        Faulty(funs, ms, d) && (d.NotDecreasing? ==> d.fun < i)
    {
      var more := CheckCalls(funs, ms, i, comp);
      ds := ds + more;
    }
  }

  method CheckCalls(funs: Program, ms: seq<Option<seq<Lin>>>, i: nat, comp: seq<nat>) returns (ds: seq<Diag>)
    requires Measuring(funs, ms) && i < |funs| && Components(GraphOf(funs), comp)
    requires forall j, k :: 0 <= j < |ms| && ms[j].Some? && 0 <= k < |ms[j].value| ==> Reduced(ms[j].value[k])
    ensures forall d :: d in ds <==> Faulty(funs, ms, d) && d.NotDecreasing? && d.fun == i
  {
    hide Measuring, CallFaulty, Components, Scan, GraphOf;
    assert |ms| == |funs| by { MeasuringSize(funs, ms); }
    ds := [];
    for k := 0 to |CallsOf(funs, i)|
      invariant forall d :: d in ds <==>
        d.NotDecreasing? && d.fun == i && d.call < k && CallFaulty(funs, ms, i, d.call)
    {
      var faulty := CheckCall(funs, ms, i, comp, k);
      if faulty {
        ds := ds + [NotDecreasing(i, k)];
      }
    }
  }

  lemma MeasuringSize(funs: Program, ms: seq<Option<seq<Lin>>>)
    requires Measuring(funs, ms)
    ensures |ms| == |funs|
  {}

  method CheckCall(funs: Program, ms: seq<Option<seq<Lin>>>, i: nat, comp: seq<nat>, k: nat) returns (faulty: bool)
    requires |ms| == |funs| && i < |funs| && Components(GraphOf(funs), comp) && k < |CallsOf(funs, i)|
    requires forall j, k :: 0 <= j < |ms| && ms[j].Some? && 0 <= k < |ms[j].value| ==> Reduced(ms[j].value[k])
    ensures faulty == CallFaulty(funs, ms, i, k)
  {
    ScanBound(funs[i].body, IndexOf(funs), |funs|);
    hide Components, Scan, Mutual, LexDrops;
    var c := CallsOf(funs, i)[k];
    SameComp(GraphOf(funs), comp, i, c.callee);
    faulty := false;
    if comp[i] == comp[c.callee] && ms[i].Some? && ms[c.callee].Some? {
      var drops := LexDecreases(ms[i].value, ms[c.callee].value, funs[c.callee].params, c.args);
      faulty := !drops;
    }
  }

  // ------------------------------------------------- what acceptance promises

  /** The values of the names in scope. */
  type Env = map<string, int>

  /** What an expression that is not arithmetic evaluates to. */
  type Oracle = (Expr, Env) -> int

  function Lookup(env: Env, n: string): int { if n in env then env[n] else 0 }

  ghost function Rho(env: Env, ora: Oracle): Valuation {
    (a: Atom) => match a case Name(n) => Lookup(env, n) case Written(e) => ora(e, env)
  }

  ghost predicate SameBut(a: Env, b: Env, ns: seq<string>) {
    forall n :: n !in ns ==> Lookup(a, n) == Lookup(b, n)
  }

  /** The names `e` binds over its child `i`. */
  function BoundOver(e: Expr, i: nat): seq<string> {
    match e
    case Let(n, _, _) => if i == 1 then [n] else []
    case Bind(n, _, _) => if i == 1 then [n] else []
    case Arena(n, _) => [n]
    case Lambda(ps, _) => ps
    case Match(_, arms) => if 0 < i <= |arms| then Names(arms[i - 1].pat) else []
    case _ => []
  }

  /** What is in scope in child `i` of `e`: a `let` gives its name the value, any
      other binder may give its names any value. */
  ghost predicate Scope(e: Expr, i: nat, env: Env, inner: Env, ora: Oracle) {
    if e.Let? && i == 1 then inner == env[e.name := Value(e.value, Rho(env, ora))]
    else if BoundOver(e, i) == [] then inner == env
    else SameBut(env, inner, BoundOver(e, i))
  }

  predicate IsCall(e: Expr, index: Index) {
    e.App? && e.head.Var? && e.head.name in index
  }

  /** Evaluating `e` in `env` may make call `c`, by the function's name, with `at`
      in scope. */
  ghost predicate Makes(e: Expr, env: Env, index: Index, ora: Oracle, c: Call, at: Env)
    decreases e
  {
    if IsCall(e, index) then
      || (c == Call(index[e.head.name], e.args) && at == env)
      || exists i :: 0 <= i < |e.args| && Makes(e.args[i], env, index, ora, c, at)
    else
      || (e.Var? && e.name in index && c == Call(index[e.name], []) && at == env)
      || exists i, inner :: 0 <= i < |Children(e)| && Scope(e, i, env, inner, ora)
                            && Makes(Children(e)[i], inner, index, ora, c, at)
  }

  predicate Calls(e: Expr, index: Index, f: nat) { exists c :: c in Scan(e, index) && c.callee == f }

  /** Whether some binder in `e` that reuses the name stands over a call of `f`. */
  predicate Hides(e: Expr, p: string, index: Index, f: nat)
    decreases e
  {
    exists i :: 0 <= i < |Children(e)| &&
      (Hides(Children(e)[i], p, index, f) || (p in BoundOver(e, i) && Calls(Children(e)[i], index, f)))
  }

  lemma HidesInside(e: Expr, i: nat, p: string, index: Index, f: nat)
    requires i < |Children(e)| && !Hides(e, p, index, f)
    ensures !Hides(Children(e)[i], p, index, f)
    ensures Calls(Children(e)[i], index, f) ==> p !in BoundOver(e, i)
  {}

  lemma ScopeKeeps(e: Expr, i: nat, env: Env, inner: Env, ora: Oracle, p: string)
    requires Scope(e, i, env, inner, ora) && p !in BoundOver(e, i)
    ensures Lookup(inner, p) == Lookup(env, p)
  {}

  /** Every call by name that is made was scanned, and sees the names that no
      binder over such a call reuses. */
  lemma {:induction false} MadeIsScanned(e: Expr, env: Env, index: Index, ora: Oracle, c: Call, at: Env)
    requires Makes(e, env, index, ora, c, at)
    ensures c in Scan(e, index)
    ensures forall p :: !Hides(e, p, index, c.callee) ==> Lookup(at, p) == Lookup(env, p)
    decreases e
  {
    hide Scope, Hides, Scan;
    if IsCall(e, index) {
      if !(c == Call(index[e.head.name], e.args) && at == env) {
        var i :| 0 <= i < |e.args| && Makes(e.args[i], env, index, ora, c, at);
        assert Children(e)[i + 1] == e.args[i];
        MadeIsScanned(e.args[i], env, index, ora, c, at);
        ArgScanned(e, i, index, c);
        forall p | !Hides(e, p, index, c.callee) ensures !Hides(e.args[i], p, index, c.callee) {
          HidesInside(e, i + 1, p, index, c.callee);
        }
      } else {
        HeadScanned(e, index);
      }
    } else if e.Var? && e.name in index && c == Call(index[e.name], []) && at == env {
      MentionScanned(e, index);
    } else {
      var i, inner :| 0 <= i < |Children(e)| && Scope(e, i, env, inner, ora)
                      && Makes(Children(e)[i], inner, index, ora, c, at);
      MadeIsScanned(Children(e)[i], inner, index, ora, c, at);
      ChildScanned(e, i, index, c);
      assert Calls(Children(e)[i], index, c.callee);
      forall p | !Hides(e, p, index, c.callee) ensures Lookup(at, p) == Lookup(env, p) {
        HidesInside(e, i, p, index, c.callee);
        ScopeKeeps(e, i, env, inner, ora, p);
      }
    }
  }

  lemma HeadScanned(e: Expr, index: Index)
    requires IsCall(e, index)
    ensures Call(index[e.head.name], e.args) in Scan(e, index)
  {}

  lemma MentionScanned(e: Expr, index: Index)
    requires e.Var? && e.name in index
    ensures Call(index[e.name], []) in Scan(e, index)
  {}

  lemma ArgScanned(e: Expr, i: nat, index: Index, c: Call)
    requires IsCall(e, index) && i < |e.args| && c in Scan(e.args[i], index)
    ensures c in Scan(e, index)
  {
    ScanAllHas(e, e.args, index, i, c);
  }

  lemma ChildScanned(e: Expr, i: nat, index: Index, c: Call)
    requires !IsCall(e, index) && i < |Children(e)| && c in Scan(Children(e)[i], index)
    ensures c in Scan(e, index)
  {
    ScanAllHas(e, Children(e), index, i, c);
  }

  lemma {:induction false} ScanAllFrom(parent: Expr, es: seq<Expr>, index: Index, c: Call) returns (i: nat)
    requires (forall i :: 0 <= i < |es| ==> es[i] < parent) && c in ScanAll(parent, es, index)
    ensures i < |es| && c in Scan(es[i], index)
    decreases |es|
  {
    hide Scan;
    if c in Scan(es[0], index) { return 0; }
    var j := ScanAllFrom(parent, es[1..], index, c);
    i := j + 1;
  }

  /** `x` is a call of a function of the module with these arguments, or a mention of one. */
  predicate Site(x: Expr, index: Index, c: Call) {
    if IsCall(x, index) then c == Call(index[x.head.name], x.args)
    else x.Var? && x.name in index && c == Call(index[x.name], [])
  }

  /** Following `path` from `e` leads to `x`. The name a call begins with is no mention. */
  predicate LeadsTo(e: Expr, path: seq<nat>, x: Expr, index: Index)
    decreases |path|
  {
    if path == [] then e == x
    else
      && path[0] < |Children(e)| && (IsCall(e, index) ==> path[0] > 0)
      && LeadsTo(Children(e)[path[0]], path[1..], x, index)
  }

  lemma LeadsOn(e: Expr, i: nat, path: seq<nat>, x: Expr, index: Index)
    requires i < |Children(e)| && (IsCall(e, index) ==> i > 0) && LeadsTo(Children(e)[i], path, x, index)
    ensures LeadsTo(e, [i] + path, x, index)
  {
    assert ([i] + path)[1..] == path;
  }

  lemma {:induction false} ScannedAt(e: Expr, index: Index, c: Call) returns (path: seq<nat>, x: Expr)
    requires c in Scan(e, index)
    ensures LeadsTo(e, path, x, index) && Site(x, index, c)
    decreases e
  {
    hide ScanAll, LeadsTo;
    if Site(e, index, c) {
      path, x := [], e;
      assert LeadsTo(e, path, x, index) by { LeadsNowhere(e, index); }
    } else if IsCall(e, index) {
      var i := ScanAllFrom(e, e.args, index, c);
      var rest, y := ScannedAt(e.args[i], index, c);
      assert Children(e)[i + 1] == e.args[i];
      LeadsOn(e, i + 1, rest, y, index);
      path, x := [i + 1] + rest, y;
    } else {
      var i := ScanAllFrom(e, Children(e), index, c);
      var rest, y := ScannedAt(Children(e)[i], index, c);
      LeadsOn(e, i, rest, y, index);
      path, x := [i] + rest, y;
    }
  }

  lemma LeadsNowhere(e: Expr, index: Index)
    ensures LeadsTo(e, [], e, index)
  {}

  lemma {:induction false} SiteScanned(e: Expr, path: seq<nat>, x: Expr, index: Index, c: Call)
    requires LeadsTo(e, path, x, index) && Site(x, index, c)
    ensures c in Scan(e, index)
    decreases |path|
  {
    hide Scan;
    if path == [] {
      if IsCall(e, index) { HeadScanned(e, index); } else { MentionScanned(e, index); }
    } else {
      SiteScanned(Children(e)[path[0]], path[1..], x, index, c);
      if IsCall(e, index) {
        assert Children(e)[path[0]] == e.args[path[0] - 1];
        ArgScanned(e, path[0] - 1, index, c);
      } else {
        ChildScanned(e, path[0], index, c);
      }
    }
  }

  /** The scan finds exactly the calls and mentions that are written in the body. */
  lemma ScanIff(e: Expr, index: Index, c: Call)
    ensures c in Scan(e, index) <==> exists path, x :: LeadsTo(e, path, x, index) && Site(x, index, c)
  {
    hide Scan, LeadsTo, Site;
    if c in Scan(e, index) { var path, x := ScannedAt(e, index, c); }
    if path, x :| LeadsTo(e, path, x, index) && Site(x, index, c) { SiteScanned(e, path, x, index, c); }
  }

  /** A function under evaluation, with the values of its parameters. */
  datatype Frame = Frame(fun: nat, env: Env)

  /** The argument `c` passes, seen from where it is made, is the parameter. */
  ghost predicate Enters(funs: Program, c: Call, at: Env, ora: Oracle, b: Frame)
    requires b.fun < |funs|
  {
    && c.callee == b.fun
    && (|c.args| == |funs[b.fun].params| ==>
          forall j :: 0 <= j < |c.args| ==> Lookup(b.env, funs[b.fun].params[j]) == Value(c.args[j], Rho(at, ora)))
  }

  ghost predicate CallStep(funs: Program, ora: Oracle, a: Frame, b: Frame) {
    && a.fun < |funs| && b.fun < |funs|
    && exists c, at :: Makes(funs[a.fun].body, a.env, IndexOf(funs), ora, c, at) && Enters(funs, c, at, ora, b)
  }

  predicate Mentions(m: seq<Lin>, p: string) { exists k :: 0 <= k < |m| && Name(p) in m[k].terms }

  /** No binder over a call inside the component reuses a name that the function's
      own measure mentions. Elsewhere, and of other names, binders are free. */
  ghost predicate NoShadowing(funs: Program, ms: seq<Option<seq<Lin>>>) {
    forall i, f: nat :: 0 <= i < |funs| && i < |ms| && ms[i].Some? && Mutual(GraphOf(funs), i, f) ==>
      Clear(funs[i].body, ms[i].value, IndexOf(funs), f)
  }

  predicate Clear(body: Expr, m: seq<Lin>, index: Index, f: nat) {
    forall k, a :: 0 <= k < |m| && a in m[k].terms && a.Name? ==> !Hides(body, a.name, index, f)
  }

  ghost predicate Accepted(funs: Program, ms: seq<Option<seq<Lin>>>) {
    Measuring(funs, ms) && forall d :: !Faulty(funs, ms, d)
  }

  lemma {:induction false} ValuesAgree(l: Lin, params: seq<string>, rho: Valuation, sigma: Valuation)
    requires OverParams(l, params)
    requires forall p :: Name(p) in l.terms ==> rho(Name(p)) == sigma(Name(p))
    ensures Eval(l, rho) == Eval(l, sigma)
  {
    SumAgree(l.terms.Keys, l, rho, sigma);
  }

  lemma MeasureOverParams(funs: Program, i: nat, m: Option<seq<Lin>>)
    requires i < |funs| && HasMeasure(funs, i, m) && m.Some?
    ensures AllOver(m.value, funs[i].params)
  {
    hide DropsEverywhere, OnCycle, Solo;
  }

  lemma MentionsParams(m: seq<Lin>, params: seq<string>)
    requires AllOver(m, params)
    ensures forall p :: Mentions(m, p) ==> p in params
  {}

  lemma MeasuresAgree(m: seq<Lin>, params: seq<string>, rho: Valuation, sigma: Valuation)
    requires AllOver(m, params) && forall p :: Mentions(m, p) ==> rho(Name(p)) == sigma(Name(p))
    ensures Measured(m, rho) == Measured(m, sigma)
  {
    forall i | 0 <= i < |m| ensures Eval(m[i], rho) == Eval(m[i], sigma) {
      assert forall p :: Name(p) in m[i].terms ==> Mentions(m, p);
      ValuesAgree(m[i], params, rho, sigma);
    }
  }

  /** The call made is one the check looked at. */
  lemma StepChecked(funs: Program, ms: seq<Option<seq<Lin>>>, ora: Oracle, a: Frame, c: Call, at: Env)
    requires Accepted(funs, ms) && a.fun < |funs| && c.callee < |funs| && Mutual(GraphOf(funs), a.fun, c.callee)
    requires Makes(funs[a.fun].body, a.env, IndexOf(funs), ora, c, at)
    requires ms[a.fun].Some? && ms[c.callee].Some?
    ensures LexDrops(ms[a.fun].value, ms[c.callee].value, funs[c.callee].params, c.args)
    ensures AllOver(ms[a.fun].value, funs[a.fun].params) && AllOver(ms[c.callee].value, funs[c.callee].params)
  {
    hide LexDrops, HasMeasure, Mutual, Makes, AllOver;
    MadeIsScanned(funs[a.fun].body, a.env, IndexOf(funs), ora, c, at);
    var k :| 0 <= k < |CallsOf(funs, a.fun)| && CallsOf(funs, a.fun)[k] == c;
    assert !Faulty(funs, ms, NotDecreasing(a.fun, k));
    MeasureOverParams(funs, a.fun, ms[a.fun]);
    MeasureOverParams(funs, c.callee, ms[c.callee]);
  }

  lemma CallerSeen(body: Expr, m: seq<Lin>, index: Index, ora: Oracle, env: Env, c: Call, at: Env)
    requires Clear(body, m, index, c.callee) && Makes(body, env, index, ora, c, at)
    ensures forall p :: Mentions(m, p) ==> Rho(env, ora)(Name(p)) == Rho(at, ora)(Name(p))
  {
    hide Makes, Hides;
    MadeIsScanned(body, env, index, ora, c, at);
  }

  lemma CalleeSeen(params: seq<string>, c: Call, at: Env, ora: Oracle, env: Env)
    requires |c.args| == |params|
    requires forall j :: 0 <= j < |c.args| ==> Lookup(env, params[j]) == Value(c.args[j], Rho(at, ora))
    ensures forall p :: p in params ==> Rho(env, ora)(Name(p)) == Passed(params, c.args, Rho(at, ora))(Name(p))
  {
    hide Value, Lookup;
    forall p | p in params
      ensures Rho(env, ora)(Name(p)) == Passed(params, c.args, Rho(at, ora))(Name(p))
    {
      assert params[Position(params, p)] == p;
    }
  }

  /** A call inside a component takes the measure down. */
  lemma StepGoesDown(funs: Program, ms: seq<Option<seq<Lin>>>, ora: Oracle, a: Frame, b: Frame)
    requires Accepted(funs, ms) && NoShadowing(funs, ms)
    requires CallStep(funs, ora, a, b) && Mutual(GraphOf(funs), a.fun, b.fun)
    requires a.fun < |ms| && b.fun < |ms| && ms[a.fun].Some? && ms[b.fun].Some?
    ensures Above(Measured(ms[a.fun].value, Rho(a.env, ora)), Measured(ms[b.fun].value, Rho(b.env, ora)))
  {
    hide Accepted, Clear, Mentions, Mutual, Makes, LexDrops, AllOver, Above, Measured, Passed, Rho;
    var c, at :| Makes(funs[a.fun].body, a.env, IndexOf(funs), ora, c, at) && Enters(funs, c, at, ora, b);
    StepChecked(funs, ms, ora, a, c, at);
    var ma, mb, params := ms[a.fun].value, ms[b.fun].value, funs[b.fun].params;
    LexSound(ma, mb, params, c.args, Rho(at, ora));
    DropsHasArity(ma, mb, params, c.args);
    CallerSeen(funs[a.fun].body, ma, IndexOf(funs), ora, a.env, c, at);
    CalleeSeen(params, c, at, ora, b.env);
    MeasuresAgree(ma, funs[a.fun].params, Rho(a.env, ora), Rho(at, ora));
    MentionsParams(mb, params);
    MeasuresAgree(mb, params, Rho(b.env, ora), Passed(params, c.args, Rho(at, ora)));
  }

  lemma DropsHasArity(caller: seq<Lin>, callee: seq<Lin>, params: seq<string>, args: seq<Expr>)
    requires LexDrops(caller, callee, params, args)
    ensures |args| == |params|
  {
    var k :| 0 <= k < |caller| && DropsAt(caller, callee, params, args, k);
  }

  // ------------------------------------------------ no infinite chain of calls

  type Frames = nat -> Frame

  ghost predicate Runs(funs: Program, ora: Oracle, run: Frames) {
    forall i: nat :: CallStep(funs, ora, run(i), run(i + 1))
  }

  ghost function Reachable(g: Graph, u: nat): set<nat> {
    set v | 0 <= v < |g| && Reach(g, u, v)
  }

  lemma StepIsEdge(funs: Program, ora: Oracle, a: Frame, b: Frame)
    requires CallStep(funs, ora, a, b)
    ensures b.fun in GraphOf(funs)[a.fun] && Reach(GraphOf(funs), a.fun, b.fun)
    ensures Reachable(GraphOf(funs), b.fun) <= Reachable(GraphOf(funs), a.fun)
  {
    var g := GraphOf(funs);
    var c, at :| Makes(funs[a.fun].body, a.env, IndexOf(funs), ora, c, at) && Enters(funs, c, at, ora, b);
    MadeIsScanned(funs[a.fun].body, a.env, IndexOf(funs), ora, c, at);
    var k :| 0 <= k < |CallsOf(funs, a.fun)| && CallsOf(funs, a.fun)[k] == c;
    assert g[a.fun][k] == b.fun;
    ReachEdge(g, a.fun, b.fun);
    forall v | v in Reachable(g, b.fun) ensures v in Reachable(g, a.fun) {
      ReachTrans(g, a.fun, b.fun, v);
    }
  }

  lemma SameSize(a: set<nat>, b: set<nat>)
    requires a <= b && |a| == |b|
    ensures a == b
  {
    if x :| x in b && x !in a {
      SubsetSize(a, b - {x});
    }
  }

  /** An infinite run ends up in one component, every function of it recursive. */
  lemma Confined(funs: Program, ora: Oracle, run: Frames) returns (n: nat)
    requires Runs(funs, ora, run)
    ensures forall i: nat :: i >= n ==> Mutual(GraphOf(funs), run(i).fun, run(i + 1).fun)
    ensures forall i: nat :: i >= n ==> OnCycle(GraphOf(funs), run(i).fun)
  {
    var g := GraphOf(funs);
    var size: nat -> int := (i: nat) => |Reachable(g, run(i).fun)|;
    forall i: nat ensures size(i) >= 0 && size(i + 1) <= size(i) {
      StepIsEdge(funs, ora, run(i), run(i + 1));
      SubsetSize(Reachable(g, run(i + 1).fun), Reachable(g, run(i).fun));
    }
    n := Settles(size, 0);
    forall i: nat | i >= n
      ensures Mutual(g, run(i).fun, run(i + 1).fun) && OnCycle(g, run(i).fun)
    {
      var u, v := run(i).fun, run(i + 1).fun;
      StepIsEdge(funs, ora, run(i), run(i + 1));
      assert size(i) == size(n) == size(i + 1);
      SameSize(Reachable(g, v), Reachable(g, u));
      ReachSelf(g, u);
      assert u in Reachable(g, v);
      if u == v { CycleOfLoop(g, u); } else { CycleOfPair(g, u, v); }
    }
  }

  /** The point of the check: in a program it accepts, with no binder shadowing a
      name of its function's measure, functions that are not effectful cannot call
      one another for ever while their measures stay natural. */
  lemma NoInfiniteRun(funs: Program, ms: seq<Option<seq<Lin>>>, ora: Oracle, run: Frames)
    requires Accepted(funs, ms) && NoShadowing(funs, ms) && Runs(funs, ora, run)
    requires forall i: nat :: run(i).fun < |funs| && !Diverges(funs[run(i).fun])
    requires forall i: nat, k :: ms[run(i).fun].Some? && 0 <= k < |ms[run(i).fun].value| ==>
               Eval(ms[run(i).fun].value[k], Rho(run(i).env, ora)) >= 0
    ensures false
  {
    hide HasMeasure, CallStep, OnCycle, Mutual, NoShadowing, Above;
    var n := Confined(funs, ora, run);
    forall i: nat | i >= n ensures ms[run(i).fun].Some? {
      assert !Faulty(funs, ms, NoMeasure(run(i).fun));
    }
    hide Accepted;
    assert |ms| == |funs|;
    var chain := MeasureChain(ms, ora, run, n);
    forall i: nat ensures Above(chain(i), chain(i + 1)) {
      StepGoesDown(funs, ms, ora, run(n + i), run(n + i + 1));
    }
    forall i: nat ensures |chain(i)| == |chain(0)| && forall k :: 0 <= k < |chain(i)| ==> chain(i)[k] >= 0 {
      SameWidth(chain, i);
      var f := run(n + i);
      NaturalMeasured(ms[f.fun].value, Rho(f.env, ora));
      assert chain(i) == Measured(ms[f.fun].value, Rho(f.env, ora));
    }
    assert Descends(chain, |chain(0)|);
    NoDescent(chain, |chain(0)|);
  }

  /** A run that never ends takes some measure below zero. */
  lemma EndlessRunGoesNegative(funs: Program, ms: seq<Option<seq<Lin>>>, ora: Oracle, run: Frames)
    returns (i: nat, k: nat)
    requires Accepted(funs, ms) && NoShadowing(funs, ms) && Runs(funs, ora, run)
    requires forall i: nat :: run(i).fun < |funs| && !Diverges(funs[run(i).fun])
    ensures ms[run(i).fun].Some? && k < |ms[run(i).fun].value|
    ensures Eval(ms[run(i).fun].value[k], Rho(run(i).env, ora)) < 0
  {
    hide HasMeasure, CallStep, NoShadowing, Runs, Faulty;
    if forall i: nat, k :: ms[run(i).fun].Some? && 0 <= k < |ms[run(i).fun].value| ==>
         Eval(ms[run(i).fun].value[k], Rho(run(i).env, ora)) >= 0 {
      NoInfiniteRun(funs, ms, ora, run);
    }
    i, k :| ms[run(i).fun].Some? && 0 <= k < |ms[run(i).fun].value|
      && Eval(ms[run(i).fun].value[k], Rho(run(i).env, ora)) < 0;
  }

  ghost function MeasureChain(ms: seq<Option<seq<Lin>>>, ora: Oracle, run: Frames, n: nat): Chain {
    (i: nat) =>
      if run(n + i).fun < |ms| && ms[run(n + i).fun].Some?
      then Measured(ms[run(n + i).fun].value, Rho(run(n + i).env, ora)) else []
  }

  lemma NaturalMeasured(m: seq<Lin>, rho: Valuation)
    requires forall k :: 0 <= k < |m| ==> Eval(m[k], rho) >= 0
    ensures forall k :: 0 <= k < |m| ==> Measured(m, rho)[k] >= 0
  {
    hide Eval;
    forall k | 0 <= k < |m| ensures Measured(m, rho)[k] >= 0 { assert Measured(m, rho)[k] == Eval(m[k], rho); }
  }

  lemma {:induction false} SameWidth(chain: Chain, i: nat)
    requires forall i: nat :: Above(chain(i), chain(i + 1))
    ensures |chain(i)| == |chain(0)|
  {
    if i > 0 {
      SameWidth(chain, i - 1);
      assert Above(chain(i - 1), chain(i - 1 + 1));
    }
  }

  // ------------------------------------------------ shadowing defeats the check

  function Decrement(n: string, k: int): Expr { Binop(Sub, Var(n), Int(k)) }

  function Increment(n: string, k: int): Expr { Binop(Add, Var(n), Int(k)) }

  function RebinderBody(f: string, n: string, v: Expr, k: int): Expr {
    Let(n, v, App(Var(f), [Decrement(n, k)]))
  }

  /** `f n = let n = v in f (n - k)`, whatever the two names, the value and the number. */
  function Rebinder(f: string, n: string, v: Expr, k: int): Program {
    [Fun(f, [n], None, RebinderBody(f, n, v, k), None)]
  }

  /** `f n = let n = n + k in f (n - k)`. */
  function Spinner(f: string, n: string, k: int): Program { Rebinder(f, n, Increment(n, k), k) }

  lemma RebinderCalls(f: string, n: string, v: Expr, k: int)
    requires f != n && Scan(v, map[f := 0]) == []
    ensures CallsOf(Rebinder(f, n, v, k), 0) == [Call(0, [Decrement(n, k)])]
    ensures IndexOf(Rebinder(f, n, v, k)) == map[f := 0]
  {
    hide IndexOf, Scan;
    RebinderIndex(f, n, v, k);
    RebinderScan(f, n, v, k);
  }

  lemma RebinderIndex(f: string, n: string, v: Expr, k: int)
    ensures IndexOf(Rebinder(f, n, v, k)) == map[f := 0]
  {
    var funs := Rebinder(f, n, v, k);
    assert funs[..0] == [];
  }

  lemma RebinderScan(f: string, n: string, v: Expr, k: int)
    requires f != n && Scan(v, map[f := 0]) == []
    ensures Scan(RebinderBody(f, n, v, k), map[f := 0]) == [Call(0, [Decrement(n, k)])]
  {
    var body, call, index := RebinderBody(f, n, v, k), App(Var(f), [Decrement(n, k)]), map[f := 0];
    ScanCall(f, n, k, index);
    hide Scan;
    ScanPair(body, v, call, index);
    LetScans(body, index);
  }

  lemma LetScans(e: Expr, index: Index)
    requires e.Let?
    ensures Scan(e, index) == ScanAll(e, [e.value, e.body], index)
  {
    hide ScanAll;
  }

  lemma ScanSum(op: BinOp, n: string, k: int, index: Index)
    requires n !in index
    ensures Scan(Binop(op, Var(n), Int(k)), index) == []
  {
    ScanPair(Binop(op, Var(n), Int(k)), Var(n), Int(k), index);
    assert Scan(Var(n), index) == [] && Scan(Int(k), index) == [];
  }

  lemma ScanCall(f: string, n: string, k: int, index: Index)
    requires n !in index && f in index
    ensures Scan(App(Var(f), [Decrement(n, k)]), index) == [Call(index[f], [Decrement(n, k)])]
  {
    var call := App(Var(f), [Decrement(n, k)]);
    ScanSum(Sub, n, k, index);
    assert ScanAll(call, [Decrement(n, k)], index) == Scan(Decrement(n, k), index) + ScanAll(call, [], index);
  }

  lemma ScanPair(parent: Expr, a: Expr, b: Expr, index: Index)
    requires a < parent && b < parent
    ensures ScanAll(parent, [a, b], index) == Scan(a, index) + Scan(b, index)
  {
    assert [a, b][1..] == [b] && [b][1..] == [];
    assert ScanAll(parent, [b], index) == Scan(b, index) + ScanAll(parent, [], index);
  }

  lemma DecrementDelta(n: string, k: int)
    ensures var l := LinVar(Name(n)); DeltaOf(l, l, [n], [Decrement(n, k)]) == Some(k)
  {
    var l := LinVar(Name(n));
    forall rho ensures Gap(l, l, [n], [Decrement(n, k)], rho) == k {
      VarEval(Name(n), rho);
      VarEval(Name(n), Passed([n], [Decrement(n, k)], rho));
      assert [n][Position([n], n)] == n;
      assert Value(Decrement(n, k), rho) == rho(Name(n)) - k;
    }
    assert ConstantGap(l, l, [n], [Decrement(n, k)], k);
    forall d | ConstantGap(l, l, [n], [Decrement(n, k)], d) ensures d == k {
      GapUnique(l, l, [n], [Decrement(n, k)], k, d);
    }
  }

  lemma RebinderMeasured(f: string, n: string, v: Expr, k: int)
    requires f != n && k > 0 && Scan(v, map[f := 0]) == []
    ensures HasMeasure(Rebinder(f, n, v, k), 0, Some([LinVar(Name(n))]))
  {
    var funs := Rebinder(f, n, v, k);
    RebinderCalls(f, n, v, k);
    DecrementDelta(n, k);
    CycleOfLoop(GraphOf(funs), 0) by { assert GraphOf(funs)[0][0] == 0; }
    hide OnCycle, IndexOf, Scan, DeltaOf;
    assert Solo(funs, 0);
    assert DropsEverywhere(funs, 0, n);
    assert FirstDropping(funs, 0, 0);
  }

  lemma RebinderFaultless(f: string, n: string, v: Expr, k: int, ms: seq<Option<seq<Lin>>>)
    requires f != n && k > 0 && Scan(v, map[f := 0]) == [] && ms == [Some([LinVar(Name(n))])]
    ensures Accepted(Rebinder(f, n, v, k), ms)
  {
    var l := LinVar(Name(n));
    RebinderMeasured(f, n, v, k);
    RebinderCalls(f, n, v, k);
    DecrementDelta(n, k);
    hide HasMeasure, OnCycle, IndexOf, Scan, DeltaOf, Mutual;
    assert DropsAt([l], [l], [n], [Decrement(n, k)], 0);
  }

  lemma LetThenCall(n: string, v: Expr, f: string, args: seq<Expr>, env: Env, index: Index, ora: Oracle)
    requires f in index
    ensures Makes(Let(n, v, App(Var(f), args)), env, index, ora, Call(index[f], args),
                  env[n := Value(v, Rho(env, ora))])
  {
    var e, inner := Let(n, v, App(Var(f), args)), env[n := Value(v, Rho(env, ora))];
    assert Children(e)[1] == App(Var(f), args);
    assert Scope(e, 1, env, inner, ora);
    assert Makes(Children(e)[1], inner, index, ora, Call(index[f], args), inner);
  }

  lemma ValueStep(n: string, k: int, env: Env, ora: Oracle)
    ensures Value(Increment(n, k), Rho(env, ora)) == Lookup(env, n) + k
    ensures Value(Decrement(n, k), Rho(env, ora)) == Lookup(env, n) - k
  {}

  /** The one call that the rebinding function makes, and what it sees. */
  lemma RebinderMakes(f: string, n: string, v: Expr, k: int, env: Env, ora: Oracle, c: Call, at: Env)
    requires f != n && Scan(v, map[f := 0]) == [] && Makes(RebinderBody(f, n, v, k), env, map[f := 0], ora, c, at)
    ensures c == Call(0, [Decrement(n, k)]) && at == env[n := Value(v, Rho(env, ora))]
  {
    hide Scan, Rho, Value;
    var e, index, call := RebinderBody(f, n, v, k), map[f := 0], App(Var(f), [Decrement(n, k)]);
    ScanSum(Sub, n, k, index);
    var i, inner :| 0 <= i < |Children(e)| && Scope(e, i, env, inner, ora)
                    && Makes(Children(e)[i], inner, index, ora, c, at);
    if i == 0 {
      MadeIsScanned(v, inner, index, ora, c, at);
    } else if !(c == Call(0, [Decrement(n, k)]) && at == inner) {
      assert Makes(call, inner, index, ora, c, at);
      MadeIsScanned(Decrement(n, k), inner, index, ora, c, at);
    }
  }

  lemma RebinderStep(f: string, n: string, v: Expr, k: int, ora: Oracle, a: Env, b: Env)
    requires f != n && Scan(v, map[f := 0]) == []
    requires CallStep(Rebinder(f, n, v, k), ora, Frame(0, a), Frame(0, b))
    ensures Lookup(b, n) == Value(v, Rho(a, ora)) - k
  {
    var funs := Rebinder(f, n, v, k);
    RebinderCalls(f, n, v, k);
    hide Scan, Makes, IndexOf, CallsOf, Rho, Value, Enters;
    var c, at :| Makes(funs[0].body, a, IndexOf(funs), ora, c, at) && Enters(funs, c, at, ora, Frame(0, b));
    RebinderMakes(f, n, v, k, a, ora, c, at);
    ValueStep(n, k, at, ora);
    OneEntered(funs, c, at, ora, b, n);
  }

  lemma OneEntered(funs: Program, c: Call, at: Env, ora: Oracle, b: Env, n: string)
    requires funs != [] && funs[0].params == [n] && |c.args| == 1 && Enters(funs, c, at, ora, Frame(0, b))
    ensures Lookup(b, n) == Value(c.args[0], Rho(at, ora))
  {
    hide Value, Rho;
  }

  /** A rebinding of the measured parameter is harmless exactly while it stays short
      of undoing the descent: the check accepts `f n = let n = v in f (n - k)`, and
      the call takes the measure down if and only if `v` is worth less than `n + k`. */
  lemma RebindingExact(f: string, n: string, v: Expr, k: int, ora: Oracle, a: Env, b: Env)
    requires f != n && k > 0 && Scan(v, map[f := 0]) == []
    requires CallStep(Rebinder(f, n, v, k), ora, Frame(0, a), Frame(0, b))
    ensures var ms := [Some([LinVar(Name(n))])];
            && Accepted(Rebinder(f, n, v, k), ms)
            && (Above(Measured(ms[0].value, Rho(a, ora)), Measured(ms[0].value, Rho(b, ora)))
                <==> Value(v, Rho(a, ora)) < Lookup(a, n) + k)
  {
    hide Accepted, Scan, CallStep, Measured, Value, Rho;
    RebinderFaultless(f, n, v, k, [Some([LinVar(Name(n))])]);
    RebinderStep(f, n, v, k, ora, a, b);
    VarMeasured(n, a, ora);
    VarMeasured(n, b, ora);
    OneAbove(Lookup(a, n), Lookup(b, n));
  }

  lemma OneAbove(x: int, y: int)
    ensures Above([x], [y]) <==> x > y
  {
    if x > y { assert [x][0] > [y][0]; }
  }

  lemma VarMeasured(n: string, env: Env, ora: Oracle)
    ensures Measured([LinVar(Name(n))], Rho(env, ora)) == [Lookup(env, n)]
  {
    VarEval(Name(n), Rho(env, ora));
    var m := Measured([LinVar(Name(n))], Rho(env, ora));
    assert |m| == 1 && m[0] == Lookup(env, n);
  }

  lemma SpinnerSpins(f: string, n: string, k: int, ora: Oracle, env: Env)
    requires f != n
    ensures CallStep(Spinner(f, n, k), ora, Frame(0, env), Frame(0, env))
  {
    ScanSum(Add, n, k, map[f := 0]);
    RebinderCalls(f, n, Increment(n, k), k);
    var funs := Spinner(f, n, k);
    var call, inner := Call(0, [Decrement(n, k)]), env[n := Value(Increment(n, k), Rho(env, ora))];
    ValueStep(n, k, env, ora);
    ValueStep(n, k, inner, ora);
    hide Scan, Makes, Value, IndexOf, Rho;
    LetThenCall(n, Increment(n, k), f, [Decrement(n, k)], env, IndexOf(funs), ora);
    assert Enters(funs, call, inner, ora, Frame(0, env));
  }

  /** Without `NoShadowing` the promise fails: the check accepts `Spinner`, whose
      measure `n` stays natural along a run that never ends. */
  lemma ShadowingDefeatsCheck(f: string, n: string, k: int, ora: Oracle)
    returns (ms: seq<Option<seq<Lin>>>, run: Frames)
    requires f != n && k > 0
    ensures Accepted(Spinner(f, n, k), ms) && Runs(Spinner(f, n, k), ora, run)
    ensures forall i: nat :: run(i).fun == 0 && !Diverges(Spinner(f, n, k)[0])
    ensures ms[0].Some? && forall i: nat :: Measured(ms[0].value, Rho(run(i).env, ora)) == [5]
  {
    var env: Env := map[n := 5];
    ms := [Some([LinVar(Name(n))])];
    run := i => Frame(0, env);
    ScanSum(Add, n, k, map[f := 0]);
    RebinderFaultless(f, n, Increment(n, k), k, ms);
    hide Accepted, CallStep, Measured, Scan, Rho;
    SpinnerSpins(f, n, k, ora, env);
    VarMeasured(n, env, ora);
    assert Measured(ms[0].value, Rho(env, ora)) == [5];
    assert forall i: nat :: run(i) == Frame(0, env);
  }
}
