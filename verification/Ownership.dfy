/** Affine use and drop placement (src/own.rs).

    A position, the path of child indices from a function's body, stands for the
    source span of the expression there. */
module Ownership {
  import opened Ast

  type Pos = seq<nat>

  datatype When = ScopeEnd | BackEdge

  datatype Site = Site(name: string, at: Pos, when: When)

  datatype Mode = Own | Lend

  /** A name used, or lent, after the move at `first`. */
  datatype Err = UseAfterMove(name: string, at: Pos, first: Pos) | LendAfterMove(name: string, at: Pos, first: Pos)

  /** What the walk over one function knows from elsewhere: the function's name
      and arity, the positions each callee borrows, the callees typed by a rule,
      those that hand out interior pointers, the affine binders, keyed by the
      expression each scopes over, and the names that reach the result. */
  datatype Facts = Facts(fun: string, arity: nat, borrows: map<string, seq<bool>>, special: set<string>,
                         shares: set<string>, affine: set<(Pos, string)>, leaves: set<string>)

  type Moves = map<string, Pos>

  datatype Out = Out(moved: Moves, sites: seq<Site>, errors: seq<Err>)

  // ------------------------------------------------------------------- names

  /** The owned names in scope under a binder of `bound` over the body at `at`. */
  function Scoped(fx: Facts, owned: seq<string>, bound: seq<string>, at: Pos): seq<string> {
    Without(owned, bound) + Affine(fx, bound, at)
  }

  function Without(names: seq<string>, gone: seq<string>): seq<string> {
    if names == [] then []
    else (if names[0] in gone then [] else [names[0]]) + Without(names[1..], gone)
  }

  function Affine(fx: Facts, names: seq<string>, at: Pos): seq<string> {
    if names == [] then []
    else (if (at, names[0]) in fx.affine then [names[0]] else []) + Affine(fx, names[1..], at)
  }

  /** Those of `names` that nothing moved and this frame may free. */
  function Unclaimed(fx: Facts, names: seq<string>, moved: Moves, shared: set<string>): seq<string> {
    if names == [] then []
    else if names[0] in moved || names[0] in fx.leaves || names[0] in shared
      then Unclaimed(fx, names[1..], moved, shared)
    else [names[0]] + Unclaimed(fx, names[1..], moved, shared)
  }

  function Among(names: seq<string>, moved: Moves): seq<string> {
    if names == [] then []
    else if names[0] in moved then [names[0]] + Among(names[1..], moved)
    else Among(names[1..], moved)
  }

  function SitesFor(names: seq<string>, at: Pos, when: When): seq<Site> {
    if names == [] then [] else [Site(names[0], at, when)] + SitesFor(names[1..], at, when)
  }

  // -------------------------------------------------------------------- walk

  /** Whether `e` can yield one of `names`, or something inside it. A call does so only
      through a callee that hands out what it was given; `fold` is one exactly where
      the function it is given returns its own argument. */
  predicate HandsOut(fx: Facts, e: Expr, names: set<string>)
    decreases e
  {
    match e
    case Var(n) => n in names
    case Borrow(x) => HandsOut(fx, x, names)
    case Proj(x, _) => HandsOut(fx, x, names)
    case Arena(_, x) => HandsOut(fx, x, names)
    case Let(_, _, b) => HandsOut(fx, b, names)
    case Bind(_, _, b) => HandsOut(fx, b, names)
    case Match(_, arms) => exists i :: 0 <= i < |arms| && HandsOut(fx, arms[i].body, names)
    case Tuple(xs) => exists i :: 0 <= i < |xs| && HandsOut(fx, xs[i], names)
    case List(xs) => exists i :: 0 <= i < |xs| && HandsOut(fx, xs[i], names)
    case Record(base, fs) =>
      (base.Some? && HandsOut(fx, base.value, names)) || exists i :: 0 <= i < |fs| && HandsOut(fx, fs[i].value, names)
    case App(h, xs) =>
      && h.Var?
      && (if h.name == "fold" then exists i :: 0 <= i < |xs| && ReturnsItsArgument(fx, xs[i]) else h.name in fx.shares)
      && exists i :: 0 <= i < |xs| && HandsOut(fx, xs[i], names)
    case _ => false
  }

  predicate ReturnsItsArgument(fx: Facts, e: Expr)
    decreases e
  {
    e.Lambda? && HandsOut(fx, e.body, set p | p in e.params)
  }

  /** Whether evaluating `e` can yield a pointer into what another name owns. */
  predicate MaybeShared(fx: Facts, e: Expr, shared: set<string>)
    decreases e
  {
    match e
    case Var(n) => n in shared
    case Proj(_, _) => true
    case Borrow(x) => MaybeShared(fx, x, shared)
    case Neg(x) => MaybeShared(fx, x, shared)
    case Not(x) => MaybeShared(fx, x, shared)
    case Arena(_, x) => MaybeShared(fx, x, shared)
    case Let(_, _, b) => MaybeShared(fx, b, shared)
    case Bind(_, _, b) => MaybeShared(fx, b, shared)
    case Match(_, arms) => exists i :: 0 <= i < |arms| && MaybeShared(fx, arms[i].body, shared)
    case Tuple(xs) => exists i :: 0 <= i < |xs| && MaybeShared(fx, xs[i], shared)
    case List(xs) => exists i :: 0 <= i < |xs| && MaybeShared(fx, xs[i], shared)
    case Record(base, fs) =>
      || (base.Some? && MaybeShared(fx, base.value, shared))
      || exists i :: 0 <= i < |fs| && MaybeShared(fx, fs[i].value, shared)
    case App(h, xs) =>
      (h.Var? && h.name in fx.shares) || exists i :: 0 <= i < |xs| && ReturnsItsArgument(fx, xs[i])
    case _ => false
  }

  function UseVar(n: string, at: Pos, mode: Mode, owned: seq<string>, moved: Moves): Out {
    if n !in owned then Out(moved, [], [])
    else if n in moved then
      Out(moved, [], [if mode == Lend then LendAfterMove(n, at, moved[n]) else UseAfterMove(n, at, moved[n])])
    else Out(if mode == Lend then moved else moved[n := at], [], [])
  }

  /** How a call of `h` takes its argument `i`. */
  function ArgMode(fx: Facts, h: Expr, i: nat): Mode {
    if h.Var? && (h.name in fx.special || (h.name in fx.borrows && i < |fx.borrows[h.name]| && fx.borrows[h.name][i]))
    then Lend else Own
  }

  function ArgModes(fx: Facts, h: Expr, n: nat): (r: seq<Mode>)
    ensures |r| == n && forall i :: 0 <= i < n ==> r[i] == ArgMode(fx, h, i)
  {
    if n == 0 then [] else ArgModes(fx, h, n - 1) + [ArgMode(fx, h, n - 1)]
  }

  function AllIn(mode: Mode, n: nat): (r: seq<Mode>)
    ensures |r| == n && forall i :: 0 <= i < n ==> r[i] == mode
  {
    if n == 0 then [] else [mode] + AllIn(mode, n - 1)
  }

  /** A saturated call of the function itself, as the walk sees it. */
  predicate SelfCall(fx: Facts, e: Expr, owned: seq<string>) {
    e.App? && e.head.Var? && e.head.name == fx.fun && |e.args| == fx.arity && e.head.name !in owned
  }

  predicate Binder(e: Expr) { e.Let? || e.Bind? }

  function Walk(fx: Facts, e: Expr, at: Pos, mode: Mode, owned: seq<string>, moved: Moves, shared: set<string>): Out
    decreases e
  {
    match e
    case Var(n) => UseVar(n, at, mode, owned, moved)
    case Borrow(x) => Walk(fx, x, at + [0], Lend, owned, moved, shared)
    case Neg(x) => Walk(fx, x, at + [0], mode, owned, moved, shared)
    case Arena(_, x) => Walk(fx, x, at + [0], mode, owned, moved, shared)
    case Not(x) => Walk(fx, x, at + [0], mode, owned, moved, shared)
    case Binop(_, a, b) =>
      var o := Walk(fx, a, at + [0], mode, owned, moved, shared);
      var r := Walk(fx, b, at + [1], mode, owned, o.moved, shared);
      Out(r.moved, o.sites + r.sites, o.errors + r.errors)
    case Tuple(xs) => WalkAll(fx, e, xs, AllIn(mode, |xs|), at, 0, owned, moved, shared)
    case List(xs) => WalkAll(fx, e, xs, AllIn(mode, |xs|), at, 0, owned, moved, shared)
    case App(h, args) =>
      var o := Walk(fx, h, at + [0], Lend, owned, moved, shared);
      var r := WalkAll(fx, e, args, ArgModes(fx, h, |args|), at, 1, owned, o.moved, shared);
      Out(r.moved, o.sites + r.sites + BackSites(fx, e, at, owned, r.moved, shared), o.errors + r.errors)
    case Let(n, v, b) => WalkBinder(fx, e, at, mode, owned, moved, shared)
    case Bind(n, v, b) => WalkBinder(fx, e, at, mode, owned, moved, shared)
    case Match(scrut, arms) =>
      var o := Walk(fx, scrut, at + [0], Lend, owned, moved, shared);
      var outs := WalkArms(fx, e, scrut, arms, at, 1, mode, owned, o.moved, shared);
      var after := Joined(o.moved, outs);
      Out(after, o.sites + AllSites(outs) + KeptSites(fx, arms, outs, at, 1, owned, after, shared),
          o.errors + AllErrors(outs))
    case _ => Out(moved, [], [])
  }

  function BackSites(fx: Facts, e: Expr, at: Pos, owned: seq<string>, moved: Moves, shared: set<string>): seq<Site> {
    if SelfCall(fx, e, owned) then SitesFor(Unclaimed(fx, owned, moved, shared), at, BackEdge) else []
  }

  function WalkAll(fx: Facts, parent: Expr, es: seq<Expr>, modes: seq<Mode>, at: Pos, k: nat, owned: seq<string>,
                   moved: Moves, shared: set<string>): Out
    requires |modes| == |es| && forall i :: 0 <= i < |es| ==> es[i] < parent
    decreases parent, |es|
  {
    if es == [] then Out(moved, [], [])
    else
      var o := Walk(fx, es[0], at + [k], modes[0], owned, moved, shared);
      var r := WalkAll(fx, parent, es[1..], modes[1..], at, k + 1, owned, o.moved, shared);
      Out(r.moved, o.sites + r.sites, o.errors + r.errors)
  }

  function LetShared(fx: Facts, e: Expr, shared: set<string>): set<string>
    requires Binder(e)
  {
    if MaybeShared(fx, e.value, shared) then shared + {e.name} else shared
  }

  function WalkBinder(fx: Facts, e: Expr, at: Pos, mode: Mode, owned: seq<string>, moved: Moves,
                      shared: set<string>): Out
    requires Binder(e)
    decreases e, 0
  {
    var o := Walk(fx, e.value, at + [0], mode, owned, moved, shared);
    var inner, within := Scoped(fx, owned, [e.name], at + [1]), LetShared(fx, e, shared);
    var b := Walk(fx, e.body, at + [1], mode, inner, o.moved, within);
    Out(b.moved - {e.name}, o.sites + b.sites + LetSites(fx, e.name, at + [1], inner, b.moved, within),
        o.errors + b.errors)
  }

  function LetSites(fx: Facts, n: string, at: Pos, inner: seq<string>, moved: Moves, shared: set<string>): seq<Site> {
    if n in inner && n !in moved && n !in fx.leaves && n !in shared then [Site(n, at, ScopeEnd)] else []
  }

  /** One arm: a payload the pattern names is shared, and handing one on takes
      the scrutinee with it. */
  function WalkArm(fx: Facts, scrut: Expr, arm: Arm, at: Pos, mode: Mode, owned: seq<string>, moved: Moves,
                   shared: set<string>): Out
    decreases arm
  {
    var bound := Names(arm.pat);
    var names := set n | n in bound;
    var o := Walk(fx, arm.body, at, mode, Scoped(fx, owned, bound, at), moved - names, shared + names);
    var taken := Among(bound, o.moved);
    var m := if scrut.Var? && scrut.name in owned && scrut.name !in o.moved && taken != []
             then o.moved[scrut.name := o.moved[FirstOf(taken, bound, o.moved)]] else o.moved;
    Out((m - names) + (map n | n in moved && n in names :: moved[n]), o.sites, o.errors)
  }

  function FirstOf(taken: seq<string>, bound: seq<string>, moved: Moves): (n: string)
    requires taken != [] && taken == Among(bound, moved)
    ensures n in moved
  {
    AmongIn(bound, moved);
    taken[0]
  }

  lemma {:induction false} AmongIn(names: seq<string>, moved: Moves)
    ensures forall n :: n in Among(names, moved) ==> n in moved
  {
    if names != [] { AmongIn(names[1..], moved); }
  }

  function WalkArms(fx: Facts, parent: Expr, scrut: Expr, arms: seq<Arm>, at: Pos, k: nat, mode: Mode,
                    owned: seq<string>, moved: Moves, shared: set<string>): (outs: seq<Out>)
    requires forall i :: 0 <= i < |arms| ==> arms[i] < parent
    ensures |outs| == |arms|
    ensures forall i :: 0 <= i < |arms| ==>
              outs[i] == WalkArm(fx, scrut, arms[i], at + [k + i], mode, owned, moved, shared)
    decreases parent, |arms|
  {
    seq(|arms|, i requires 0 <= i < |arms| =>
      WalkArm(fx, scrut, arms[i], at + [k + i], mode, owned, moved, shared))
  }

  /** The union of the arms' moves, where an earlier arm's position wins. */
  function Joined(acc: Moves, outs: seq<Out>): Moves
    decreases |outs|
  {
    if outs == [] then acc else Joined(outs[0].moved + acc, outs[1..])
  }

  function AllSites(outs: seq<Out>): seq<Site> {
    if outs == [] then [] else outs[0].sites + AllSites(outs[1..])
  }

  function AllErrors(outs: seq<Out>): seq<Err> {
    if outs == [] then [] else outs[0].errors + AllErrors(outs[1..])
  }

  /** Per arm, a scope-end site for each name it kept and `after` has moved. */
  function KeptSites(fx: Facts, arms: seq<Arm>, outs: seq<Out>, at: Pos, k: nat, owned: seq<string>, after: Moves,
                     shared: set<string>): seq<Site>
    requires |outs| == |arms|
  {
    if arms == [] then []
    else
      var kept := KeptNames(fx, arms[0], outs[0], at + [k], owned, after, shared);
      SitesFor(kept, at + [k], ScopeEnd) + KeptSites(fx, arms[1..], outs[1..], at, k + 1, owned, after, shared)
  }

  function KeptNames(fx: Facts, arm: Arm, o: Out, at: Pos, owned: seq<string>, after: Moves,
                     shared: set<string>): seq<string> {
    Among(Unclaimed(fx, Scoped(fx, owned, Names(arm.pat), at), o.moved, shared), after)
  }

  // ---------------------------------------------------------- whole functions

  /** The variables that can stand for all or part of what `e` evaluates to. */
  function Leaves(e: Expr): set<string>
    decreases e
  {
    match e
    case Var(n) => {n}
    case Borrow(x) => Leaves(x)
    case Proj(x, _) => Leaves(x)
    case Arena(_, x) => Leaves(x)
    case Let(_, _, b) => Leaves(b)
    case Bind(_, _, b) => Leaves(b)
    case Match(_, arms) => LeavesOf(e, seq(|arms|, k requires 0 <= k < |arms| => arms[k].body))
    case Tuple(xs) => LeavesOf(e, xs)
    case List(xs) => LeavesOf(e, xs)
    case Record(base, fs) =>
      (if base.Some? then Leaves(base.value) else {})
      + LeavesOf(e, seq(|fs|, k requires 0 <= k < |fs| => fs[k].value))
    case Lambda(_, b) => Mentioned(b)
    case _ => {}
  }

  function LeavesOf(parent: Expr, es: seq<Expr>): set<string>
    requires forall i :: 0 <= i < |es| ==> es[i] < parent
    decreases parent, |es|
  {
    if es == [] then {} else Leaves(es[0]) + LeavesOf(parent, es[1..])
  }

  /** Every variable in `e`, at any depth. */
  function Mentioned(e: Expr): set<string>
    decreases e
  {
    (if e.Var? then {e.name} else {}) + MentionedOf(e, Children(e))
  }

  function MentionedOf(parent: Expr, es: seq<Expr>): set<string>
    requires forall i :: 0 <= i < |es| ==> es[i] < parent
    decreases parent, |es|
  {
    if es == [] then {} else Mentioned(es[0]) + MentionedOf(parent, es[1..])
  }

  /** The analysis of a body whose owned parameters are `owned` and whose
      borrowed ones are `lent`. */
  function Analyse(fx: Facts, body: Expr, owned: seq<string>, lent: set<string>): Out {
    var o := Walk(fx, body, [], Own, owned, map[], lent);
    Out(o.moved, o.sites + SitesFor(Unclaimed(fx, owned, o.moved, lent), [], ScopeEnd), o.errors)
  }

  // ----------------------------------------------------------- the walk itself

  class State {
    const fx: Facts
    var moved: Moves
    var shared: set<string>
    var drops: seq<Site>
    var errors: seq<Err>
    /** How many drops the shared set suppressed. */
    var suppressed: nat

    constructor (fx: Facts, lent: set<string>)
      ensures this.fx == fx && moved == map[] && shared == lent && drops == [] && errors == [] && suppressed == 0
    {
      this.fx, moved, shared, drops, errors, suppressed := fx, map[], lent, [], [], 0;
    }

    method UseName(n: string, at: Pos, mode: Mode, owned: seq<string>)
      modifies this`moved, this`errors
      ensures var o := UseVar(n, at, mode, owned, old(moved)); moved == o.moved && errors == old(errors) + o.errors
    {
      if n !in owned { return; }
      if mode == Lend {
        if n in moved { errors := errors + [LendAfterMove(n, at, moved[n])]; }
        return;
      }
      if n in moved {
        errors := errors + [UseAfterMove(n, at, moved[n])];
      } else {
        moved := moved[n := at];
      }
    }

    /** Appends one site, or counts it as suppressed where `n` is shared. */
    method DropSite(n: string, at: Pos, when: When)
      modifies this`drops, this`suppressed
      ensures drops == old(drops) + if n in shared then [] else [Site(n, at, when)]
      ensures suppressed == old(suppressed) + if n in shared then 1 else 0
    {
      if n in shared { suppressed := suppressed + 1; return; }
      drops := drops + [Site(n, at, when)];
    }

    /** Records a drop of every name that is still here and does not leave. */
    method DropRest(names: seq<string>, at: Pos, when: When)
      modifies this`drops, this`suppressed
      ensures drops == old(drops) + SitesFor(Unclaimed(fx, names, moved, shared), at, when)
    {
      var i := 0;
      while i < |names|
        invariant 0 <= i <= |names|
        invariant drops + SitesFor(Unclaimed(fx, names[i..], moved, shared), at, when)
               == old(drops) + SitesFor(Unclaimed(fx, names, moved, shared), at, when)
      {
        assert names[i..][1..] == names[i + 1..];
        ghost var rest := Unclaimed(fx, names[i + 1..], moved, shared);
        assert ([names[i]] + rest)[1..] == rest;
        if names[i] !in moved && names[i] !in fx.leaves { DropSite(names[i], at, when); }
        i := i + 1;
      }
    }

    /** Walks `e`, in the state its surroundings left. */
    method Visit(e: Expr, at: Pos, mode: Mode, owned: seq<string>)
      modifies this
      ensures Did(old(moved), old(drops), old(errors), Walk(fx, e, at, mode, owned, old(moved), old(shared)),
                  moved, drops, errors) && shared == old(shared)
      decreases e, 2, 0
    {
      hide Did, WalkAll, WalkArm, WalkArms, Joined, AllSites, KeptSites, Scoped, WalkBinder, BackSites, AllIn;
      ghost var m, ds, es := moved, drops, errors;
      match e
      case Var(n) =>
        UseName(n, at, mode, owned);
        DidIs(m, ds, es, UseVar(n, at, mode, owned, m), moved, drops, errors);
      case Borrow(x) => Visit(x, at + [0], Lend, owned);
      case Neg(x) => Visit(x, at + [0], mode, owned);
      case Arena(_, x) => Visit(x, at + [0], mode, owned);
      case Not(x) => Visit(x, at + [0], mode, owned);
      case Binop(_, _, _) => VisitTwo(e, at, mode, owned);
      case Tuple(xs) => VisitAll(e, xs, AllIn(mode, |xs|), at, 0, owned);
      case List(xs) => VisitAll(e, xs, AllIn(mode, |xs|), at, 0, owned);
      case App(_, _) => VisitApp(e, at, mode, owned);
      case Let(_, _, _) => VisitBinder(e, at, mode, owned);
      case Bind(_, _, _) => VisitBinder(e, at, mode, owned);
      case Match(_, _) => VisitMatch(e, at, mode, owned);
      case _ => DidIs(m, ds, es, Out(m, [], []), moved, drops, errors);
    }

    method VisitTwo(e: Expr, at: Pos, mode: Mode, owned: seq<string>)
      requires e.Binop?
      modifies this
      ensures Did(old(moved), old(drops), old(errors), Walk(fx, e, at, mode, owned, old(moved), old(shared)),
                  moved, drops, errors) && shared == old(shared)
      decreases e, 1, 0
    {
      hide Did, Unclaimed;
      ghost var m, ds, es, o := moved, drops, errors, Walk(fx, e.left, at + [0], mode, owned, moved, shared);
      Visit(e.left, at + [0], mode, owned);
      ghost var m', ds', es' := moved, drops, errors;
      DidMoved(m, ds, es, o, m', ds', es');
      ghost var r := Walk(fx, e.right, at + [1], mode, owned, m', shared);
      Visit(e.right, at + [1], mode, owned);
      DidChain(m, ds, es, o, m', ds', es', r, moved, drops, errors);
    }

    method VisitApp(e: Expr, at: Pos, mode: Mode, owned: seq<string>)
      requires e.App?
      modifies this
      ensures Did(old(moved), old(drops), old(errors), Walk(fx, e, at, mode, owned, old(moved), old(shared)),
                  moved, drops, errors) && shared == old(shared)
      decreases e, 1, 0
    {
      hide Did, Unclaimed, WalkAll, SelfCall, SitesFor;
      ghost var m, ds, es, o := moved, drops, errors, Walk(fx, e.head, at + [0], Lend, owned, moved, shared);
      Visit(e.head, at + [0], Lend, owned);
      ghost var m', ds', es' := moved, drops, errors;
      DidMoved(m, ds, es, o, m', ds', es');
      ghost var r := WalkAll(fx, e, e.args, ArgModes(fx, e.head, |e.args|), at, 1, owned, m', shared);
      VisitAll(e, e.args, ArgModes(fx, e.head, |e.args|), at, 1, owned);
      ghost var both := Out(r.moved, o.sites + r.sites, o.errors + r.errors);
      DidChain(m, ds, es, o, m', ds', es', r, moved, drops, errors);
      ghost var ds'' := drops;
      if SelfCall(fx, e, owned) { DropRest(owned, at, BackEdge); }
      DidMoved(m, ds, es, both, moved, ds'', errors);
      DidMore(m, ds, es, both, moved, ds'', errors, BackSites(fx, e, at, owned, moved, shared), drops);
    }

    method VisitAll(parent: Expr, es: seq<Expr>, modes: seq<Mode>, at: Pos, k: nat, owned: seq<string>)
      requires |modes| == |es| && forall i :: 0 <= i < |es| ==> es[i] < parent
      modifies this
      ensures Did(old(moved), old(drops), old(errors),
                  WalkAll(fx, parent, es, modes, at, k, owned, old(moved), old(shared)),
                  moved, drops, errors) && shared == old(shared)
      decreases parent, 0, |es|
    {
      hide Walk, Did, WalkAll;
      ghost var m, ds, er := moved, drops, errors;
      ghost var all := WalkAll(fx, parent, es, modes, at, k, owned, moved, shared);
      var i := 0;
      assert es[0..] == es && modes[0..] == modes;
      assert ToDo(m, ds, er, all, moved, drops, errors, all);
      while i < |es|
        invariant 0 <= i <= |es| && shared == old(shared)
        invariant ToDo(m, ds, er, all, moved, drops, errors,
                       WalkAll(fx, parent, es[i..], modes[i..], at, k + i, owned, moved, shared))
      {
        assert es[i..][1..] == es[i + 1..] && modes[i..][1..] == modes[i + 1..];
        ghost var m', ds', er' := moved, drops, errors;
        ghost var o := Walk(fx, es[i], at + [k + i], modes[i], owned, m', shared);
        WalkAllStep(fx, parent, es[i..], modes[i..], at, k + i, owned, m', shared);
        ghost var r := WalkAll(fx, parent, es[i + 1..], modes[i + 1..], at, k + i + 1, owned, o.moved, shared);
        Visit(es[i], at + [k + i], modes[i], owned);
        DidMoved(m', ds', er', o, moved, drops, errors);
        ToDoLess(m, ds, er, all, m', ds', er', o, r, moved, drops, errors);
        i := i + 1;
      }
      assert es[i..] == [];
      WalkAllNone(fx, parent, es[i..], modes[i..], at, k + i, owned, moved, shared);
      assert Did(m, ds, er, all, moved, drops, errors) by { DidIs(m, ds, er, all, moved, drops, errors); }
    }

    method VisitBinder(e: Expr, at: Pos, mode: Mode, owned: seq<string>)
      requires Binder(e)
      modifies this
      ensures Did(old(moved), old(drops), old(errors), WalkBinder(fx, e, at, mode, owned, old(moved), old(shared)),
                  moved, drops, errors) && shared == old(shared)
      decreases e, 1, 0
    {
      hide Walk, Scoped, MaybeShared, Did, LetSites;
      LetSitesAre(fx, e.name, at + [1]);
      ghost var m, ds, es, o := moved, drops, errors, Walk(fx, e.value, at + [0], mode, owned, moved, shared);
      Visit(e.value, at + [0], mode, owned);
      ghost var m', ds', es' := moved, drops, errors;
      DidMoved(m, ds, es, o, m', ds', es');
      var was := e.name in shared;
      if MaybeShared(fx, e.value, shared) { shared := shared + {e.name}; }
      var inner := Scoped(fx, owned, [e.name], at + [1]);
      ghost var b := Walk(fx, e.body, at + [1], mode, inner, m', shared);
      Visit(e.body, at + [1], mode, inner);
      ghost var both := Out(b.moved, o.sites + b.sites, o.errors + b.errors);
      DidChain(m, ds, es, o, m', ds', es', b, moved, drops, errors);
      DidMoved(m, ds, es, both, moved, drops, errors);
      ghost var ds'' := drops;
      if e.name in inner && e.name !in moved && e.name !in fx.leaves { DropSite(e.name, at + [1], ScopeEnd); }
      DidMore(m, ds, es, both, moved, ds'', errors, LetSites(fx, e.name, at + [1], inner, moved, shared), drops);
      ghost var full := Out(b.moved, both.sites + LetSites(fx, e.name, at + [1], inner, moved, shared), both.errors);
      DidForget(m, ds, es, full, moved, drops, errors, moved - {e.name});
      moved := moved - {e.name};
      if !was { shared := shared - {e.name}; }
    }

    method VisitMatch(e: Expr, at: Pos, mode: Mode, owned: seq<string>)
      requires e.Match?
      modifies this
      ensures Did(old(moved), old(drops), old(errors), Walk(fx, e, at, mode, owned, old(moved), old(shared)),
                  moved, drops, errors) && shared == old(shared)
      decreases e, 1, 0
    {
      hide Walk, WalkArm, WalkArms, KeptSites, Scoped, Did, AllSites, AllErrors, Joined, Claimed, Candidates;
      ghost var m, ds, es := moved, drops, errors;
      MatchIs(fx, e, at, mode, owned, moved, shared);
      ghost var o := Walk(fx, e.scrut, at + [0], Lend, owned, moved, shared);
      Visit(e.scrut, at + [0], Lend, owned);
      ghost var m', ds', es' := moved, drops, errors;
      DidMoved(m, ds, es, o, m', ds', es');
      ghost var outs := WalkArms(fx, e, e.scrut, e.arms, at, 1, mode, owned, m', shared);
      var after, kept := VisitArms(e, at, mode, owned);
      ghost var arms := Out(after, AllSites(outs), AllErrors(outs));
      DidIs(m', ds', es', arms, after, drops, errors);
      DidChain(m, ds, es, o, m', ds', es', arms, after, drops, errors);
      KeptIs(fx, e.arms, outs, at, 1, owned, after, shared);
      moved := after;
      ghost var ds'' := drops;
      DropKept(kept, after);
      DidMore(m, ds, es, Out(after, o.sites + AllSites(outs), o.errors + AllErrors(outs)), after, ds'', errors,
              KeptSites(fx, e.arms, outs, at, 1, owned, after, shared), drops);
    }

    /** Frees what an arm kept and another consumed. */
    method DropKept(kept: seq<Site>, after: Moves)
      requires forall s :: s in kept ==> s.when == ScopeEnd
      modifies this`drops, this`suppressed
      ensures drops == old(drops) + Claimed(kept, after, shared)
    {
      var i := 0;
      while i < |kept|
        invariant 0 <= i <= |kept|
        invariant drops + Claimed(kept[i..], after, shared) == old(drops) + Claimed(kept, after, shared)
      {
        assert kept[i..][1..] == kept[i + 1..];
        if kept[i].name in after { DropSite(kept[i].name, kept[i].at, ScopeEnd); }
        i := i + 1;
      }
    }

    /** Walks every arm from the same saved `moved` and `shared`, and merges the moves. */
    method VisitArms(e: Expr, at: Pos, mode: Mode, owned: seq<string>) returns (after: Moves, kept: seq<Site>)
      requires e.Match?
      modifies this
      ensures shared == old(shared)
      ensures var outs := WalkArms(fx, e, e.scrut, e.arms, at, 1, mode, owned, old(moved), old(shared));
              && after == Joined(old(moved), outs)
              && kept == Candidates(fx, e.arms, outs, at, 1, owned)
              && drops == old(drops) + AllSites(outs) && errors == old(errors) + AllErrors(outs)
      ensures forall s :: s in kept ==> s.when == ScopeEnd
      decreases e, 0, 0
    {
      hide Walk, WalkArm, WalkArms, Scoped, Unclaimed, SitesFor, Did, Joined, Candidates, AllSites, AllErrors;
      var before := moved;
      ghost var ds, es := drops, errors;
      ghost var outs := WalkArms(fx, e, e.scrut, e.arms, at, 1, mode, owned, before, shared);
      after, kept := moved, [];
      var i := 0;
      assert outs[0..] == outs && e.arms[0..] == e.arms;
      while i < |e.arms|
        invariant 0 <= i <= |e.arms| == |outs| && shared == old(shared)
        invariant Joined(after, outs[i..]) == Joined(before, outs)
        invariant drops + AllSites(outs[i..]) == ds + AllSites(outs)
        invariant errors + AllErrors(outs[i..]) == es + AllErrors(outs)
        invariant kept + Candidates(fx, e.arms[i..], outs[i..], at, i + 1, owned)
          == Candidates(fx, e.arms, outs, at, 1, owned)
        invariant forall s :: s in kept ==> s.when == ScopeEnd
      {
        assert outs[i..][1..] == outs[i + 1..] && e.arms[i..][1..] == e.arms[i + 1..];
        ghost var o := WalkArm(fx, e.scrut, e.arms[i], at + [1 + i], mode, owned, before, shared);
        ghost var ds', es' := drops, errors;
        ArmsStep(fx, e.arms[i..], outs[i..], after, at, i + 1, owned);
        moved := before;
        VisitArm(e.scrut, e.arms[i], at + [1 + i], mode, owned);
        DidAll(before, ds', es', o, moved, drops, errors);
        var left := SitesFor(Unclaimed(fx, Scoped(fx, owned, Names(e.arms[i].pat), at + [1 + i]), moved, {}),
                             at + [1 + i], ScopeEnd);
        SitesForWhen(Unclaimed(fx, Scoped(fx, owned, Names(e.arms[i].pat), at + [1 + i]), moved, {}), at + [1 + i],
                     ScopeEnd);
        assert drops + AllSites(outs[i + 1..]) == ds' + (o.sites + AllSites(outs[i + 1..]));
        assert errors + AllErrors(outs[i + 1..]) == es' + (o.errors + AllErrors(outs[i + 1..]));
        assert (kept + left) + Candidates(fx, e.arms[i + 1..], outs[i + 1..], at, i + 2, owned)
            == kept + (left + Candidates(fx, e.arms[i + 1..], outs[i + 1..], at, i + 2, owned));
        kept := kept + left;
        after := moved + after;
        i := i + 1;
      }
      ArmsNone(fx, e.arms[i..], outs[i..], after, at, i + 1, owned);
    }

    method VisitArm(scrut: Expr, arm: Arm, at: Pos, mode: Mode, owned: seq<string>)
      modifies this
      ensures Did(old(moved), old(drops), old(errors),
                  WalkArm(fx, scrut, arm, at, mode, owned, old(moved), old(shared)),
                  moved, drops, errors) && shared == old(shared)
      decreases arm
    {
      hide Walk, Scoped, Among;
      var bound := Names(arm.pat);
      var names := set n | n in bound;
      var outer, shadowed := shared, map n | n in moved && n in names :: moved[n];
      shared, moved := shared + names, moved - names;
      Visit(arm.body, at, mode, Scoped(fx, owned, bound, at));
      var taken := Among(bound, moved);
      if scrut.Var? && scrut.name in owned && scrut.name !in moved && taken != [] {
        moved := moved[scrut.name := moved[FirstOf(taken, bound, moved)]];
      }
      shared := outer;
      moved := (moved - names) + shadowed;
    }
  }

  method AnalyseBody(fx: Facts, body: Expr, owned: seq<string>, lent: set<string>) returns (o: Out)
    ensures o == Analyse(fx, body, owned, lent)
  {
    hide Walk, Unclaimed, SitesFor;
    var st := new State(fx, lent);
    st.Visit(body, [], Own, owned);
    st.DropRest(owned, [], ScopeEnd);
    o := Out(st.moved, st.drops, st.errors);
  }

  /** The state after a walk: what was moved, and what was added. */
  ghost predicate Did(moved: Moves, drops: seq<Site>, errors: seq<Err>, o: Out, moved': Moves, drops': seq<Site>,
                      errors': seq<Err>) {
    moved' == o.moved && drops' == drops + o.sites && errors' == errors + o.errors
  }

  lemma DidAll(m: Moves, ds: seq<Site>, es: seq<Err>, o: Out, m': Moves, ds': seq<Site>, es': seq<Err>)
    requires Did(m, ds, es, o, m', ds', es')
    ensures m' == o.moved && ds' == ds + o.sites && es' == es + o.errors
  {}

  lemma {:induction false} SitesForWhen(names: seq<string>, at: Pos, when: When)
    ensures forall s :: s in SitesFor(names, at, when) ==> s.when == when
  {
    if names != [] { SitesForWhen(names[1..], at, when); }
  }

  lemma ArmsStep(fx: Facts, arms: seq<Arm>, outs: seq<Out>, after: Moves, at: Pos, k: nat, owned: seq<string>)
    requires |outs| == |arms| && arms != []
    ensures Joined(after, outs) == Joined(outs[0].moved + after, outs[1..])
    ensures AllSites(outs) == outs[0].sites + AllSites(outs[1..])
    ensures AllErrors(outs) == outs[0].errors + AllErrors(outs[1..])
    ensures Candidates(fx, arms, outs, at, k, owned)
         == SitesFor(Unclaimed(fx, Scoped(fx, owned, Names(arms[0].pat), at + [k]), outs[0].moved, {}), at + [k],
                     ScopeEnd)
          + Candidates(fx, arms[1..], outs[1..], at, k + 1, owned)
  {}

  lemma ArmsNone(fx: Facts, arms: seq<Arm>, outs: seq<Out>, after: Moves, at: Pos, k: nat, owned: seq<string>)
    requires |outs| == |arms| && arms == []
    ensures Joined(after, outs) == after && AllSites(outs) == [] && AllErrors(outs) == []
    ensures Candidates(fx, arms, outs, at, k, owned) == []
  {}

  lemma DidIs(m: Moves, ds: seq<Site>, es: seq<Err>, o: Out, m': Moves, ds': seq<Site>, es': seq<Err>)
    requires m' == o.moved && ds' == ds + o.sites && es' == es + o.errors
    ensures Did(m, ds, es, o, m', ds', es')
  {}

  lemma DidMoved(m: Moves, ds: seq<Site>, es: seq<Err>, o: Out, m': Moves, ds': seq<Site>, es': seq<Err>)
    requires Did(m, ds, es, o, m', ds', es')
    ensures m' == o.moved
  {}

  lemma DidChain(m: Moves, ds: seq<Site>, es: seq<Err>, o: Out, m': Moves, ds': seq<Site>, es': seq<Err>, r: Out,
                 m'': Moves, ds'': seq<Site>, es'': seq<Err>)
    requires Did(m, ds, es, o, m', ds', es') && Did(m', ds', es', r, m'', ds'', es'')
    ensures Did(m, ds, es, Out(r.moved, o.sites + r.sites, o.errors + r.errors), m'', ds'', es'')
  {}

  lemma DidMore(m: Moves, ds: seq<Site>, es: seq<Err>, o: Out, m': Moves, ds': seq<Site>, es': seq<Err>,
                more: seq<Site>, ds'': seq<Site>)
    requires Did(m, ds, es, o, m', ds', es') && ds'' == ds' + more
    ensures Did(m, ds, es, Out(o.moved, o.sites + more, o.errors), m', ds'', es')
  {}

  lemma DidForget(m: Moves, ds: seq<Site>, es: seq<Err>, o: Out, m': Moves, ds': seq<Site>, es': seq<Err>, m'': Moves)
    requires Did(m, ds, es, o, m', ds', es')
    ensures Did(m, ds, es, Out(m'', o.sites, o.errors), m'', ds', es')
  {}

  /** Of the whole `all` begun in the first state, `rest` is left in the second. */
  ghost predicate ToDo(m: Moves, ds: seq<Site>, es: seq<Err>, all: Out, m': Moves, ds': seq<Site>, es': seq<Err>,
                       rest: Out) {
    rest.moved == all.moved && ds' + rest.sites == ds + all.sites && es' + rest.errors == es + all.errors
  }

  lemma ToDoLess(m: Moves, ds: seq<Site>, es: seq<Err>, all: Out, m': Moves, ds': seq<Site>, es': seq<Err>, o: Out,
                 r: Out, m'': Moves, ds'': seq<Site>, es'': seq<Err>)
    requires ToDo(m, ds, es, all, m', ds', es', Out(r.moved, o.sites + r.sites, o.errors + r.errors))
    requires Did(m', ds', es', o, m'', ds'', es'')
    ensures ToDo(m, ds, es, all, m'', ds'', es'', r)
  {
    assert ds'' + r.sites == ds' + (o.sites + r.sites);
    assert es'' + r.errors == es' + (o.errors + r.errors);
  }

  lemma LetSitesAre(fx: Facts, n: string, at: Pos)
    ensures forall inner, moved, shared :: LetSites(fx, n, at, inner, moved, shared)
              == if n in inner && n !in moved && n !in fx.leaves && n !in shared then [Site(n, at, ScopeEnd)] else []
  {}

  lemma WalkAllStep(fx: Facts, parent: Expr, es: seq<Expr>, modes: seq<Mode>, at: Pos, k: nat, owned: seq<string>,
                    moved: Moves, shared: set<string>)
    requires |modes| == |es| && (forall i :: 0 <= i < |es| ==> es[i] < parent) && es != []
    ensures var o := Walk(fx, es[0], at + [k], modes[0], owned, moved, shared);
            var r := WalkAll(fx, parent, es[1..], modes[1..], at, k + 1, owned, o.moved, shared);
            WalkAll(fx, parent, es, modes, at, k, owned, moved, shared)
              == Out(r.moved, o.sites + r.sites, o.errors + r.errors)
  {}

  lemma WalkAllNone(fx: Facts, parent: Expr, es: seq<Expr>, modes: seq<Mode>, at: Pos, k: nat, owned: seq<string>,
                    moved: Moves, shared: set<string>)
    requires |modes| == |es| && es == []
    ensures WalkAll(fx, parent, es, modes, at, k, owned, moved, shared) == Out(moved, [], [])
  {}

  /** What each arm still owns where it ends. */
  function Candidates(fx: Facts, arms: seq<Arm>, outs: seq<Out>, at: Pos, k: nat, owned: seq<string>): seq<Site>
    requires |outs| == |arms|
  {
    if arms == [] then []
    else
      var here := at + [k];
      SitesFor(Unclaimed(fx, Scoped(fx, owned, Names(arms[0].pat), here), outs[0].moved, {}), here, ScopeEnd)
        + Candidates(fx, arms[1..], outs[1..], at, k + 1, owned)
  }

  /** Those of `kept` that another arm consumed and this frame may free. */
  function Claimed(kept: seq<Site>, after: Moves, shared: set<string>): seq<Site> {
    if kept == [] then []
    else if kept[0].name in after && kept[0].name !in shared then [kept[0]] + Claimed(kept[1..], after, shared)
    else Claimed(kept[1..], after, shared)
  }

  lemma {:induction false} ClaimedConcat(a: seq<Site>, b: seq<Site>, after: Moves, shared: set<string>)
    ensures Claimed(a + b, after, shared) == Claimed(a, after, shared) + Claimed(b, after, shared)
  {
    if a == [] {
      assert a + b == b;
    } else {
      ClaimedConcat(a[1..], b, after, shared);
      assert (a + b)[1..] == a[1..] + b;
    }
  }

  lemma {:induction false} ClaimedNames(fx: Facts, names: seq<string>, moved: Moves, at: Pos, after: Moves,
                                        shared: set<string>)
    ensures Claimed(SitesFor(Unclaimed(fx, names, moved, {}), at, ScopeEnd), after, shared)
         == SitesFor(Among(Unclaimed(fx, names, moved, shared), after), at, ScopeEnd)
  {
    if names != [] {
      ClaimedNames(fx, names[1..], moved, at, after, shared);
      var n, rest, rest' := names[0], Unclaimed(fx, names[1..], moved, {}), Unclaimed(fx, names[1..], moved, shared);
      if n !in moved && n !in fx.leaves {
        assert ([n] + rest)[1..] == rest;
        var s := Site(n, at, ScopeEnd);
        assert ([s] + SitesFor(rest, at, ScopeEnd))[1..] == SitesFor(rest, at, ScopeEnd);
        assert ([n] + rest')[1..] == rest';
        assert ([n] + Among(rest', after))[1..] == Among(rest', after);
      }
    }
  }

  lemma {:induction false} KeptIs(fx: Facts, arms: seq<Arm>, outs: seq<Out>, at: Pos, k: nat, owned: seq<string>,
                                  after: Moves, shared: set<string>)
    requires |outs| == |arms|
    ensures Claimed(Candidates(fx, arms, outs, at, k, owned), after, shared)
         == KeptSites(fx, arms, outs, at, k, owned, after, shared)
    decreases |arms|
  {
    hide Scoped, Unclaimed, SitesFor, Among, Claimed;
    if arms != [] {
      var here := at + [k];
      var names := Scoped(fx, owned, Names(arms[0].pat), here);
      KeptIs(fx, arms[1..], outs[1..], at, k + 1, owned, after, shared);
      ClaimedNames(fx, names, outs[0].moved, here, after, shared);
      ClaimedConcat(SitesFor(Unclaimed(fx, names, outs[0].moved, {}), here, ScopeEnd),
                    Candidates(fx, arms[1..], outs[1..], at, k + 1, owned), after, shared);
    } else {
      ClaimedNothing(after, shared);
    }
  }

  lemma ClaimedNothing(after: Moves, shared: set<string>)
    ensures Claimed([], after, shared) == []
  {}

  lemma MatchIs(fx: Facts, e: Expr, at: Pos, mode: Mode, owned: seq<string>, moved: Moves, shared: set<string>)
    requires e.Match?
    ensures var o := Walk(fx, e.scrut, at + [0], Lend, owned, moved, shared);
            var outs := WalkArms(fx, e, e.scrut, e.arms, at, 1, mode, owned, o.moved, shared);
            var after := Joined(o.moved, outs);
            Walk(fx, e, at, mode, owned, moved, shared)
              == Out(after, o.sites + AllSites(outs) + KeptSites(fx, e.arms, outs, at, 1, owned, after, shared),
                     o.errors + AllErrors(outs))
  {}
}
