/** What leaves through the result, and what belongs to someone else, is never
    freed by this frame (src/own.rs, src/codegen.rs). */
module Leaving {
  import opened Ast
  import opened Ownership
  import opened Drops
  import opened Disposal

  /** Whether a binder or a pattern in `e` reuses the name. */
  predicate Rebinds(e: Expr, x: string)
    decreases e
  {
    || (Binder(e) && e.name == x)
    || (e.Match? && exists k :: 0 <= k < |e.arms| && x in Names(e.arms[k].pat))
    || exists i :: 0 <= i < |Children(e)| && Rebinds(Children(e)[i], x)
  }

  /** The frame may not free `x`, one of `names`: it leaves, or it may be part of
      another value. */
  predicate Withheld(fx: Facts, names: seq<string>, shared: set<string>, x: string) {
    x in fx.leaves || x in shared || x !in names
  }

  /** Nothing in `e` may free `x`: it is withheld, and no binder makes it another. */
  predicate Spared(fx: Facts, e: Expr, owned: seq<string>, shared: set<string>, x: string) {
    x in fx.leaves || x in shared || (x !in owned && !Rebinds(e, x))
  }

  lemma SparedIn(fx: Facts, e: Expr, i: nat, owned: seq<string>, shared: set<string>, x: string)
    requires Spared(fx, e, owned, shared, x) && i < |Children(e)|
    ensures Spared(fx, Children(e)[i], owned, shared, x)
  {}

  lemma SparedBody(fx: Facts, e: Expr, owned: seq<string>, shared: set<string>, at: Pos, x: string)
    requires Binder(e) && Spared(fx, e, owned, shared, x)
    ensures var inner, within := Scoped(fx, owned, [e.name], at), LetShared(fx, e, shared);
            Spared(fx, e.body, inner, within, x) && Withheld(fx, inner, within, x)
  {
    hide MaybeShared;
    assert Children(e)[1] == e.body;
    if x !in owned && !Rebinds(e, x) { ScopedLacks(fx, owned, [e.name], at, x); }
  }

  lemma SparedArm(fx: Facts, e: Expr, k: nat, owned: seq<string>, shared: set<string>, at: Pos, x: string)
    requires e.Match? && k < |e.arms| && Spared(fx, e, owned, shared, x)
    ensures var inner, names := Scoped(fx, owned, Names(e.arms[k].pat), at), set n | n in Names(e.arms[k].pat);
            Spared(fx, e.arms[k].body, inner, shared + names, x) && Withheld(fx, inner, shared, x)
  {
    assert Children(e)[k + 1] == e.arms[k].body;
    if x !in owned && !Rebinds(e, x) { ScopedLacks(fx, owned, Names(e.arms[k].pat), at, x); }
  }

  lemma ScopedLacks(fx: Facts, owned: seq<string>, bound: seq<string>, at: Pos, x: string)
    requires x !in owned && x !in bound
    ensures x !in Scoped(fx, owned, bound, at)
  {
    WithoutLacks(owned, bound, x);
    AffineLacks(fx, bound, at, x);
  }

  lemma {:induction false} WithoutLacks(names: seq<string>, gone: seq<string>, x: string)
    requires x !in names
    ensures x !in Without(names, gone)
  {
    if names != [] { WithoutLacks(names[1..], gone, x); }
  }

  lemma {:induction false} AffineLacks(fx: Facts, names: seq<string>, at: Pos, x: string)
    requires x !in names
    ensures x !in Affine(fx, names, at)
  {
    if names != [] { AffineLacks(fx, names[1..], at, x); }
  }

  ghost predicate NoneFor(sites: seq<Site>, x: string) { forall s :: s in sites ==> s.name != x }

  lemma NoneConcat(a: seq<Site>, b: seq<Site>, x: string)
    requires NoneFor(a, x) && NoneFor(b, x)
    ensures NoneFor(a + b, x)
  {}

  lemma NoneAtAll(x: string)
    ensures NoneFor([], x)
  {}

  lemma {:induction false} SitesForSpare(names: seq<string>, at: Pos, when: When, x: string)
    requires x !in names
    ensures NoneFor(SitesFor(names, at, when), x)
  {
    if names != [] { SitesForSpare(names[1..], at, when, x); }
  }

  lemma UnclaimedSpares(fx: Facts, names: seq<string>, moved: Moves, shared: set<string>, x: string)
    requires Withheld(fx, names, shared, x)
    ensures x !in Unclaimed(fx, names, moved, shared)
  {
    UnclaimedCount(fx, names, moved, shared, x);
    assert x !in multiset(Unclaimed(fx, names, moved, shared));
  }

  /** The walk records no drop of a spared name. */
  lemma {:induction false} WalkSpares(fx: Facts, e: Expr, at: Pos, mode: Mode, owned: seq<string>, moved: Moves,
                                      shared: set<string>, x: string)
    requires Spared(fx, e, owned, shared, x)
    ensures NoneFor(Walk(fx, e, at, mode, owned, moved, shared).sites, x)
    decreases e, 2, 0
  {
    hide NoneFor, WalkAll, WalkBinder, WalkArms, Joined, AllSites, KeptSites, BackSites, AllIn, Spared;
    forall i | 0 <= i < |Children(e)| ensures Spared(fx, Children(e)[i], owned, shared, x) {
      SparedIn(fx, e, i, owned, shared, x);
    }
    match e
    case Borrow(y) =>
      assert Children(e)[0] == y;
      WalkSpares(fx, y, at + [0], Lend, owned, moved, shared, x);
    case Neg(y) =>
      assert Children(e)[0] == y;
      WalkSpares(fx, y, at + [0], mode, owned, moved, shared, x);
    case Arena(_, y) =>
      assert Children(e)[0] == y;
      WalkSpares(fx, y, at + [0], mode, owned, moved, shared, x);
    case Not(y) =>
      assert Children(e)[0] == y;
      WalkSpares(fx, y, at + [0], mode, owned, moved, shared, x);
    case Binop(_, a, b) =>
      assert Children(e)[0] == a && Children(e)[1] == b;
      var o := Walk(fx, a, at + [0], mode, owned, moved, shared);
      WalkSpares(fx, a, at + [0], mode, owned, moved, shared, x);
      WalkSpares(fx, b, at + [1], mode, owned, o.moved, shared, x);
      NoneConcat(o.sites, Walk(fx, b, at + [1], mode, owned, o.moved, shared).sites, x);
    case Tuple(xs) =>
      assert Children(e) == xs;
      WalkAllSpares(fx, e, xs, AllIn(mode, |xs|), at, 0, owned, moved, shared, x);
    case List(xs) =>
      assert Children(e) == xs;
      WalkAllSpares(fx, e, xs, AllIn(mode, |xs|), at, 0, owned, moved, shared, x);
    case App(_, _) => AppSpares(fx, e, at, mode, owned, moved, shared, x);
    case Let(_, _, _) => BinderSpares(fx, e, at, mode, owned, moved, shared, x);
    case Bind(_, _, _) => BinderSpares(fx, e, at, mode, owned, moved, shared, x);
    case Match(_, _) => MatchSpares(fx, e, at, mode, owned, moved, shared, x);
    case _ => NoneAtAll(x);
  }

  lemma {:induction false} WalkAllSpares(fx: Facts, parent: Expr, es: seq<Expr>, modes: seq<Mode>, at: Pos, k: nat,
                                         owned: seq<string>, moved: Moves, shared: set<string>, x: string)
    requires |modes| == |es| && forall i :: 0 <= i < |es| ==> es[i] < parent && Spared(fx, es[i], owned, shared, x)
    ensures NoneFor(WalkAll(fx, parent, es, modes, at, k, owned, moved, shared).sites, x)
    decreases parent, 0, |es|
  {
    hide NoneFor, Walk, Spared;
    if es == [] {
      NoneAtAll(x);
    } else {
      var o := Walk(fx, es[0], at + [k], modes[0], owned, moved, shared);
      WalkSpares(fx, es[0], at + [k], modes[0], owned, moved, shared, x);
      WalkAllSpares(fx, parent, es[1..], modes[1..], at, k + 1, owned, o.moved, shared, x);
      NoneConcat(o.sites, WalkAll(fx, parent, es[1..], modes[1..], at, k + 1, owned, o.moved, shared).sites, x);
    }
  }

  lemma {:induction false} AppSpares(fx: Facts, e: Expr, at: Pos, mode: Mode, owned: seq<string>, moved: Moves,
                                     shared: set<string>, x: string)
    requires e.App? && Spared(fx, e, owned, shared, x)
    ensures NoneFor(Walk(fx, e, at, mode, owned, moved, shared).sites, x)
    decreases e, 1, 0
  {
    hide NoneFor, Unclaimed, SelfCall, WalkAll, SitesFor, ArgModes, Rebinds;
    var o := Walk(fx, e.head, at + [0], Lend, owned, moved, shared);
    var r := WalkAll(fx, e, e.args, ArgModes(fx, e.head, |e.args|), at, 1, owned, o.moved, shared);
    SparedIn(fx, e, 0, owned, shared, x);
    forall i | 0 <= i < |e.args| ensures Spared(fx, e.args[i], owned, shared, x) {
      SparedIn(fx, e, i + 1, owned, shared, x);
    }
    WalkSpares(fx, e.head, at + [0], Lend, owned, moved, shared, x);
    WalkAllSpares(fx, e, e.args, ArgModes(fx, e.head, |e.args|), at, 1, owned, o.moved, shared, x);
    UnclaimedSpares(fx, owned, r.moved, shared, x);
    SitesForSpare(Unclaimed(fx, owned, r.moved, shared), at, BackEdge, x);
    NoneAtAll(x);
    NoneConcat(o.sites, r.sites, x);
    NoneConcat(o.sites + r.sites, BackSites(fx, e, at, owned, r.moved, shared), x);
  }

  lemma {:induction false} BinderSpares(fx: Facts, e: Expr, at: Pos, mode: Mode, owned: seq<string>, moved: Moves,
                                        shared: set<string>, x: string)
    requires Binder(e) && Spared(fx, e, owned, shared, x)
    ensures NoneFor(Walk(fx, e, at, mode, owned, moved, shared).sites, x)
    decreases e, 1, 0
  {
    hide NoneFor, Scoped, MaybeShared, Spared, LetSites, Withheld;
    var o := Walk(fx, e.value, at + [0], mode, owned, moved, shared);
    var inner, within := Scoped(fx, owned, [e.name], at + [1]), LetShared(fx, e, shared);
    var b := Walk(fx, e.body, at + [1], mode, inner, o.moved, within);
    SparedIn(fx, e, 0, owned, shared, x);
    SparedBody(fx, e, owned, shared, at + [1], x);
    WalkSpares(fx, e.value, at + [0], mode, owned, moved, shared, x);
    WalkSpares(fx, e.body, at + [1], mode, inner, o.moved, within, x);
    var own := LetSites(fx, e.name, at + [1], inner, b.moved, within);
    LetSpares(fx, e.name, at + [1], inner, b.moved, within, x);
    NoneConcat(o.sites, b.sites, x);
    NoneConcat(o.sites + b.sites, own, x);
  }

  lemma LetSpares(fx: Facts, n: string, at: Pos, inner: seq<string>, moved: Moves, shared: set<string>, x: string)
    requires Withheld(fx, inner, shared, x)
    ensures NoneFor(LetSites(fx, n, at, inner, moved, shared), x)
  {}

  lemma {:induction false} MatchSpares(fx: Facts, e: Expr, at: Pos, mode: Mode, owned: seq<string>, moved: Moves,
                                       shared: set<string>, x: string)
    requires e.Match? && Spared(fx, e, owned, shared, x)
    ensures NoneFor(Walk(fx, e, at, mode, owned, moved, shared).sites, x)
    decreases e, 1, 0
  {
    hide NoneFor, WalkArms, Joined, AllSites, KeptSites, Spared, Withheld, Scoped;
    var o := Walk(fx, e.scrut, at + [0], Lend, owned, moved, shared);
    var outs := WalkArms(fx, e, e.scrut, e.arms, at, 1, mode, owned, o.moved, shared);
    var after := Joined(o.moved, outs);
    SparedIn(fx, e, 0, owned, shared, x);
    WalkSpares(fx, e.scrut, at + [0], Lend, owned, moved, shared, x);
    forall i | 0 <= i < |outs| ensures NoneFor(outs[i].sites, x) {
      SparedArm(fx, e, i, owned, shared, at + [1 + i], x);
      ArmSpares(fx, e.scrut, e.arms[i], at + [1 + i], mode, owned, o.moved, shared, x);
    }
    forall i | 0 <= i < |e.arms|
      ensures Withheld(fx, Scoped(fx, owned, Names(e.arms[i].pat), at + [1 + i]), shared, x)
    {
      SparedArm(fx, e, i, owned, shared, at + [1 + i], x);
    }
    AllSitesSpare(outs, x);
    KeptSpares(fx, e.arms, outs, at, 1, owned, after, shared, x);
    NoneConcat(o.sites, AllSites(outs), x);
    NoneConcat(o.sites + AllSites(outs), KeptSites(fx, e.arms, outs, at, 1, owned, after, shared), x);
  }

  lemma {:induction false} ArmSpares(fx: Facts, scrut: Expr, arm: Arm, at: Pos, mode: Mode, owned: seq<string>,
                                     moved: Moves, shared: set<string>, x: string)
    requires Spared(fx, arm.body, Scoped(fx, owned, Names(arm.pat), at), shared + (set n | n in Names(arm.pat)), x)
    ensures NoneFor(WalkArm(fx, scrut, arm, at, mode, owned, moved, shared).sites, x)
    decreases arm
  {
    hide NoneFor, Walk, Spared;
    var names := set n | n in Names(arm.pat);
    WalkSpares(fx, arm.body, at, mode, Scoped(fx, owned, Names(arm.pat), at), moved - names, shared + names, x);
  }

  lemma {:induction false} AllSitesSpare(outs: seq<Out>, x: string)
    requires forall i :: 0 <= i < |outs| ==> NoneFor(outs[i].sites, x)
    ensures NoneFor(AllSites(outs), x)
    decreases |outs|
  {
    hide NoneFor;
    if outs == [] {
      NoneAtAll(x);
    } else {
      assert forall i :: 0 <= i < |outs[1..]| ==> outs[1..][i] == outs[i + 1];
      AllSitesSpare(outs[1..], x);
      NoneConcat(outs[0].sites, AllSites(outs[1..]), x);
    }
  }

  lemma {:induction false} KeptSpares(fx: Facts, arms: seq<Arm>, outs: seq<Out>, at: Pos, k: nat, owned: seq<string>,
                                      after: Moves, shared: set<string>, x: string)
    requires |outs| == |arms|
    requires forall i :: 0 <= i < |arms| ==>
               Withheld(fx, Scoped(fx, owned, Names(arms[i].pat), at + [k + i]), shared, x)
    ensures NoneFor(KeptSites(fx, arms, outs, at, k, owned, after, shared), x)
    decreases |arms|
  {
    hide NoneFor, Unclaimed, Among, Withheld, Scoped;
    if arms == [] {
      NoneAtAll(x);
    } else {
      assert Withheld(fx, Scoped(fx, owned, Names(arms[0].pat), at + [k + 0]), shared, x);
      forall i | 0 <= i < |arms| - 1
        ensures Withheld(fx, Scoped(fx, owned, Names(arms[1..][i].pat), at + [k + 1 + i]), shared, x)
      {
        assert Withheld(fx, Scoped(fx, owned, Names(arms[i + 1].pat), at + [k + (i + 1)]), shared, x);
      }
      var mine := Unclaimed(fx, Scoped(fx, owned, Names(arms[0].pat), at + [k]), outs[0].moved, shared);
      var kept := KeptNames(fx, arms[0], outs[0], at + [k], owned, after, shared);
      UnclaimedSpares(fx, Scoped(fx, owned, Names(arms[0].pat), at + [k]), outs[0].moved, shared, x);
      AmongCount(mine, after, x);
      assert x !in multiset(kept);
      SitesForSpare(kept, at + [k], ScopeEnd, x);
      KeptSpares(fx, arms[1..], outs[1..], at, k + 1, owned, after, shared, x);
      NoneConcat(SitesFor(kept, at + [k], ScopeEnd),
                 KeptSites(fx, arms[1..], outs[1..], at, k + 1, owned, after, shared), x);
    }
  }

  // ------------------------------------------------------------- in the emitted code

  /** No drop of `x` stands at or below the position. */
  ghost predicate NoneUnder(drops: seq<Site>, at: Pos, x: string) {
    forall s :: s in drops && at <= s.at ==> s.name != x
  }

  lemma NoneUnderChild(drops: seq<Site>, at: Pos, k: nat, x: string)
    requires NoneUnder(drops, at, x)
    ensures NoneUnder(drops, at + [k], x)
  {
    forall s | s in drops && at + [k] <= s.at ensures s.name != x { assert at <= at + [k] <= s.at; }
  }

  lemma NamesAtSpare(drops: seq<Site>, at: Pos, when: When, scope: set<string>, x: string)
    requires NoneUnder(drops, at, x)
    ensures multiset(NamesAt(drops, at, when, scope))[x] == 0
  {
    NamesAtCount(drops, at, when, scope, x);
    assert Site(x, at, when) !in drops;
  }

  ghost function Frees(log: Log, x: string): nat { multiset(log.events)[Freed(x)] }

  /** Code emitted for drops of other names frees `x` on no path. */
  lemma {:induction false} EmitSpares(fx: Facts, drops: seq<Site>, e: Expr, at: Pos, pending: seq<string>,
                                      scope: set<string>, owned: seq<string>, picks: Picks, x: string)
    requires NoneUnder(drops, at, x) && multiset(pending)[x] == 0
    ensures Frees(Trace(fx, Emit(fx, drops, e, at, pending, scope), owned, picks), x) == 0
    decreases e
  {
    hide NoneUnder, NamesAt, Emit, Trace, Scoped, Frees, EmitArms;
    if Binder(e) {
      var within := scope + {e.name};
      var due := NamesAt(drops, at + [1], ScopeEnd, within * {e.name});
      NoneUnderChild(drops, at, 1, x);
      NamesAtSpare(drops, at + [1], ScopeEnd, within * {e.name}, x);
      assert multiset(pending + due)[x] == 0;
      var body := Emit(fx, drops, e.body, at + [1], pending + due, within);
      var inner := Scoped(fx, owned, [e.name], at + [1]);
      EmitSpares(fx, drops, e.body, at + [1], pending + due, within, inner, picks, x);
      LetTrace(fx, drops, e, at, pending, scope);
      IntroSpares(fx, e.name, at + [1], body, owned, picks, x);
      EvalSpares(fx, e.value, at + [0], Own, Then(Intro(e.name, at + [1]), body), owned, picks, x);
    } else if e.Match? {
      SwitchTrace(fx, drops, e, at, owned, pending, scope, picks);
      var k := picks(at);
      if k < |e.arms| {
        var within := scope + PatNames(e.arms[k].pat);
        var due := NamesAt(drops, at + [k + 1], ScopeEnd, within);
        NoneUnderChild(drops, at, k + 1, x);
        NamesAtSpare(drops, at + [k + 1], ScopeEnd, within, x);
        assert multiset(pending + due)[x] == 0;
        EmitSpares(fx, drops, e.arms[k].body, at + [k + 1], pending + due, within, owned, picks, x);
      } else {
        NoFrees(x);
      }
      EvalSpares(fx, e.scrut, at + [0], Lend, Switch(at, EmitArms(fx, drops, e, e.arms, at, 1, pending, scope)),
                 owned, picks, x);
    } else {
      EndSpares(fx, drops, e, at, pending, scope, owned, picks, x);
    }
  }

  lemma NoFrees(x: string)
    ensures Frees(Log([], Failed), x) == 0
  {}

  lemma EndSpares(fx: Facts, drops: seq<Site>, e: Expr, at: Pos, pending: seq<string>, scope: set<string>,
                  owned: seq<string>, picks: Picks, x: string)
    requires NoneUnder(drops, at, x) && multiset(pending)[x] == 0 && !Binder(e) && !e.Match?
    ensures Frees(Trace(fx, Emit(fx, drops, e, at, pending, scope), owned, picks), x) == 0
  {
    hide NoneUnder, NamesAt, FreeAll, Reverse, Without, TailCall, Touched, Seen, Trace;
    if TailCall(fx, e, scope) {
      var back := NamesAt(drops, at, BackEdge, scope);
      var rest := Without(Reverse(pending), back);
      NamesAtSpare(drops, at, BackEdge, scope, x);
      WithoutCount(Reverse(pending), back, x);
      FreeAllTrace(fx, back, FreeAll(rest, Again), owned, picks, Freed(x));
      FreeAllTrace(fx, rest, Again, owned, picks, Freed(x));
      EndTrace(fx, owned, picks);
      EvalSpares(fx, e, at, Own, FreeAll(back, FreeAll(rest, Again)), owned, picks, x);
    } else {
      FreeAllTrace(fx, Reverse(pending), Return, owned, picks, Freed(x));
      EndTrace(fx, owned, picks);
      EvalSpares(fx, e, at, Own, FreeAll(Reverse(pending), Return), owned, picks, x);
    }
  }

  lemma EndTrace(fx: Facts, owned: seq<string>, picks: Picks)
    ensures Trace(fx, Return, owned, picks).events == [] && Trace(fx, Again, owned, picks).events == []
  {}

  lemma EvalSpares(fx: Facts, e: Expr, at: Pos, mode: Mode, next: Code, owned: seq<string>, picks: Picks, x: string)
    requires Frees(Trace(fx, next, owned, picks), x) == 0
    ensures Frees(Trace(fx, Then(Eval(e, at, mode), next), owned, picks), x) == 0
  {
    hide Touched, Seen;
    TouchedMoves(fx, e, at, mode, picks, Freed(x));
    SeenCount(Touched(fx, e, at, mode, picks), owned, Freed(x));
  }

  lemma IntroSpares(fx: Facts, n: string, at: Pos, next: Code, owned: seq<string>, picks: Picks, x: string)
    requires Frees(Trace(fx, next, Scoped(fx, owned, [n], at), picks), x) == 0
    ensures Frees(Trace(fx, Then(Intro(n, at), next), owned, picks), x) == 0
  {}

  /** A value that leaves through the result, or that a parameter only lends, is
      not freed by any run of the function, whatever binds, matches and calls its
      body is made of. */
  lemma {:induction false} LeavingNeverFreed(fx: Facts, drops: seq<Site>, body: Expr, owned: seq<string>,
                                             lent: set<string>, params: set<string>, passes: seq<Picks>, x: string)
    requires fx.leaves == Leaves(body) && multiset(drops) == multiset(Analyse(fx, body, owned, lent).sites)
    requires x in Leaves(body) || x in lent
    ensures Frees(Run(fx, drops, body, owned, params, passes), x) == 0
  {
    hide Walk, Emit, Trace, NoneFor, NamesAt, Unclaimed, SitesFor, Leaves;
    if passes != [] {
      var o := Walk(fx, body, [], Own, owned, map[], lent);
      var rest := Unclaimed(fx, owned, o.moved, lent);
      assert Spared(fx, body, owned, lent, x) && Withheld(fx, owned, lent, x);
      WalkSpares(fx, body, [], Own, owned, map[], lent, x);
      UnclaimedSpares(fx, owned, o.moved, lent, x);
      SitesForSpare(rest, [], ScopeEnd, x);
      NoneConcat(o.sites, SitesFor(rest, [], ScopeEnd), x);
      SameSites(drops, Analyse(fx, body, owned, lent).sites, x);
      PassSpares(fx, drops, body, owned, params, passes[0], x);
      LeavingNeverFreed(fx, drops, body, owned, lent, params, passes[1..], x);
    }
  }

  lemma SameSites(drops: seq<Site>, sites: seq<Site>, x: string)
    requires multiset(drops) == multiset(sites) && NoneFor(sites, x)
    ensures NoneFor(drops, x)
  {
    forall s | s in drops ensures s.name != x {
      assert s in multiset(drops);
      assert s in sites;
    }
  }

  lemma PassSpares(fx: Facts, drops: seq<Site>, body: Expr, owned: seq<string>, params: set<string>, picks: Picks,
                   x: string)
    requires NoneFor(drops, x)
    ensures Frees(Pass(fx, drops, body, owned, params, picks), x) == 0
  {
    hide Emit, Trace, NamesAt;
    var end := NamesAt(drops, [], ScopeEnd, params);
    assert NoneUnder(drops, [], x);
    EmitSpares(fx, drops, body, [], [], params, owned, picks, x);
    NamesAtSpare(drops, [], ScopeEnd, params, x);
    BirthsCount(owned, Freed(x));
    FreesCount(end, Freed(x));
  }
}
