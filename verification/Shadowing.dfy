/** What becomes of an owned parameter when a `let` reuses its name
    (src/own.rs, src/codegen.rs). */
module Shadowing {
  import opened Ast
  import opened Ownership
  import opened Drops
  import opened Disposal
  import opened Leaving

  /** Nothing comes to be under the name, and nothing under it is disposed of. */
  predicate Quiet(log: Log, x: string) { Births(log.events, x) == 0 && Disposed(log.events, x) == 0 }

  lemma EvalQuiet(fx: Facts, e: Expr, at: Pos, mode: Mode, next: Code, owned: seq<string>, picks: Picks, x: string)
    requires x !in owned && Quiet(Trace(fx, next, owned, picks), x)
    ensures Quiet(Trace(fx, Then(Eval(e, at, mode), next), owned, picks), x)
  {
    hide Trace;
    EvalTrace(fx, e, at, mode, next, owned, picks, Born(x));
    EvalTrace(fx, e, at, mode, next, owned, picks, Event.Moved(x));
    EvalTrace(fx, e, at, mode, next, owned, picks, Freed(x));
  }

  lemma FreesQuiet(fx: Facts, names: seq<string>, next: Code, owned: seq<string>, picks: Picks, x: string)
    requires multiset(names)[x] == 0 && Quiet(Trace(fx, next, owned, picks), x)
    ensures Quiet(Trace(fx, FreeAll(names, next), owned, picks), x)
  {
    hide Trace, FreeAll;
    FreeAllTrace(fx, names, next, owned, picks, Born(x));
    FreeAllTrace(fx, names, next, owned, picks, Event.Moved(x));
    FreeAllTrace(fx, names, next, owned, picks, Freed(x));
  }

  /** The code of an expression that neither owns nor rebinds `x` is silent about
      it, on every path. */
  lemma {:induction false} EmitQuiet(fx: Facts, drops: seq<Site>, e: Expr, at: Pos, pending: seq<string>,
                                     scope: set<string>, owned: seq<string>, picks: Picks, x: string)
    requires x !in owned && !Rebinds(e, x) && NoneUnder(drops, at, x) && multiset(pending)[x] == 0
    ensures Quiet(Trace(fx, Emit(fx, drops, e, at, pending, scope), owned, picks), x)
    decreases e
  {
    hide NoneUnder, NamesAt, Emit, Trace, Scoped, EmitArms, Quiet, Rebinds;
    if Binder(e) {
      var within := scope + {e.name};
      var due := NamesAt(drops, at + [1], ScopeEnd, within * {e.name});
      var body := Emit(fx, drops, e.body, at + [1], pending + due, within);
      NoneUnderChild(drops, at, 1, x);
      NamesAtSpare(drops, at + [1], ScopeEnd, within * {e.name}, x);
      assert multiset(pending + due)[x] == 0;
      RebindsBody(e, x);
      ScopedLacks(fx, owned, [e.name], at + [1], x);
      EmitQuiet(fx, drops, e.body, at + [1], pending + due, within, Scoped(fx, owned, [e.name], at + [1]), picks, x);
      LetTrace(fx, drops, e, at, pending, scope);
      IntroQuiet(fx, e.name, at + [1], body, owned, picks, x);
      EvalQuiet(fx, e.value, at + [0], Own, Then(Intro(e.name, at + [1]), body), owned, picks, x);
    } else if e.Match? {
      var k := picks(at);
      SwitchTrace(fx, drops, e, at, owned, pending, scope, picks);
      if k < |e.arms| {
        var within := scope + PatNames(e.arms[k].pat);
        var due := NamesAt(drops, at + [k + 1], ScopeEnd, within);
        NoneUnderChild(drops, at, k + 1, x);
        NamesAtSpare(drops, at + [k + 1], ScopeEnd, within, x);
        assert multiset(pending + due)[x] == 0;
        RebindsArm(e, k, x);
        EmitQuiet(fx, drops, e.arms[k].body, at + [k + 1], pending + due, within, owned, picks, x);
      } else {
        FailsQuiet(x);
      }
      EvalQuiet(fx, e.scrut, at + [0], Lend, Switch(at, EmitArms(fx, drops, e, e.arms, at, 1, pending, scope)),
                owned, picks, x);
    } else {
      EndQuiet(fx, drops, e, at, pending, scope, owned, picks, x);
    }
  }

  lemma RebindsBody(e: Expr, x: string)
    requires Binder(e) && !Rebinds(e, x)
    ensures e.name != x && !Rebinds(e.body, x)
  {
    assert Children(e)[1] == e.body;
  }

  lemma RebindsArm(e: Expr, k: nat, x: string)
    requires e.Match? && k < |e.arms| && !Rebinds(e, x)
    ensures !Rebinds(e.arms[k].body, x)
  {
    assert Children(e)[k + 1] == e.arms[k].body;
  }

  lemma FailsQuiet(x: string)
    ensures Quiet(Log([], Failed), x)
  {}

  lemma IntroQuiet(fx: Facts, n: string, at: Pos, next: Code, owned: seq<string>, picks: Picks, x: string)
    requires n != x && Quiet(Trace(fx, next, Scoped(fx, owned, [n], at), picks), x)
    ensures Quiet(Trace(fx, Then(Intro(n, at), next), owned, picks), x)
  {
    hide Scoped, Trace;
    IntroTrace(fx, n, at, next, owned, picks, x);
  }

  lemma EndQuiet(fx: Facts, drops: seq<Site>, e: Expr, at: Pos, pending: seq<string>, scope: set<string>,
                 owned: seq<string>, picks: Picks, x: string)
    requires x !in owned && NoneUnder(drops, at, x) && multiset(pending)[x] == 0 && !Binder(e) && !e.Match?
    ensures Quiet(Trace(fx, Emit(fx, drops, e, at, pending, scope), owned, picks), x)
  {
    hide NoneUnder, NamesAt, FreeAll, Reverse, Without, TailCall, Trace, Quiet;
    EndsQuiet(fx, owned, picks, x);
    if TailCall(fx, e, scope) {
      var back := NamesAt(drops, at, BackEdge, scope);
      var rest := Without(Reverse(pending), back);
      NamesAtSpare(drops, at, BackEdge, scope, x);
      WithoutCount(Reverse(pending), back, x);
      FreesQuiet(fx, rest, Again, owned, picks, x);
      FreesQuiet(fx, back, FreeAll(rest, Again), owned, picks, x);
      EvalQuiet(fx, e, at, Own, FreeAll(back, FreeAll(rest, Again)), owned, picks, x);
    } else {
      FreesQuiet(fx, Reverse(pending), Return, owned, picks, x);
      EvalQuiet(fx, e, at, Own, FreeAll(Reverse(pending), Return), owned, picks, x);
    }
  }

  lemma EndsQuiet(fx: Facts, owned: seq<string>, picks: Picks, x: string)
    ensures Quiet(Trace(fx, Return, owned, picks), x) && Quiet(Trace(fx, Again, owned, picks), x)
  {}

  // ------------------------------------------------------------- a `let` that shadows

  /** A function body that binds a scalar under the name of one of its owned
      parameters, and that the analysis accepts. */
  ghost predicate Shadowed(fx: Facts, drops: seq<Site>, x: string, v: Expr, b: Expr, owned: seq<string>,
                           lent: set<string>, params: set<string>) {
    && x in owned && Single(owned) && (forall n :: n in owned ==> n in params)
    && ([1], x) !in fx.affine && x !in fx.leaves && x !in lent
    && Plain(v) && TailForm(b) && !Rebinds(b, x)
    && Analyse(fx, Let(x, v, b), owned, lent).errors == []
    && multiset(drops) == multiset(Analyse(fx, Let(x, v, b), owned, lent).sites)
  }

  /** The walk of the body: no drop of `x` below the `let`, none for the new `x`,
      and a move of the old one forgotten. */
  lemma ShadowWalk(fx: Facts, x: string, v: Expr, b: Expr, owned: seq<string>, lent: set<string>)
    requires x in owned && ([1], x) !in fx.affine && !Rebinds(b, x)
    ensures var o := Walk(fx, v, [0], Own, owned, map[], lent);
            var all := Walk(fx, Let(x, v, b), [], Own, owned, map[], lent);
            && x !in Scoped(fx, owned, [x], [1]) && x !in all.moved
            && (all.errors == [] ==> o.errors == [])
            && (forall s :: s in all.sites && s.name == x ==> s in o.sites)
  {
    hide MaybeShared, Scoped, Rebinds, Spared, Unclaimed;
    var e := Let(x, v, b);
    assert [] + [0] == [0] && [] + [1] == [1];
    var o := Walk(fx, v, [0], Own, owned, map[], lent);
    var inner, within := Scoped(fx, owned, [x], [1]), LetShared(fx, e, lent);
    GoneFrom(fx, owned, x);
    assert Spared(fx, b, inner, within, x) by { SparedFresh(fx, b, inner, within, x); }
    WalkSpares(fx, b, [1], Own, inner, o.moved, within, x);
    WalkLet(fx, e, owned, lent);
  }

  lemma WalkLet(fx: Facts, e: Expr, owned: seq<string>, lent: set<string>)
    requires Binder(e)
    ensures Walk(fx, e, [], Own, owned, map[], lent) == WalkBinder(fx, e, [], Own, owned, map[], lent)
  {}

  lemma SparedFresh(fx: Facts, e: Expr, names: seq<string>, shared: set<string>, x: string)
    requires x !in names && !Rebinds(e, x)
    ensures Spared(fx, e, names, shared, x)
  {}

  lemma GoneFrom(fx: Facts, owned: seq<string>, x: string)
    requires ([1], x) !in fx.affine
    ensures x !in Scoped(fx, owned, [x], [1])
  {
    WithoutCount(owned, [x], x);
    assert x !in multiset(Without(owned, [x]));
    assert [x][1..] == [] && Affine(fx, [x], [1]) == [];
  }

  /** So the body's end frees the parameter once, and nothing below the `let` does. */
  lemma ShadowDrops(fx: Facts, drops: seq<Site>, x: string, v: Expr, b: Expr, owned: seq<string>, lent: set<string>,
                    params: set<string>)
    requires Shadowed(fx, drops, x, v, b, owned, lent, params)
    ensures NoneUnder(drops, [1], x) && multiset(NamesAt(drops, [], ScopeEnd, params))[x] == 1
  {
    hide Walk, Plain, TailForm, Rebinds, Unclaimed, AllInside, NamesAt;
    var e := Let(x, v, b);
    var o, all := Walk(fx, v, [0], Own, owned, map[], lent), Walk(fx, e, [], Own, owned, map[], lent);
    var rest := Unclaimed(fx, owned, all.moved, lent);
    var end := SitesFor(rest, [], ScopeEnd);
    ShadowWalk(fx, x, v, b, owned, lent);
    SitesInside(fx, v, [0], Own, owned, map[], lent);
    SitesInside(fx, e, [], Own, owned, map[], lent);
    UnclaimedCount(fx, owned, all.moved, lent, x);
    SitesForCount(rest, [], ScopeEnd, Site(x, [], ScopeEnd));
    NotAtRoot([], all.sites, Site(x, [], ScopeEnd));
    NamesAtCount(drops, [], ScopeEnd, params, x);
    forall s | s in drops && [1] <= s.at ensures s.name != x {
      assert s in multiset(all.sites + end);
      SitesForCount(rest, [], ScopeEnd, s);
      NotBelow(o.sites, s);
    }
  }

  lemma NotBelow(sites: seq<Site>, s: Site)
    requires AllInside([0], sites) && [1] <= s.at
    ensures s !in sites
  {
    assert !Inside([0], s) by { assert s.at[0] == [1][0]; }
  }

  /** A pass hands the parameter on where the value of the `let` does, and frees it
      where it returns. So its accounts balance exactly where it is handed on and
      the pass goes round again, or is not and the pass returns. */
  lemma ShadowAccounts(fx: Facts, drops: seq<Site>, x: string, v: Expr, b: Expr, owned: seq<string>,
                       lent: set<string>, params: set<string>, picks: Picks)
    requires Shadowed(fx, drops, x, v, b, owned, lent, params) && !Guarded(fx, v, Own, x)
    ensures var log := Pass(fx, drops, Let(x, v, b), owned, params, picks);
            var handed, ended := x in Uses(fx, v, Own), log.exit == Returned;
            log.exit == Failed ||
              (&& Births(log.events, x) == 1
               && Disposed(log.events, x) == (if handed then 1 else 0) + (if ended then 1 else 0)
               && (Disposed(log.events, x) == Births(log.events, x) <==> handed != ended))
  {
    hide Walk, Guarded, Plain, TailForm, Rebinds, Trace, Emit, NamesAt, Pass, Uses, Scoped;
    var body := Let(x, v, b);
    var scope := params + {x};
    assert [] + [0] == [0] && [] + [1] == [1];
    ShadowWalk(fx, x, v, b, owned, lent);
    ShadowDrops(fx, drops, x, v, b, owned, lent, params);
    var due := NamesAt(drops, [1], ScopeEnd, scope * {x});
    NamesAtSpare(drops, [1], ScopeEnd, scope * {x}, x);
    assert [] + due == due;
    var code := Emit(fx, drops, b, [1], due, scope);
    EmitQuiet(fx, drops, b, [1], due, scope, Scoped(fx, owned, [x], [1]), picks, x);
    LetTrace(fx, drops, body, [], [], params);
    IntroTrace(fx, x, [1], code, owned, picks, x);
    EvalAdds(fx, v, [0], Own, Then(Intro(x, [1]), code), owned, map[], lent, picks, x);
    PlainUses(fx, v, [0], Own, owned, map[], lent, x);
    PassAccounts(fx, drops, body, owned, params, picks, x);
    assert x in Uses(fx, v, Own) <==> multiset(Uses(fx, v, Own))[x] > 0;
  }
}
