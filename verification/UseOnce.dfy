/** Nothing is lent, handed on or freed after it was handed on or freed
    (src/own.rs, src/codegen.rs). */
module UseOnce {
  import opened Wrappers
  import opened Ast
  import opened Ownership
  import opened Drops
  import opened Disposal
  import opened Leaving

  /** What becomes of `x` along the events, when it starts out gone or here: gone or
      here, and nothing once it is touched while it is gone. */
  function Fate(gone: bool, evs: seq<Event>, x: string): Option<bool>
    decreases |evs|
  {
    if evs == [] then Some(gone)
    else if evs[0].name != x then Fate(gone, evs[1..], x)
    else if evs[0].Born? then Fate(false, evs[1..], x)
    else if gone then None
    else Fate(!evs[0].Lent?, evs[1..], x)
  }

  lemma {:induction false} FateConcat(gone: bool, a: seq<Event>, b: seq<Event>, x: string)
    ensures Fate(gone, a + b, x) == match Fate(gone, a, x) case None => None case Some(g) => Fate(g, b, x)
    decreases |a|
  {
    if a == [] {
      assert a + b == b;
    } else {
      assert (a + b)[1..] == a[1..] + b;
      if a[0].name != x { FateConcat(gone, a[1..], b, x); }
      else if a[0].Born? { FateConcat(false, a[1..], b, x); }
      else if !gone { FateConcat(!a[0].Lent?, a[1..], b, x); }
    }
  }

  lemma {:induction false} FateSeen(gone: bool, evs: seq<Event>, owned: seq<string>, x: string)
    ensures Fate(gone, Seen(evs, owned), x) == if x in owned then Fate(gone, evs, x) else Some(gone)
    decreases |evs|
  {
    if evs != [] {
      FateSeen(gone, evs[1..], owned, x);
      if evs[0].name in owned && evs[0].name == x {
        var rest := Seen(evs[1..], owned);
        assert Seen(evs, owned) == [evs[0]] + rest && ([evs[0]] + rest)[1..] == rest;
        FateSeen(false, evs[1..], owned, x);
        FateSeen(true, evs[1..], owned, x);
      } else if evs[0].name in owned {
        var rest := Seen(evs[1..], owned);
        assert Seen(evs, owned) == [evs[0]] + rest && ([evs[0]] + rest)[1..] == rest;
      }
    }
  }

  // ------------------------------------------------------------- plain expressions

  /** What reading `e` touches when every operand is evaluated. */
  function Reads(fx: Facts, e: Expr, mode: Mode): seq<Event>
    decreases e
  {
    match e
    case Var(n) => [if mode == Own then Event.Moved(n) else Event.Lent(n)]
    case Borrow(y) => Reads(fx, y, Lend)
    case Neg(y) => Reads(fx, y, mode)
    case Arena(_, y) => Reads(fx, y, mode)
    case Not(y) => Reads(fx, y, mode)
    case Binop(_, a, b) => Reads(fx, a, mode) + Reads(fx, b, mode)
    case Tuple(xs) => ReadsAll(fx, e, xs, AllIn(mode, |xs|))
    case List(xs) => ReadsAll(fx, e, xs, AllIn(mode, |xs|))
    case App(h, args) => Reads(fx, h, Lend) + ReadsAll(fx, e, args, ArgModes(fx, h, |args|))
    case _ => []
  }

  function ReadsAll(fx: Facts, parent: Expr, es: seq<Expr>, modes: seq<Mode>): seq<Event>
    requires |modes| == |es| && forall i :: 0 <= i < |es| ==> es[i] < parent
    decreases parent, |es|
  {
    if es == [] then [] else Reads(fx, es[0], modes[0]) + ReadsAll(fx, parent, es[1..], modes[1..])
  }

  ghost predicate Spotless(errors: seq<Err>, x: string) { forall err :: err in errors ==> err.name != x }

  ghost predicate Named(errors: seq<Err>, x: string, first: Pos) {
    exists err :: err in errors && err.name == x && err.first == first
  }

  ghost predicate Mentioned(evs: seq<Event>, x: string) { exists ev :: ev in evs && ev.name == x }

  /** The walk tells of `x` what the events do: an error naming it exactly where the
      events touch it while it is gone, and otherwise whether it is gone. Touched
      when it was gone from the start, the error gives that first move. */
  ghost predicate Tells(x: string, moved: Moves, evs: seq<Event>, o: Out) {
    && (Spotless(o.errors, x) <==> Fate(x in moved, evs, x).Some?)
    && (Spotless(o.errors, x) ==> Fate(x in moved, evs, x) == Some(x in o.moved))
    && (x in moved ==> x in o.moved && o.moved[x] == moved[x])
    && (x in moved && Mentioned(evs, x) ==> Named(o.errors, x, moved[x]))
  }

  lemma TellsChain(x: string, moved: Moves, a: seq<Event>, o: Out, b: seq<Event>, r: Out, sites: seq<Site>)
    requires Tells(x, moved, a, o) && Tells(x, o.moved, b, r)
    ensures Tells(x, moved, a + b, Out(r.moved, sites, o.errors + r.errors))
  {
    FateConcat(x in moved, a, b, x);
    var errors := o.errors + r.errors;
    assert Spotless(errors, x) <==> Spotless(o.errors, x) && Spotless(r.errors, x) by {
      assert forall err :: err in errors <==> err in o.errors || err in r.errors;
    }
    if x in moved && Mentioned(a + b, x) {
      var ev :| ev in a + b && ev.name == x;
      if ev in a { assert Mentioned(a, x); } else { assert Mentioned(b, x); }
      assert forall err :: err in o.errors || err in r.errors ==> err in errors;
    }
  }

  lemma TellsNothing(x: string, moved: Moves)
    ensures Tells(x, moved, [], Out(moved, [], []))
  {}

  lemma TellsVar(n: string, at: Pos, mode: Mode, owned: seq<string>, moved: Moves, x: string)
    requires x in owned
    ensures Tells(x, moved, [if mode == Own then Event.Moved(n) else Event.Lent(n)], UseVar(n, at, mode, owned, moved))
  {
    var ev, o := if mode == Own then Event.Moved(n) else Event.Lent(n), UseVar(n, at, mode, owned, moved);
    assert [ev][1..] == [];
    if n == x && n in moved {
      assert o.errors[0] in o.errors;
      assert ev in [ev];
    }
  }

  /** The walk of a plain expression tells of each owned name what reading every
      operand of it does. */
  lemma {:induction false} PlainTells(fx: Facts, e: Expr, at: Pos, mode: Mode, owned: seq<string>, moved: Moves,
                                      shared: set<string>, x: string)
    requires Plain(e) && x in owned
    ensures Tells(x, moved, Reads(fx, e, mode), Walk(fx, e, at, mode, owned, moved, shared))
    decreases e, 2, 0
  {
    hide Tells, BackSites, WalkAll, ReadsAll, AllIn, ArgModes;
    match e
    case Var(n) => TellsVar(n, at, mode, owned, moved, x);
    case Borrow(y) => PlainTells(fx, y, at + [0], Lend, owned, moved, shared, x);
    case Neg(y) => PlainTells(fx, y, at + [0], mode, owned, moved, shared, x);
    case Arena(_, y) => PlainTells(fx, y, at + [0], mode, owned, moved, shared, x);
    case Not(y) => PlainTells(fx, y, at + [0], mode, owned, moved, shared, x);
    case Binop(_, a, b) =>
      var o := Walk(fx, a, at + [0], mode, owned, moved, shared);
      var r := Walk(fx, b, at + [1], mode, owned, o.moved, shared);
      PlainTells(fx, a, at + [0], mode, owned, moved, shared, x);
      PlainTells(fx, b, at + [1], mode, owned, o.moved, shared, x);
      TellsChain(x, moved, Reads(fx, a, mode), o, Reads(fx, b, mode), r, o.sites + r.sites);
    case Tuple(xs) => PlainTellsAll(fx, e, xs, AllIn(mode, |xs|), at, 0, owned, moved, shared, x);
    case List(xs) => PlainTellsAll(fx, e, xs, AllIn(mode, |xs|), at, 0, owned, moved, shared, x);
    case App(h, args) =>
      var modes := ArgModes(fx, h, |args|);
      var o := Walk(fx, h, at + [0], Lend, owned, moved, shared);
      var r := WalkAll(fx, e, args, modes, at, 1, owned, o.moved, shared);
      PlainTells(fx, h, at + [0], Lend, owned, moved, shared, x);
      PlainTellsAll(fx, e, args, modes, at, 1, owned, o.moved, shared, x);
      TellsChain(x, moved, Reads(fx, h, Lend), o, ReadsAll(fx, e, args, modes), r,
                 o.sites + r.sites + BackSites(fx, e, at, owned, r.moved, shared));
    case _ => TellsNothing(x, moved);
  }

  lemma {:induction false} PlainTellsAll(fx: Facts, parent: Expr, es: seq<Expr>, modes: seq<Mode>, at: Pos, k: nat,
                                         owned: seq<string>, moved: Moves, shared: set<string>, x: string)
    requires |modes| == |es| && x in owned && forall i :: 0 <= i < |es| ==> es[i] < parent && Plain(es[i])
    ensures Tells(x, moved, ReadsAll(fx, parent, es, modes),
                  WalkAll(fx, parent, es, modes, at, k, owned, moved, shared))
    decreases parent, 0, |es|
  {
    hide Tells, Walk, Reads;
    if es == [] {
      TellsNothing(x, moved);
    } else {
      var o := Walk(fx, es[0], at + [k], modes[0], owned, moved, shared);
      var r := WalkAll(fx, parent, es[1..], modes[1..], at, k + 1, owned, o.moved, shared);
      PlainTells(fx, es[0], at + [k], modes[0], owned, moved, shared, x);
      PlainTellsAll(fx, parent, es[1..], modes[1..], at, k + 1, owned, o.moved, shared, x);
      TellsChain(x, moved, Reads(fx, es[0], modes[0]), o, ReadsAll(fx, parent, es[1..], modes[1..]), r,
                 o.sites + r.sites);
    }
  }

  /** Errors name owned names. */
  lemma {:induction false} ErrorsOwned(fx: Facts, e: Expr, at: Pos, mode: Mode, owned: seq<string>, moved: Moves,
                                       shared: set<string>, x: string)
    requires Plain(e) && x !in owned
    ensures Spotless(Walk(fx, e, at, mode, owned, moved, shared).errors, x)
    decreases e, 2, 0
  {
    hide Spotless, BackSites, WalkAll, AllIn, ArgModes;
    CleanNothing(x);
    match e
    case Var(n) => CleanVar(n, at, mode, owned, moved, x);
    case Borrow(y) => ErrorsOwned(fx, y, at + [0], Lend, owned, moved, shared, x);
    case Neg(y) => ErrorsOwned(fx, y, at + [0], mode, owned, moved, shared, x);
    case Arena(_, y) => ErrorsOwned(fx, y, at + [0], mode, owned, moved, shared, x);
    case Not(y) => ErrorsOwned(fx, y, at + [0], mode, owned, moved, shared, x);
    case Binop(_, a, b) =>
      var o := Walk(fx, a, at + [0], mode, owned, moved, shared);
      ErrorsOwned(fx, a, at + [0], mode, owned, moved, shared, x);
      ErrorsOwned(fx, b, at + [1], mode, owned, o.moved, shared, x);
      CleanConcat(o.errors, Walk(fx, b, at + [1], mode, owned, o.moved, shared).errors, x);
    case Tuple(xs) => ErrorsOwnedAll(fx, e, xs, AllIn(mode, |xs|), at, 0, owned, moved, shared, x);
    case List(xs) => ErrorsOwnedAll(fx, e, xs, AllIn(mode, |xs|), at, 0, owned, moved, shared, x);
    case App(h, args) =>
      var modes := ArgModes(fx, h, |args|);
      var o := Walk(fx, h, at + [0], Lend, owned, moved, shared);
      ErrorsOwned(fx, h, at + [0], Lend, owned, moved, shared, x);
      ErrorsOwnedAll(fx, e, args, modes, at, 1, owned, o.moved, shared, x);
      CleanConcat(o.errors, WalkAll(fx, e, args, modes, at, 1, owned, o.moved, shared).errors, x);
    case _ =>
  }

  lemma {:induction false} ErrorsOwnedAll(fx: Facts, parent: Expr, es: seq<Expr>, modes: seq<Mode>, at: Pos, k: nat,
                                          owned: seq<string>, moved: Moves, shared: set<string>, x: string)
    requires |modes| == |es| && x !in owned && forall i :: 0 <= i < |es| ==> es[i] < parent && Plain(es[i])
    ensures Spotless(WalkAll(fx, parent, es, modes, at, k, owned, moved, shared).errors, x)
    decreases parent, 0, |es|
  {
    hide Spotless, Walk;
    CleanNothing(x);
    if es != [] {
      var o := Walk(fx, es[0], at + [k], modes[0], owned, moved, shared);
      ErrorsOwned(fx, es[0], at + [k], modes[0], owned, moved, shared, x);
      ErrorsOwnedAll(fx, parent, es[1..], modes[1..], at, k + 1, owned, o.moved, shared, x);
      CleanConcat(o.errors, WalkAll(fx, parent, es[1..], modes[1..], at, k + 1, owned, o.moved, shared).errors, x);
    }
  }

  lemma CleanNothing(x: string)
    ensures Spotless([], x)
  {}

  lemma CleanVar(n: string, at: Pos, mode: Mode, owned: seq<string>, moved: Moves, x: string)
    requires x !in owned
    ensures Spotless(UseVar(n, at, mode, owned, moved).errors, x)
  {}

  lemma CleanConcat(a: seq<Err>, b: seq<Err>, x: string)
    requires Spotless(a, x) && Spotless(b, x)
    ensures Spotless(a + b, x)
  {}

  /** Reading gives birth to nothing: what was gone stays gone. */
  lemma {:induction false} ReadsKeepGone(evs: seq<Event>, x: string, gone: bool)
    requires (forall ev :: ev in evs ==> !ev.Born?) && Fate(gone, evs, x).Some? && gone
    ensures Fate(gone, evs, x) == Some(true)
    decreases |evs|
  {
    if evs != [] {
      assert evs[0] in evs;
      ReadsKeepGone(evs[1..], x, gone);
    }
  }

  lemma {:induction false} NoBirths(fx: Facts, e: Expr, mode: Mode)
    ensures forall ev :: ev in Reads(fx, e, mode) ==> !ev.Born?
    decreases e, 1
  {
    hide ReadsAll, AllIn, ArgModes;
    match e
    case Borrow(y) => NoBirths(fx, y, Lend);
    case Neg(y) => NoBirths(fx, y, mode);
    case Arena(_, y) => NoBirths(fx, y, mode);
    case Not(y) => NoBirths(fx, y, mode);
    case Binop(_, a, b) => NoBirths(fx, a, mode); NoBirths(fx, b, mode);
    case Tuple(xs) => NoBirthsAll(fx, e, xs, AllIn(mode, |xs|));
    case List(xs) => NoBirthsAll(fx, e, xs, AllIn(mode, |xs|));
    case App(h, args) => NoBirths(fx, h, Lend); NoBirthsAll(fx, e, args, ArgModes(fx, h, |args|));
    case _ =>
  }

  lemma {:induction false} NoBirthsAll(fx: Facts, parent: Expr, es: seq<Expr>, modes: seq<Mode>)
    requires |modes| == |es| && forall i :: 0 <= i < |es| ==> es[i] < parent
    ensures forall ev :: ev in ReadsAll(fx, parent, es, modes) ==> !ev.Born?
    decreases parent, 0, |es|
  {
    hide Reads;
    if es != [] {
      NoBirths(fx, es[0], modes[0]);
      NoBirthsAll(fx, parent, es[1..], modes[1..]);
    }
  }

  /** From a state no worse, fewer events: a fate no worse. */
  ghost predicate Milder(g': bool, less: seq<Event>, g: bool, more: seq<Event>, x: string) {
    Fate(g, more, x).Some? ==>
      Fate(g', less, x).Some? && (Fate(g', less, x).value ==> Fate(g, more, x).value)
  }

  lemma MilderChain(g': bool, a': seq<Event>, b': seq<Event>, g: bool, a: seq<Event>, b: seq<Event>, x: string)
    requires Milder(g', a', g, a, x)
    requires forall h', h :: (h' ==> h) ==> Milder(h', b', h, b, x)
    ensures Milder(g', a' + b', g, a + b, x)
  {
    FateConcat(g', a', b', x);
    FateConcat(g, a, b, x);
    if Fate(g, a + b, x).Some? {
      assert Milder(Fate(g', a', x).value, b', Fate(g, a, x).value, b, x);
    }
  }

  /** On every path an expression touches what reading all of it would, or less. */
  lemma {:induction false} FewerReads(fx: Facts, e: Expr, at: Pos, mode: Mode, picks: Picks, g': bool, g: bool,
                                      x: string)
    requires g' ==> g
    ensures Milder(g', Touched(fx, e, at, mode, picks), g, Reads(fx, e, mode), x)
    decreases e, 2, 0
  {
    hide Milder, ReadsAll, TouchedAll, AllIn, ArgModes;
    match e
    case Var(n) => MilderSame(g', g, Reads(fx, e, mode), x);
    case Borrow(y) => FewerReads(fx, y, at + [0], Lend, picks, g', g, x);
    case Neg(y) => FewerReads(fx, y, at + [0], mode, picks, g', g, x);
    case Arena(_, y) => FewerReads(fx, y, at + [0], mode, picks, g', g, x);
    case Not(y) => FewerReads(fx, y, at + [0], mode, picks, g', g, x);
    case Binop(op, a, b) =>
      var rest := if ShortCircuit(op) && picks(at) == 0 then [] else Touched(fx, b, at + [1], mode, picks);
      FewerReads(fx, a, at + [0], mode, picks, g', g, x);
      forall h', h | h' ==> h ensures Milder(h', rest, h, Reads(fx, b, mode), x) {
        if ShortCircuit(op) && picks(at) == 0 {
          NoBirths(fx, b, mode);
          MilderNone(h', h, Reads(fx, b, mode), x);
        } else {
          FewerReads(fx, b, at + [1], mode, picks, h', h, x);
        }
      }
      MilderChain(g', Touched(fx, a, at + [0], mode, picks), rest, g, Reads(fx, a, mode), Reads(fx, b, mode), x);
    case Tuple(xs) => FewerReadsAll(fx, e, xs, AllIn(mode, |xs|), at, 0, picks, g', g, x);
    case List(xs) => FewerReadsAll(fx, e, xs, AllIn(mode, |xs|), at, 0, picks, g', g, x);
    case App(h, args) =>
      var modes := ArgModes(fx, h, |args|);
      FewerReads(fx, h, at + [0], Lend, picks, g', g, x);
      forall k', k | k' ==> k
        ensures Milder(k', TouchedAll(fx, e, args, modes, at, 1, picks), k, ReadsAll(fx, e, args, modes), x)
      {
        FewerReadsAll(fx, e, args, modes, at, 1, picks, k', k, x);
      }
      MilderChain(g', Touched(fx, h, at + [0], Lend, picks), TouchedAll(fx, e, args, modes, at, 1, picks),
                  g, Reads(fx, h, Lend), ReadsAll(fx, e, args, modes), x);
    case _ => MilderSame(g', g, [], x);
  }

  lemma {:induction false} FewerReadsAll(fx: Facts, parent: Expr, es: seq<Expr>, modes: seq<Mode>, at: Pos, k: nat,
                                         picks: Picks, g': bool, g: bool, x: string)
    requires (g' ==> g) && |modes| == |es| && forall i :: 0 <= i < |es| ==> es[i] < parent
    ensures Milder(g', TouchedAll(fx, parent, es, modes, at, k, picks), g, ReadsAll(fx, parent, es, modes), x)
    decreases parent, 0, |es|
  {
    hide Milder, Reads, Touched;
    if es == [] {
      MilderSame(g', g, [], x);
    } else {
      var less := TouchedAll(fx, parent, es[1..], modes[1..], at, k + 1, picks);
      var more := ReadsAll(fx, parent, es[1..], modes[1..]);
      FewerReads(fx, es[0], at + [k], modes[0], picks, g', g, x);
      forall h', h | h' ==> h ensures Milder(h', less, h, more, x) {
        FewerReadsAll(fx, parent, es[1..], modes[1..], at, k + 1, picks, h', h, x);
      }
      MilderChain(g', Touched(fx, es[0], at + [k], modes[0], picks), less, g, Reads(fx, es[0], modes[0]), more, x);
    }
  }

  lemma {:induction false} MilderSame(g': bool, g: bool, evs: seq<Event>, x: string)
    requires g' ==> g
    ensures Milder(g', evs, g, evs, x)
    decreases |evs|
  {
    if evs != [] {
      MilderSame(g', g, evs[1..], x);
      MilderSame(false, false, evs[1..], x);
      MilderSame(true, true, evs[1..], x);
    }
  }

  lemma MilderNone(g': bool, g: bool, evs: seq<Event>, x: string)
    requires (g' ==> g) && forall ev :: ev in evs ==> !ev.Born?
    ensures Milder(g', [], g, evs, x)
  {
    if Fate(g, evs, x).Some? && g { ReadsKeepGone(evs, x, g); }
  }

  /** Beneath `at` every short-circuit operator evaluates its right operand. */
  ghost predicate AllOn(picks: Picks, at: Pos) { forall q :: at <= q ==> picks(q) != 0 }

  lemma OnChild(picks: Picks, at: Pos, k: nat)
    requires AllOn(picks, at)
    ensures AllOn(picks, at + [k]) && picks(at) != 0
  {
    forall q | at + [k] <= q ensures picks(q) != 0 { assert at <= at + [k] <= q; }
  }

  lemma {:induction false} AllRead(fx: Facts, e: Expr, at: Pos, mode: Mode, picks: Picks)
    requires AllOn(picks, at)
    ensures Touched(fx, e, at, mode, picks) == Reads(fx, e, mode)
    decreases e, 2, 0
  {
    hide AllOn, ReadsAll, TouchedAll, AllIn, ArgModes;
    OnChild(picks, at, 0);
    OnChild(picks, at, 1);
    match e
    case Borrow(y) => AllRead(fx, y, at + [0], Lend, picks);
    case Neg(y) => AllRead(fx, y, at + [0], mode, picks);
    case Arena(_, y) => AllRead(fx, y, at + [0], mode, picks);
    case Not(y) => AllRead(fx, y, at + [0], mode, picks);
    case Binop(_, a, b) => AllRead(fx, a, at + [0], mode, picks); AllRead(fx, b, at + [1], mode, picks);
    case Tuple(xs) => AllReadAll(fx, e, xs, AllIn(mode, |xs|), at, 0, picks);
    case List(xs) => AllReadAll(fx, e, xs, AllIn(mode, |xs|), at, 0, picks);
    case App(h, args) =>
      AllRead(fx, h, at + [0], Lend, picks);
      AllReadAll(fx, e, args, ArgModes(fx, h, |args|), at, 1, picks);
    case _ =>
  }

  lemma {:induction false} AllReadAll(fx: Facts, parent: Expr, es: seq<Expr>, modes: seq<Mode>, at: Pos, k: nat,
                                      picks: Picks)
    requires AllOn(picks, at) && |modes| == |es| && forall i :: 0 <= i < |es| ==> es[i] < parent
    ensures TouchedAll(fx, parent, es, modes, at, k, picks) == ReadsAll(fx, parent, es, modes)
    decreases parent, 0, |es|
  {
    hide AllOn, Reads, Touched;
    if es != [] {
      OnChild(picks, at, k);
      AllRead(fx, es[0], at + [k], modes[0], picks);
      AllReadAll(fx, parent, es[1..], modes[1..], at, k + 1, picks);
    }
  }

  // ------------------------------------------------------ along every path of a body

  /** A piece of an error-free body, whatever drops it is emitted with. */
  ghost predicate Fit(fx: Facts, e: Expr, at: Pos, owned: seq<string>, moved: Moves, shared: set<string>,
                      scope: set<string>) {
    && TailForm(e) && NoShadow(fx, e, at, owned)
    && Single(owned) && (forall n :: n in owned ==> n in scope) && Within(moved, owned)
    && Walk(fx, e, at, Own, owned, moved, shared).errors == []
  }

  /** The drops the piece is emitted with are those its analysis placed, and `x` is
      tracked; or none of them is of `x`. */
  ghost predicate Kept(fx: Facts, drops: seq<Site>, e: Expr, at: Pos, owned: seq<string>, moved: Moves,
                       shared: set<string>, pending: seq<string>, scope: set<string>, x: string) {
    && Fit(fx, e, at, owned, moved, shared, scope)
    && (Due(fx, drops, e, at, owned, moved, shared, pending, scope, x)
        || (NoneUnder(drops, at, x) && multiset(pending)[x] == 0))
  }

  lemma FitReady(fx: Facts, e: Expr, at: Pos, owned: seq<string>, moved: Moves, shared: set<string>,
                 scope: set<string>)
    requires Fit(fx, e, at, owned, moved, shared, scope)
    ensures Ready(fx, Walk(fx, e, at, Own, owned, moved, shared).sites, e, at, owned, moved, shared, scope)
  {
    hide Walk, TailForm, NoShadow;
  }

  lemma ReadyFit(fx: Facts, drops: seq<Site>, e: Expr, at: Pos, owned: seq<string>, moved: Moves, shared: set<string>,
                 scope: set<string>)
    requires Ready(fx, drops, e, at, owned, moved, shared, scope)
    ensures Fit(fx, e, at, owned, moved, shared, scope)
  {
    hide Walk, TailForm, NoShadow;
  }

  lemma LetFit(fx: Facts, e: Expr, at: Pos, owned: seq<string>, moved: Moves, shared: set<string>, scope: set<string>)
    requires Binder(e) && Fit(fx, e, at, owned, moved, shared, scope)
    ensures var o := Walk(fx, e.value, at + [0], Own, owned, moved, shared);
            var inner, within := Scoped(fx, owned, [e.name], at + [1]), LetShared(fx, e, shared);
            && o.errors == [] && Plain(e.value) && Within(o.moved, owned) && e.name !in owned
            && Fit(fx, e.body, at + [1], inner, o.moved, within, scope + {e.name})
            && Walk(fx, e, at, Own, owned, moved, shared).moved
                 == Walk(fx, e.body, at + [1], Own, inner, o.moved, within).moved - {e.name}
  {
    hide Fit, Ready, Walk, Scoped, LetShared;
    var sites := Walk(fx, e, at, Own, owned, moved, shared).sites;
    var o := Walk(fx, e.value, at + [0], Own, owned, moved, shared);
    FitReady(fx, e, at, owned, moved, shared, scope);
    LetReady(fx, sites, e, at, owned, moved, shared, scope);
    ReadyFit(fx, sites, e.body, at + [1], Scoped(fx, owned, [e.name], at + [1]), o.moved, LetShared(fx, e, shared),
             scope + {e.name});
  }

  lemma MatchFit(fx: Facts, e: Expr, k: nat, at: Pos, owned: seq<string>, moved: Moves, shared: set<string>,
                 scope: set<string>)
    requires e.Match? && Fit(fx, e, at, owned, moved, shared, scope) && k < |e.arms|
    ensures var o := Walk(fx, e.scrut, at + [0], Lend, owned, moved, shared);
            var pat, body := e.arms[k].pat, e.arms[k].body;
            && o.errors == [] && Plain(e.scrut) && Within(o.moved, owned)
            && Fit(fx, body, at + [k + 1], owned, o.moved, shared + PatNames(pat), scope + PatNames(pat))
            && Grows(ArmBody(fx, e.arms[k], at + [k + 1], owned, o.moved, shared).moved,
                     Walk(fx, e, at, Own, owned, moved, shared).moved)
  {
    hide Fit, Ready, Walk, PatNames;
    var sites := Walk(fx, e, at, Own, owned, moved, shared).sites;
    var o := Walk(fx, e.scrut, at + [0], Lend, owned, moved, shared);
    var names := PatNames(e.arms[k].pat);
    FitReady(fx, e, at, owned, moved, shared, scope);
    MatchReady(fx, sites, e, k, at, owned, moved, shared, scope);
    ReadyFit(fx, sites, e.arms[k].body, at + [k + 1], owned, o.moved, shared + names, scope + names);
  }

  lemma LetKept(fx: Facts, drops: seq<Site>, e: Expr, at: Pos, owned: seq<string>, moved: Moves, shared: set<string>,
                pending: seq<string>, scope: set<string>, x: string)
    requires Binder(e) && Kept(fx, drops, e, at, owned, moved, shared, pending, scope, x)
    ensures var within := scope + {e.name};
            var due := NamesAt(drops, at + [1], ScopeEnd, within * {e.name});
            && (x != e.name ==> x !in due)
            && Kept(fx, drops, e.body, at + [1], Scoped(fx, owned, [e.name], at + [1]),
                    Walk(fx, e.value, at + [0], Own, owned, moved, shared).moved, LetShared(fx, e, shared),
                    pending + due, within, x)
  {
    hide Fit, Due, Walk, Scoped, LetShared, NoneUnder, NamesAt;
    var within := scope + {e.name};
    var due := NamesAt(drops, at + [1], ScopeEnd, within * {e.name});
    LetFit(fx, e, at, owned, moved, shared, scope);
    NamesAtCount(drops, at + [1], ScopeEnd, within * {e.name}, x);
    assert x in due <==> multiset(due)[x] > 0;
    if Due(fx, drops, e, at, owned, moved, shared, pending, scope, x) {
      LetDue(fx, drops, e, at, owned, moved, shared, pending, scope, x);
    } else {
      NoneUnderChild(drops, at, 1, x);
      NamesAtSpare(drops, at + [1], ScopeEnd, within * {e.name}, x);
      assert multiset(pending + due)[x] == 0;
    }
  }

  lemma MatchKept(fx: Facts, drops: seq<Site>, e: Expr, k: nat, at: Pos, owned: seq<string>, moved: Moves,
                  shared: set<string>, pending: seq<string>, scope: set<string>, x: string)
    requires e.Match? && Kept(fx, drops, e, at, owned, moved, shared, pending, scope, x) && k < |e.arms|
    ensures var names := PatNames(e.arms[k].pat);
            var due := NamesAt(drops, at + [k + 1], ScopeEnd, scope + names);
            && (x in due ==> x in Walk(fx, e, at, Own, owned, moved, shared).moved)
            && Kept(fx, drops, e.arms[k].body, at + [k + 1], owned,
                    Walk(fx, e.scrut, at + [0], Lend, owned, moved, shared).moved,
                    shared + names, pending + due, scope + names, x)
  {
    hide Fit, Ready, Tracked, Walk, NoneUnder, NamesAt, PatNames, Agrees;
    var names := PatNames(e.arms[k].pat);
    var due := NamesAt(drops, at + [k + 1], ScopeEnd, scope + names);
    MatchFit(fx, e, k, at, owned, moved, shared, scope);
    assert x in due <==> multiset(due)[x] > 0;
    if Due(fx, drops, e, at, owned, moved, shared, pending, scope, x) {
      ArmDue(fx, drops, e, k, at, owned, moved, shared, pending, scope, x);
      ReadyAgrees(fx, drops, e, at, owned, moved, shared, scope);
      ArmAgrees(fx, drops, e, k, at, owned, moved, shared);
      NamesAtCount(drops, at + [k + 1], ScopeEnd, scope + names, x);
    } else {
      NoneUnderChild(drops, at, k + 1, x);
      NamesAtSpare(drops, at + [k + 1], ScopeEnd, scope + names, x);
      assert multiset(pending + due)[x] == 0;
    }
  }

  lemma {:induction false} FreeAllEvents(fx: Facts, names: seq<string>, next: Code, owned: seq<string>, picks: Picks)
    ensures Trace(fx, FreeAll(names, next), owned, picks).events
         == FreesOf(names) + Trace(fx, next, owned, picks).events
  {
    hide Trace;
    if names != [] {
      FreeTrace(fx, names[0], FreeAll(names[1..], next), owned, picks);
      FreeAllEvents(fx, names[1..], next, owned, picks);
    }
  }

  lemma {:induction false} FreesFate(names: seq<string>, gone: bool, x: string)
    requires multiset(names)[x] <= 1 && (x in names ==> !gone)
    ensures Fate(gone, FreesOf(names), x) == Some(gone || x in names)
  {
    if names != [] {
      var rest := FreesOf(names[1..]);
      assert ([Freed(names[0])] + rest)[1..] == rest;
      assert names == [names[0]] + names[1..];
      assert multiset(names)[x] == multiset([names[0]])[x] + multiset(names[1..])[x];
      FreesFate(names[1..], gone || names[0] == x, x);
    }
  }

  /** What evaluating a plain expression without errors does to the fate of `x`. */
  lemma EvalFate(fx: Facts, e: Expr, at: Pos, mode: Mode, next: Code, owned: seq<string>, moved: Moves,
                 shared: set<string>, picks: Picks, g: bool, x: string) returns (g': bool)
    requires Plain(e) && Walk(fx, e, at, mode, owned, moved, shared).errors == [] && (x in owned && g ==> x in moved)
    ensures if x in owned then g' ==> x in Walk(fx, e, at, mode, owned, moved, shared).moved else g' == g
    ensures Fate(g, Trace(fx, Then(Eval(e, at, mode), next), owned, picks).events, x)
         == Fate(g', Trace(fx, next, owned, picks).events, x)
  {
    hide Walk, Touched, Reads, Seen, Trace;
    var evs := Touched(fx, e, at, mode, picks);
    EvalEvents(fx, e, at, mode, next, owned, picks);
    FateConcat(g, Seen(evs, owned), Trace(fx, next, owned, picks).events, x);
    FateSeen(g, evs, owned, x);
    if x in owned {
      PlainTells(fx, e, at, mode, owned, moved, shared, x);
      FewerReads(fx, e, at, mode, picks, g, x in moved, x);
      g' := Fate(g, evs, x).value;
    } else {
      g' := g;
    }
  }

  lemma EvalEvents(fx: Facts, e: Expr, at: Pos, mode: Mode, next: Code, owned: seq<string>, picks: Picks)
    ensures Trace(fx, Then(Eval(e, at, mode), next), owned, picks).events
         == Seen(Touched(fx, e, at, mode, picks), owned) + Trace(fx, next, owned, picks).events
    ensures Trace(fx, Then(Eval(e, at, mode), next), owned, picks).exit == Trace(fx, next, owned, picks).exit
  {}

  lemma IntroEvents(fx: Facts, n: string, at: Pos, next: Code, owned: seq<string>, picks: Picks)
    ensures var rest := Trace(fx, next, Scoped(fx, owned, [n], at), picks);
            Trace(fx, Then(Intro(n, at), next), owned, picks)
              == Log((if (at, n) in fx.affine then [Born(n)] else []) + rest.events, rest.exit)
  {}

  lemma IntroFate(fx: Facts, n: string, at: Pos, next: Code, owned: seq<string>, picks: Picks, g: bool, x: string)
    ensures var born := x == n && (at, n) in fx.affine;
            Fate(g, Trace(fx, Then(Intro(n, at), next), owned, picks).events, x)
              == Fate(g && !born, Trace(fx, next, Scoped(fx, owned, [n], at), picks).events, x)
  {
    hide Scoped, Trace;
    IntroEvents(fx, n, at, next, owned, picks);
    var rest := Trace(fx, next, Scoped(fx, owned, [n], at), picks).events;
    assert ([Born(n)] + rest)[1..] == rest && [] + rest == rest;
  }

  /** How it stands with `x` at the end of a path: nothing was wrong, and an owned
      name not owed by an enclosing scope is gone only if the walk has it moved. */
  ghost predicate Ends(f: Option<bool>, exit: Exit, x: string, owns: bool, owed: bool, after: Moves) {
    f.Some? && (owns && !owed && f.value && exit == Returned ==> x in after)
  }

  lemma {:induction false} TailFate(fx: Facts, drops: seq<Site>, e: Expr, at: Pos, owned: seq<string>, moved: Moves,
                                    shared: set<string>, pending: seq<string>, scope: set<string>, picks: Picks,
                                    g: bool, x: string)
    requires Kept(fx, drops, e, at, owned, moved, shared, pending, scope, x) && (x in owned && g ==> x in moved)
    ensures var log := Trace(fx, Emit(fx, drops, e, at, pending, scope), owned, picks);
            Ends(Fate(g, log.events, x), log.exit, x, x in owned, x in pending,
                 Walk(fx, e, at, Own, owned, moved, shared).moved)
    decreases e, 1
  {
    hide Kept, Walk, Emit, Trace, Ends;
    if Binder(e) {
      LetFate(fx, drops, e, at, owned, moved, shared, pending, scope, picks, g, x);
    } else if e.Match? {
      MatchFate(fx, drops, e, at, owned, moved, shared, pending, scope, picks, g, x);
    } else {
      LeafFate(fx, drops, e, at, owned, moved, shared, pending, scope, picks, g, x);
    }
  }

  lemma {:induction false} LetFate(fx: Facts, drops: seq<Site>, e: Expr, at: Pos, owned: seq<string>, moved: Moves,
                                   shared: set<string>, pending: seq<string>, scope: set<string>, picks: Picks,
                                   g: bool, x: string)
    requires Binder(e) && Kept(fx, drops, e, at, owned, moved, shared, pending, scope, x)
    requires x in owned && g ==> x in moved
    ensures var log := Trace(fx, Emit(fx, drops, e, at, pending, scope), owned, picks);
            Ends(Fate(g, log.events, x), log.exit, x, x in owned, x in pending,
                 Walk(fx, e, at, Own, owned, moved, shared).moved)
    decreases e, 0
  {
    hide Fit, Due, Walk, Emit, Trace, Scoped, LetShared, NamesAt, NoneUnder;
    var o := Walk(fx, e.value, at + [0], Own, owned, moved, shared);
    var inner, within := Scoped(fx, owned, [e.name], at + [1]), LetShared(fx, e, shared);
    var due := NamesAt(drops, at + [1], ScopeEnd, (scope + {e.name}) * {e.name});
    var code := Emit(fx, drops, e.body, at + [1], pending + due, scope + {e.name});
    LetTrace(fx, drops, e, at, pending, scope);
    LetFit(fx, e, at, owned, moved, shared, scope);
    LetKept(fx, drops, e, at, owned, moved, shared, pending, scope, x);
    ScopedLet(fx, e.name, at + [1], owned);
    var intro := Then(Intro(e.name, at + [1]), code);
    EvalEvents(fx, e.value, at + [0], Own, intro, owned, picks);
    IntroEvents(fx, e.name, at + [1], code, owned, picks);
    var g1 := EvalFate(fx, e.value, at + [0], Own, intro, owned, moved, shared, picks, g, x);
    IntroFate(fx, e.name, at + [1], code, owned, picks, g1, x);
    TailFate(fx, drops, e.body, at + [1], inner, o.moved, within, pending + due, scope + {e.name}, picks,
             g1 && !(x == e.name && (at + [1], e.name) in fx.affine), x);
  }

  lemma {:induction false} MatchFate(fx: Facts, drops: seq<Site>, e: Expr, at: Pos, owned: seq<string>, moved: Moves,
                                     shared: set<string>, pending: seq<string>, scope: set<string>, picks: Picks,
                                     g: bool, x: string)
    requires e.Match? && Kept(fx, drops, e, at, owned, moved, shared, pending, scope, x)
    requires x in owned && g ==> x in moved
    ensures var log := Trace(fx, Emit(fx, drops, e, at, pending, scope), owned, picks);
            Ends(Fate(g, log.events, x), log.exit, x, x in owned, x in pending,
                 Walk(fx, e, at, Own, owned, moved, shared).moved)
    decreases e, 0
  {
    hide Fit, Due, Walk, Emit, EmitArms, Trace, NamesAt, NoneUnder, PatNames;
    var o := Walk(fx, e.scrut, at + [0], Lend, owned, moved, shared);
    var arms := Switch(at, EmitArms(fx, drops, e, e.arms, at, 1, pending, scope));
    var k := picks(at);
    SwitchTrace(fx, drops, e, at, owned, pending, scope, picks);
    ScrutFit(fx, e, at, owned, moved, shared, scope);
    EvalEvents(fx, e.scrut, at + [0], Lend, arms, owned, picks);
    var g1 := EvalFate(fx, e.scrut, at + [0], Lend, arms, owned, moved, shared, picks, g, x);
    if k < |e.arms| {
      var names := PatNames(e.arms[k].pat);
      var due := NamesAt(drops, at + [k + 1], ScopeEnd, scope + names);
      MatchFit(fx, e, k, at, owned, moved, shared, scope);
      MatchKept(fx, drops, e, k, at, owned, moved, shared, pending, scope, x);
      TailFate(fx, drops, e.arms[k].body, at + [k + 1], owned, o.moved, shared + names, pending + due, scope + names,
               picks, g1, x);
    }
  }

  lemma ScrutFit(fx: Facts, e: Expr, at: Pos, owned: seq<string>, moved: Moves, shared: set<string>, scope: set<string>)
    requires e.Match? && Fit(fx, e, at, owned, moved, shared, scope)
    ensures Plain(e.scrut) && Walk(fx, e.scrut, at + [0], Lend, owned, moved, shared).errors == []
  {
    hide Plain, WalkArms, Joined, AllSites, KeptSites, AllErrors;
    ScrutPlain(e);
  }

  lemma LeafFate(fx: Facts, drops: seq<Site>, e: Expr, at: Pos, owned: seq<string>, moved: Moves, shared: set<string>,
                 pending: seq<string>, scope: set<string>, picks: Picks, g: bool, x: string)
    requires !Binder(e) && !e.Match? && Kept(fx, drops, e, at, owned, moved, shared, pending, scope, x)
    requires x in owned && g ==> x in moved
    ensures var log := Trace(fx, Emit(fx, drops, e, at, pending, scope), owned, picks);
            Ends(Fate(g, log.events, x), log.exit, x, x in owned, x in pending,
                 Walk(fx, e, at, Own, owned, moved, shared).moved)
  {
    hide Walk, Trace, FreeAll, NamesAt, Without, Reverse, NoneUnder, Plain, Agrees, Tracked;
    LeafPlain(e);
    Disposal.EndTrace(fx, owned, picks, x);
    if TailCall(fx, e, scope) {
      var back := NamesAt(drops, at, BackEdge, scope);
      var rest := Without(Reverse(pending), back);
      LeafBack(fx, drops, e, at, owned, moved, shared, pending, scope, x);
      FreeAllEvents(fx, rest, Again, owned, picks);
      FreeAllEvents(fx, back, FreeAll(rest, Again), owned, picks);
      FreeAllExit(fx, rest, Again, owned, picks);
      FreeAllExit(fx, back, FreeAll(rest, Again), owned, picks);
      EvalEvents(fx, e, at, Own, FreeAll(back, FreeAll(rest, Again)), owned, picks);
      var g1 := EvalFate(fx, e, at, Own, FreeAll(back, FreeAll(rest, Again)), owned, moved, shared, picks, g, x);
      FreesFate(back, g1, x);
      FreesFate(rest, g1 || x in back, x);
      FateConcat(g1, FreesOf(back), FreesOf(rest) + [], x);
      FateConcat(g1 || x in back, FreesOf(rest), [], x);
    } else {
      var rest := Reverse(pending);
      LeafPending(fx, drops, e, at, owned, moved, shared, pending, scope, x);
      FreeAllEvents(fx, rest, Return, owned, picks);
      EvalEvents(fx, e, at, Own, FreeAll(rest, Return), owned, picks);
      var g1 := EvalFate(fx, e, at, Own, FreeAll(rest, Return), owned, moved, shared, picks, g, x);
      FreesFate(rest, g1, x);
      FateConcat(g1, FreesOf(rest), [], x);
    }
  }

  lemma LeafPlain(e: Expr)
    ensures TailForm(e) && !Binder(e) && !e.Match? ==> Plain(e)
  {}

  lemma FreeAllExit(fx: Facts, names: seq<string>, next: Code, owned: seq<string>, picks: Picks)
    ensures Trace(fx, FreeAll(names, next), owned, picks).exit == Trace(fx, next, owned, picks).exit
  {
    hide FreeAll, Trace;
    FreeAllTrace(fx, names, next, owned, picks, Born(""));
  }

  /** The frees at the end of a path: of `x` at most one, and only while it is here. */
  lemma LeafPending(fx: Facts, drops: seq<Site>, e: Expr, at: Pos, owned: seq<string>, moved: Moves,
                    shared: set<string>, pending: seq<string>, scope: set<string>, x: string)
    requires Kept(fx, drops, e, at, owned, moved, shared, pending, scope, x)
    ensures var rest := Reverse(pending);
            && multiset(rest)[x] <= 1 && (x in rest <==> x in pending)
            && (x in rest ==> x in owned && x !in Walk(fx, e, at, Own, owned, moved, shared).moved)
  {
    hide Walk, Fit, Ready, Tracked, NoneUnder;
    assert x in Reverse(pending) <==> multiset(Reverse(pending))[x] > 0;
    assert x in pending <==> multiset(pending)[x] > 0;
  }

  lemma LeafBack(fx: Facts, drops: seq<Site>, e: Expr, at: Pos, owned: seq<string>, moved: Moves, shared: set<string>,
                 pending: seq<string>, scope: set<string>, x: string)
    requires TailCall(fx, e, scope) && Kept(fx, drops, e, at, owned, moved, shared, pending, scope, x)
    ensures var back := NamesAt(drops, at, BackEdge, scope);
            var rest := Without(Reverse(pending), back);
            && multiset(back)[x] <= 1 && multiset(rest)[x] <= 1 && !(x in back && x in rest)
            && (x in back || x in rest ==> x in owned && x !in Walk(fx, e, at, Own, owned, moved, shared).moved)
  {
    hide Walk, Fit, Tracked, NoneUnder, NamesAt, Reverse, Without, Agrees, TailForm, NoShadow;
    var back := NamesAt(drops, at, BackEdge, scope);
    var rest := Without(Reverse(pending), back);
    LeafPending(fx, drops, e, at, owned, moved, shared, pending, scope, x);
    WithoutCount(Reverse(pending), back, x);
    assert x in rest <==> multiset(rest)[x] > 0;
    assert x in back <==> multiset(back)[x] > 0;
    if Due(fx, drops, e, at, owned, moved, shared, pending, scope, x) {
      BackCount(fx, drops, e, at, owned, moved, shared, scope, x);
      assert multiset(owned)[x] <= 1;
      assert x in owned <==> multiset(owned)[x] > 0;
    } else {
      NamesAtSpare(drops, at, BackEdge, scope, x);
    }
  }

  // ------------------------------------------------------------------- whole functions

  lemma {:induction false} BirthsFate(names: seq<string>, gone: bool, x: string)
    ensures Fate(gone, BirthsOf(names), x) == Some(gone && x !in names)
  {
    if names != [] {
      var rest := BirthsOf(names[1..]);
      assert ([Born(names[0])] + rest)[1..] == rest;
      assert names == [names[0]] + names[1..];
      BirthsFate(names[1..], gone && names[0] != x, x);
    }
  }

  /** The frees at the end of a pass: of `x` at most one, and only while it is here. */
  lemma EndNames(fx: Facts, drops: seq<Site>, body: Expr, owned: seq<string>, lent: set<string>, params: set<string>,
                 x: string)
    requires NoneUnder(drops, [], x) || (Accepted(fx, drops, body, owned, lent, params) && Tracked(fx, body, lent, x))
    ensures var names := NamesAt(drops, [], ScopeEnd, params);
            && multiset(names)[x] <= 1
            && (x in names ==> x in owned && x !in Walk(fx, body, [], Own, owned, map[], lent).moved)
  {
    hide Accepted, Tracked, Walk, NamesAt, NoneUnder, Due;
    var names := NamesAt(drops, [], ScopeEnd, params);
    if !NoneUnder(drops, [], x) {
      BodyDue(fx, drops, body, owned, lent, params, x);
      OwnedOnce(fx, drops, body, owned, lent, params, x);
    } else {
      NamesAtSpare(drops, [], ScopeEnd, params, x);
    }
    assert x in names <==> multiset(names)[x] > 0;
    assert x in owned <==> multiset(owned)[x] > 0;
  }

  lemma BodyKept(fx: Facts, drops: seq<Site>, body: Expr, owned: seq<string>, lent: set<string>, params: set<string>,
                 x: string)
    requires Fit(fx, body, [], owned, map[], lent, params)
    requires NoneUnder(drops, [], x) || (Accepted(fx, drops, body, owned, lent, params) && Tracked(fx, body, lent, x))
    ensures Kept(fx, drops, body, [], owned, map[], lent, [], params, x)
  {
    hide Fit, Accepted, Tracked, NoneUnder, Due;
    if !NoneUnder(drops, [], x) { BodyDue(fx, drops, body, owned, lent, params, x); }
  }

  lemma PassFate(fx: Facts, drops: seq<Site>, body: Expr, owned: seq<string>, lent: set<string>, params: set<string>,
                 picks: Picks, g: bool, x: string)
    requires Fit(fx, body, [], owned, map[], lent, params)
    requires NoneUnder(drops, [], x) || (Accepted(fx, drops, body, owned, lent, params) && Tracked(fx, body, lent, x))
    ensures Fate(g, Pass(fx, drops, body, owned, params, picks).events, x).Some?
  {
    hide Fit, Accepted, Tracked, Kept, Walk, Emit, Trace, NamesAt, NoneUnder, Fate, FreesOf, BirthsOf;
    var log := Trace(fx, Emit(fx, drops, body, [], [], params), owned, picks);
    var names := NamesAt(drops, [], ScopeEnd, params);
    var end := if log.exit == Returned then FreesOf(names) else [];
    var here := g && x !in owned;
    BodyKept(fx, drops, body, owned, lent, params, x);
    EndNames(fx, drops, body, owned, lent, params, x);
    BirthsFate(owned, g, x);
    TailFate(fx, drops, body, [], owned, map[], lent, [], params, picks, here, x);
    FateConcat(g, BirthsOf(owned), log.events, x);
    FateConcat(g, BirthsOf(owned) + log.events, end, x);
    var gone := Fate(here, log.events, x).value;
    if log.exit == Returned { FreesFate(names, gone, x); } else { NoEvents(gone, x); }
  }

  lemma NoEvents(gone: bool, x: string)
    ensures Fate(gone, [], x) == Some(gone)
  {}

  lemma OwnedOnce(fx: Facts, drops: seq<Site>, body: Expr, owned: seq<string>, lent: set<string>,
                  params: set<string>, x: string)
    requires Accepted(fx, drops, body, owned, lent, params)
    ensures multiset(owned)[x] <= 1
  {
    hide Walk, TailForm, NoShadow;
  }

  lemma AcceptedFit(fx: Facts, drops: seq<Site>, body: Expr, owned: seq<string>, lent: set<string>, params: set<string>)
    requires Accepted(fx, drops, body, owned, lent, params)
    ensures Fit(fx, body, [], owned, map[], lent, params)
  {
    hide Walk, TailForm, NoShadow, Single;
  }

  /** No value is lent, handed on or freed after it was handed on or freed: in any
      number of passes through an accepted function with the drops placed in it. */
  lemma {:induction false} NoUseAfterDisposal(fx: Facts, drops: seq<Site>, body: Expr, owned: seq<string>,
                                              lent: set<string>, params: set<string>, passes: seq<Picks>, g: bool,
                                              x: string)
    requires Accepted(fx, drops, body, owned, lent, params)
    requires Tracked(fx, body, lent, x) || x in fx.leaves || x in lent
    ensures Fate(g, Run(fx, drops, body, owned, params, passes).events, x).Some?
    decreases |passes|
  {
    hide Accepted, Tracked, Fit, Pass, NoneUnder;
    if passes != [] {
      AcceptedFit(fx, drops, body, owned, lent, params);
      if !Tracked(fx, body, lent, x) { SparedDrops(fx, drops, body, owned, lent, params, x); }
      PassFate(fx, drops, body, owned, lent, params, passes[0], g, x);
      var log := Pass(fx, drops, body, owned, params, passes[0]);
      if log.exit == Looped {
        NoUseAfterDisposal(fx, drops, body, owned, lent, params, passes[1..], Fate(g, log.events, x).value, x);
        FateConcat(g, log.events, Run(fx, drops, body, owned, params, passes[1..]).events, x);
      }
    }
  }

  lemma SparedDrops(fx: Facts, drops: seq<Site>, body: Expr, owned: seq<string>, lent: set<string>,
                    params: set<string>, x: string)
    requires Accepted(fx, drops, body, owned, lent, params) && (x in fx.leaves || x in lent)
    ensures NoneUnder(drops, [], x)
  {
    hide Walk, TailForm, NoShadow, Single, Unclaimed, NoneFor;
    var o := Walk(fx, body, [], Own, owned, map[], lent);
    var rest := Unclaimed(fx, owned, o.moved, lent);
    WalkSpares(fx, body, [], Own, owned, map[], lent, x);
    UnclaimedSpares(fx, owned, o.moved, lent, x);
    SitesForSpare(rest, [], ScopeEnd, x);
    NoneConcat(o.sites, SitesFor(rest, [], ScopeEnd), x);
    SameSites(drops, Analyse(fx, body, owned, lent).sites, x);
    NoneBelow(drops, x);
  }

  lemma NoneBelow(drops: seq<Site>, x: string)
    requires NoneFor(drops, x)
    ensures NoneUnder(drops, [], x)
  {}

  // --------------------------------------------------- what is refused goes wrong

  /** A body in the fragment, accepted or not. */
  ghost predicate Formed(fx: Facts, e: Expr, at: Pos, owned: seq<string>, moved: Moves) {
    TailForm(e) && NoShadow(fx, e, at, owned) && Within(moved, owned)
  }

  ghost predicate Wrong(fx: Facts, c: Code, at: Pos, owned: seq<string>, picks: Picks, gone: bool, x: string) {
    forall p :: SameUnder(at, p, picks) ==> Fate(gone, Trace(fx, c, owned, p).events, x).None?
  }

  lemma WrongAt(fx: Facts, c: Code, at: Pos, owned: seq<string>, picks: Picks, gone: bool, x: string, p: Picks)
    requires Wrong(fx, c, at, owned, picks, gone, x) && SameUnder(at, p, picks)
    ensures Fate(gone, Trace(fx, c, owned, p).events, x).None?
  {}

  /** A plain expression with an error goes wrong where all of it is read. */
  lemma PlainWrong(fx: Facts, e: Expr, at: Pos, mode: Mode, next: Code, owned: seq<string>, moved: Moves,
                   shared: set<string>, picks: Picks, x: string)
    requires Plain(e) && AllOn(picks, at) && !Spotless(Walk(fx, e, at, mode, owned, moved, shared).errors, x)
    ensures Fate(x in moved, Trace(fx, Then(Eval(e, at, mode), next), owned, picks).events, x).None?
  {
    hide Walk, Reads, Touched, Seen, Trace, Spotless, AllOn;
    if x !in owned { ErrorsOwned(fx, e, at, mode, owned, moved, shared, x); }
    PlainTells(fx, e, at, mode, owned, moved, shared, x);
    AllRead(fx, e, at, mode, picks);
    var evs := Touched(fx, e, at, mode, picks);
    EvalEvents(fx, e, at, mode, next, owned, picks);
    FateConcat(x in moved, Seen(evs, owned), Trace(fx, next, owned, picks).events, x);
    FateSeen(x in moved, evs, owned, x);
  }

  /** One without errors on `x` leaves it as the walk says. */
  lemma PlainRight(fx: Facts, e: Expr, at: Pos, mode: Mode, next: Code, owned: seq<string>, moved: Moves,
                   shared: set<string>, picks: Picks, x: string)
    requires Plain(e) && AllOn(picks, at) && Spotless(Walk(fx, e, at, mode, owned, moved, shared).errors, x)
    requires Within(moved, owned)
    ensures var o := Walk(fx, e, at, mode, owned, moved, shared);
            Fate(x in moved, Trace(fx, Then(Eval(e, at, mode), next), owned, picks).events, x)
              == Fate(x in o.moved, Trace(fx, next, owned, picks).events, x)
  {
    hide Walk, Reads, Touched, Seen, Trace, Spotless, AllOn;
    PlainMoves(fx, e, at, mode, owned, moved, shared);
    if x in owned { PlainTells(fx, e, at, mode, owned, moved, shared, x); }
    AllRead(fx, e, at, mode, picks);
    var evs := Touched(fx, e, at, mode, picks);
    EvalEvents(fx, e, at, mode, next, owned, picks);
    FateConcat(x in moved, Seen(evs, owned), Trace(fx, next, owned, picks).events, x);
    FateSeen(x in moved, evs, owned, x);
  }

  function Ones(): Picks { (p: Pos) => 1 }

  lemma OnesOn(at: Pos, p: Picks)
    requires SameUnder(at, p, Ones())
    ensures AllOn(p, at)
  {}

  /** Takes `inner` beneath `at + [k]`, `here` at `at`, and every operand elsewhere. */
  function Below(at: Pos, k: nat, here: nat, inner: Picks): Picks {
    (q: Pos) => if q == at then here else if at + [k] <= q then inner(q) else 1
  }

  lemma BelowParts(at: Pos, k: nat, here: nat, inner: Picks, p: Picks)
    requires SameUnder(at, p, Below(at, k, here, inner))
    ensures p(at) == here && SameUnder(at + [k], p, inner) && (k != 0 ==> AllOn(p, at + [0]))
  {
    forall r: Pos | at + [k] <= r ensures p(r) == inner(r) {
      assert at <= at + [k] <= r;
      assert r != at;
    }
    if k != 0 {
      forall q: Pos | at + [0] <= q ensures p(q) != 0 {
        assert at <= at + [0] <= q;
        assert q != at;
        assert q[|at|] == (at + [0])[|at|] == 0 && (at + [k])[|at|] == k;
      }
    }
  }

  lemma SomeError(errors: seq<Err>) returns (x: string)
    requires errors != []
    ensures !Spotless(errors, x)
  {
    x := errors[0].name;
    assert errors[0] in errors;
  }

  lemma NoError(errors: seq<Err>, x: string)
    requires errors == []
    ensures Spotless(errors, x)
  {}

  /** Whatever the drops it is emitted with, a piece with an error goes wrong on
      some path, for some name. */
  lemma {:induction false} GoesWrong(fx: Facts, drops: seq<Site>, e: Expr, at: Pos, owned: seq<string>, moved: Moves,
                                     shared: set<string>, pending: seq<string>, scope: set<string>)
    returns (picks: Picks, x: string)
    requires Formed(fx, e, at, owned, moved) && Walk(fx, e, at, Own, owned, moved, shared).errors != []
    ensures Wrong(fx, Emit(fx, drops, e, at, pending, scope), at, owned, picks, x in moved, x)
    decreases e, 1
  {
    hide Formed, Walk, Emit, Wrong;
    if Binder(e) {
      picks, x := LetWrong(fx, drops, e, at, owned, moved, shared, pending, scope);
    } else if e.Match? {
      picks, x := MatchWrong(fx, drops, e, at, owned, moved, shared, pending, scope);
    } else {
      picks, x := LeafWrong(fx, drops, e, at, owned, moved, shared, pending, scope);
    }
  }

  lemma LeafWrong(fx: Facts, drops: seq<Site>, e: Expr, at: Pos, owned: seq<string>, moved: Moves, shared: set<string>,
                  pending: seq<string>, scope: set<string>)
    returns (picks: Picks, x: string)
    requires !Binder(e) && !e.Match?
    requires Formed(fx, e, at, owned, moved) && Walk(fx, e, at, Own, owned, moved, shared).errors != []
    ensures Wrong(fx, Emit(fx, drops, e, at, pending, scope), at, owned, picks, x in moved, x)
  {
    hide Walk, Trace, FreeAll, NamesAt, Without, Reverse, Plain, AllOn, SameUnder, Spotless;
    LeafPlain(e);
    x := SomeError(Walk(fx, e, at, Own, owned, moved, shared).errors);
    picks := Ones();
    var c := Emit(fx, drops, e, at, pending, scope);
    forall p | SameUnder(at, p, picks) ensures Fate(x in moved, Trace(fx, c, owned, p).events, x).None? {
      OnesOn(at, p);
      if TailCall(fx, e, scope) {
        var back := NamesAt(drops, at, BackEdge, scope);
        PlainWrong(fx, e, at, Own, FreeAll(back, FreeAll(Without(Reverse(pending), back), Again)), owned, moved,
                   shared, p, x);
      } else {
        PlainWrong(fx, e, at, Own, FreeAll(Reverse(pending), Return), owned, moved, shared, p, x);
      }
    }
  }

  lemma LetFormed(fx: Facts, e: Expr, at: Pos, owned: seq<string>, moved: Moves, shared: set<string>)
    requires Binder(e) && Formed(fx, e, at, owned, moved)
    ensures var o := Walk(fx, e.value, at + [0], Own, owned, moved, shared);
            var inner, within := Scoped(fx, owned, [e.name], at + [1]), LetShared(fx, e, shared);
            && Plain(e.value) && Within(moved, owned) && Within(o.moved, owned) && e.name !in owned
            && Formed(fx, e.body, at + [1], inner, o.moved)
            && Walk(fx, e, at, Own, owned, moved, shared).errors
                 == o.errors + Walk(fx, e.body, at + [1], Own, inner, o.moved, within).errors
  {
    hide Plain, Scoped, LetShared;
    PlainMoves(fx, e.value, at + [0], Own, owned, moved, shared);
    ScopedLet(fx, e.name, at + [1], owned);
  }

  lemma {:induction false} LetWrong(fx: Facts, drops: seq<Site>, e: Expr, at: Pos, owned: seq<string>, moved: Moves,
                                    shared: set<string>, pending: seq<string>, scope: set<string>)
    returns (picks: Picks, x: string)
    requires Binder(e)
    requires Formed(fx, e, at, owned, moved) && Walk(fx, e, at, Own, owned, moved, shared).errors != []
    ensures Wrong(fx, Emit(fx, drops, e, at, pending, scope), at, owned, picks, x in moved, x)
    decreases e, 0
  {
    hide Formed, Walk, Emit, Trace, Scoped, LetShared, NamesAt, SameUnder, AllOn, Spotless;
    var o := Walk(fx, e.value, at + [0], Own, owned, moved, shared);
    var inner, within := Scoped(fx, owned, [e.name], at + [1]), LetShared(fx, e, shared);
    var due := NamesAt(drops, at + [1], ScopeEnd, (scope + {e.name}) * {e.name});
    var code := Emit(fx, drops, e.body, at + [1], pending + due, scope + {e.name});
    var intro := Then(Intro(e.name, at + [1]), code);
    LetTrace(fx, drops, e, at, pending, scope);
    LetFormed(fx, e, at, owned, moved, shared);
    ScopedLet(fx, e.name, at + [1], owned);
    var c := Ones();
    if o.errors != [] {
      x := SomeError(o.errors);
    } else {
      c, x := GoesWrong(fx, drops, e.body, at + [1], inner, o.moved, within, pending + due, scope + {e.name});
      NoError(o.errors, x);
    }
    picks := Below(at, 1, 1, c);
    forall p | SameUnder(at, p, picks)
      ensures Fate(x in moved, Trace(fx, Emit(fx, drops, e, at, pending, scope), owned, p).events, x).None?
    {
      BelowParts(at, 1, 1, c, p);
      if o.errors != [] {
        PlainWrong(fx, e.value, at + [0], Own, intro, owned, moved, shared, p, x);
      } else {
        PlainRight(fx, e.value, at + [0], Own, intro, owned, moved, shared, p, x);
        IntroFate(fx, e.name, at + [1], code, owned, p, x in o.moved, x);
        WrongAt(fx, code, at + [1], inner, c, x in o.moved, x, p);
      }
    }
  }

  lemma MatchFormed(fx: Facts, e: Expr, at: Pos, owned: seq<string>, moved: Moves, shared: set<string>)
    requires e.Match? && Formed(fx, e, at, owned, moved)
    ensures var o := Walk(fx, e.scrut, at + [0], Lend, owned, moved, shared);
            && Plain(e.scrut) && Within(moved, owned) && Formed(fx, e, at, owned, o.moved)
            && Walk(fx, e, at, Own, owned, moved, shared).errors
                 == o.errors + AllErrors(Arms(fx, e, at, owned, o.moved, shared))
  {
    hide Plain, WalkArms, Joined, AllSites, KeptSites, AllErrors;
    ScrutPlain(e);
    PlainMoves(fx, e.scrut, at + [0], Lend, owned, moved, shared);
  }

  lemma ArmFormed(fx: Facts, e: Expr, k: nat, at: Pos, owned: seq<string>, moved: Moves, shared: set<string>)
    requires e.Match? && k < |e.arms| && Formed(fx, e, at, owned, moved)
    ensures Formed(fx, e.arms[k].body, at + [k + 1], owned, moved)
    ensures Arms(fx, e, at, owned, moved, shared)[k] == ArmBody(fx, e.arms[k], at + [k + 1], owned, moved, shared)
  {
    hide Walk, WalkArms;
    ArmMoves(fx, e, k, at, owned, moved, shared);
  }

  lemma {:induction false} ErrorArm(outs: seq<Out>) returns (k: nat)
    requires AllErrors(outs) != []
    ensures k < |outs| && outs[k].errors != []
    decreases |outs|
  {
    if outs[0].errors != [] {
      k := 0;
    } else {
      k := ErrorArm(outs[1..]);
      k := k + 1;
    }
  }

  lemma {:induction false} MatchWrong(fx: Facts, drops: seq<Site>, e: Expr, at: Pos, owned: seq<string>, moved: Moves,
                                      shared: set<string>, pending: seq<string>, scope: set<string>)
    returns (picks: Picks, x: string)
    requires e.Match?
    requires Formed(fx, e, at, owned, moved) && Walk(fx, e, at, Own, owned, moved, shared).errors != []
    ensures Wrong(fx, Emit(fx, drops, e, at, pending, scope), at, owned, picks, x in moved, x)
    decreases e, 0
  {
    hide Formed, Walk, WalkArms, Emit, EmitArms, Trace, NamesAt, SameUnder, AllOn, Spotless, AllErrors, PatNames;
    var o := Walk(fx, e.scrut, at + [0], Lend, owned, moved, shared);
    var arms := Switch(at, EmitArms(fx, drops, e, e.arms, at, 1, pending, scope));
    MatchFormed(fx, e, at, owned, moved, shared);
    var k, c := 0, Ones();
    if o.errors != [] {
      x := SomeError(o.errors);
    } else {
      k := ErrorArm(Arms(fx, e, at, owned, o.moved, shared));
      var names := PatNames(e.arms[k].pat);
      var due := NamesAt(drops, at + [k + 1], ScopeEnd, scope + names);
      ArmFormed(fx, e, k, at, owned, o.moved, shared);
      c, x := GoesWrong(fx, drops, e.arms[k].body, at + [k + 1], owned, o.moved, shared + names, pending + due,
                        scope + names);
      NoError(o.errors, x);
    }
    picks := Below(at, k + 1, k, c);
    forall p | SameUnder(at, p, picks)
      ensures Fate(x in moved, Trace(fx, Emit(fx, drops, e, at, pending, scope), owned, p).events, x).None?
    {
      BelowParts(at, k + 1, k, c, p);
      SwitchTrace(fx, drops, e, at, owned, pending, scope, p);
      if o.errors != [] {
        PlainWrong(fx, e.scrut, at + [0], Lend, arms, owned, moved, shared, p, x);
      } else {
        var names := PatNames(e.arms[k].pat);
        var due := NamesAt(drops, at + [k + 1], ScopeEnd, scope + names);
        PlainRight(fx, e.scrut, at + [0], Lend, arms, owned, moved, shared, p, x);
        WrongAt(fx, Emit(fx, drops, e.arms[k].body, at + [k + 1], pending + due, scope + names), at + [k + 1], owned,
                c, x in o.moved, x, p);
      }
    }
  }

  /** The analysis is exact: it accepts a body of the fragment if and only if on no
      path a name is lent or handed on after it was handed on. */
  lemma AcceptsIffNoReuse(fx: Facts, body: Expr, owned: seq<string>, lent: set<string>, params: set<string>)
    requires TailForm(body) && NoShadow(fx, body, [], owned) && Single(owned)
    requires forall n :: n in owned ==> n in params
    ensures Analyse(fx, body, owned, lent).errors == [] <==>
      forall picks: Picks, x :: Fate(false, Pass(fx, [], body, owned, params, picks).events, x).Some?
  {
    hide Walk, TailForm, NoShadow, Single, Pass, Fate;
    if Analyse(fx, body, owned, lent).errors == [] {
      forall picks: Picks, x ensures Fate(false, Pass(fx, [], body, owned, params, picks).events, x).Some? {
        PassFate(fx, [], body, owned, lent, params, picks, false, x);
      }
    } else {
      var picks, x := GoesWrong(fx, [], body, [], owned, map[], lent, [], params);
      PassWrong(fx, body, owned, params, picks, x);
    }
  }

  lemma PassWrong(fx: Facts, body: Expr, owned: seq<string>, params: set<string>, picks: Picks, x: string)
    requires Wrong(fx, Emit(fx, [], body, [], [], params), [], owned, picks, false, x)
    ensures Fate(false, Pass(fx, [], body, owned, params, picks).events, x).None?
  {
    hide Emit, Trace, NamesAt;
    var log := Trace(fx, Emit(fx, [], body, [], [], params), owned, picks);
    var end := if log.exit == Returned then FreesOf(NamesAt([], [], ScopeEnd, params)) else [];
    BirthsFate(owned, false, x);
    FateConcat(false, BirthsOf(owned), log.events, x);
    FateConcat(false, BirthsOf(owned) + log.events, end, x);
    assert SameUnder([], picks, picks);
  }

  /** What the analysis says of a reuse: an error naming the name and its first move. */
  lemma ReuseNamed(fx: Facts, e: Expr, at: Pos, mode: Mode, owned: seq<string>, moved: Moves, shared: set<string>,
                   x: string)
    requires Plain(e) && x in owned && x in moved && Mentioned(Reads(fx, e, mode), x)
    ensures Named(Walk(fx, e, at, mode, owned, moved, shared).errors, x, moved[x])
  {
    hide Walk, Reads;
    PlainTells(fx, e, at, mode, owned, moved, shared, x);
  }
}
