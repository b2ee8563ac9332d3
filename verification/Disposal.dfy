/** Every owned value is disposed of exactly once on every path: handed on, or
    freed (src/own.rs, src/codegen.rs). */
module Disposal {
  import opened Ast
  import opened Ownership
  import opened Drops

  // -------------------------------------------------- uses along a plain path

  lemma {:induction false} HandedAtMost(fx: Facts, e: Expr, at: Pos, mode: Mode, picks: Picks, x: string)
    ensures multiset(Handed(fx, e, at, mode, picks))[x] <= multiset(Uses(fx, e, mode))[x]
    decreases e, 1
  {
    hide HandedAll, UsesAll, AllIn, ArgModes;
    match e
    case Borrow(y) => HandedAtMost(fx, y, at + [0], Lend, picks, x);
    case Neg(y) => HandedAtMost(fx, y, at + [0], mode, picks, x);
    case Arena(_, y) => HandedAtMost(fx, y, at + [0], mode, picks, x);
    case Not(y) => HandedAtMost(fx, y, at + [0], mode, picks, x);
    case Binop(_, _, _) => HandedAtMostTwo(fx, e, at, mode, picks, x);
    case Tuple(xs) => HandedAtMostAll(fx, e, xs, AllIn(mode, |xs|), at, 0, picks, x);
    case List(xs) => HandedAtMostAll(fx, e, xs, AllIn(mode, |xs|), at, 0, picks, x);
    case App(_, _) => HandedAtMostApp(fx, e, at, mode, picks, x);
    case _ =>
  }

  /** What an operator and an application hand on, one step unfolded. */
  lemma HandedSteps(fx: Facts, e: Expr, at: Pos, mode: Mode, picks: Picks)
    ensures e.Binop? ==>
      var rest := if ShortCircuit(e.op) && picks(at) == 0 then [] else Handed(fx, e.right, at + [1], mode, picks);
      Handed(fx, e, at, mode, picks) == Handed(fx, e.left, at + [0], mode, picks) + rest
    ensures e.Binop? ==> Uses(fx, e, mode) == Uses(fx, e.left, mode) + Uses(fx, e.right, mode)
    ensures e.App? ==>
      var rest := HandedAll(fx, e, e.args, ArgModes(fx, e.head, |e.args|), at, 1, picks);
      Handed(fx, e, at, mode, picks) == Handed(fx, e.head, at + [0], Lend, picks) + rest
    ensures e.App? ==>
      Uses(fx, e, mode) == Uses(fx, e.head, Lend) + UsesAll(fx, e, e.args, ArgModes(fx, e.head, |e.args|))
  {
    hide HandedAll, UsesAll, ArgModes, AllIn;
  }

  lemma {:induction false} HandedAtMostTwo(fx: Facts, e: Expr, at: Pos, mode: Mode, picks: Picks, x: string)
    requires e.Binop?
    ensures multiset(Handed(fx, e, at, mode, picks))[x] <= multiset(Uses(fx, e, mode))[x]
    decreases e, 0
  {
    hide Handed, Uses;
    HandedSteps(fx, e, at, mode, picks);
    HandedAtMost(fx, e.left, at + [0], mode, picks, x);
    HandedAtMost(fx, e.right, at + [1], mode, picks, x);
  }

  lemma {:induction false} HandedAtMostApp(fx: Facts, e: Expr, at: Pos, mode: Mode, picks: Picks, x: string)
    requires e.App?
    ensures multiset(Handed(fx, e, at, mode, picks))[x] <= multiset(Uses(fx, e, mode))[x]
    decreases e, 0
  {
    hide Handed, Uses, HandedAll, UsesAll, ArgModes;
    HandedSteps(fx, e, at, mode, picks);
    HandedAtMost(fx, e.head, at + [0], Lend, picks, x);
    HandedAtMostAll(fx, e, e.args, ArgModes(fx, e.head, |e.args|), at, 1, picks, x);
  }

  lemma {:induction false} HandedAtMostAll(fx: Facts, parent: Expr, es: seq<Expr>, modes: seq<Mode>, at: Pos, k: nat,
                                           picks: Picks, x: string)
    requires |modes| == |es| && forall i :: 0 <= i < |es| ==> es[i] < parent
    ensures multiset(HandedAll(fx, parent, es, modes, at, k, picks))[x] <= multiset(UsesAll(fx, parent, es, modes))[x]
    decreases parent, 0, |es|
  {
    hide Handed, Uses;
    if es != [] {
      HandedAtMost(fx, es[0], at + [k], modes[0], picks, x);
      HandedAtMostAll(fx, parent, es[1..], modes[1..], at, k + 1, picks, x);
    }
  }

  /** Outside short-circuit operands every use happens on every path. */
  lemma {:induction false} UnguardedHanded(fx: Facts, e: Expr, at: Pos, mode: Mode, picks: Picks, x: string)
    requires !Guarded(fx, e, mode, x)
    ensures multiset(Handed(fx, e, at, mode, picks))[x] == multiset(Uses(fx, e, mode))[x]
    decreases e, 1
  {
    hide HandedAll, UsesAll, GuardedAll, AllIn, ArgModes;
    match e
    case Borrow(y) => UnguardedHanded(fx, y, at + [0], Lend, picks, x);
    case Neg(y) => UnguardedHanded(fx, y, at + [0], mode, picks, x);
    case Arena(_, y) => UnguardedHanded(fx, y, at + [0], mode, picks, x);
    case Not(y) => UnguardedHanded(fx, y, at + [0], mode, picks, x);
    case Binop(_, _, _) => UnguardedHandedTwo(fx, e, at, mode, picks, x);
    case Tuple(xs) => UnguardedHandedAll(fx, e, xs, AllIn(mode, |xs|), at, 0, picks, x);
    case List(xs) => UnguardedHandedAll(fx, e, xs, AllIn(mode, |xs|), at, 0, picks, x);
    case App(_, _) => UnguardedHandedApp(fx, e, at, mode, picks, x);
    case _ =>
  }

  /** Where an operator or an application is not guarded, neither are its parts. */
  lemma UnguardedParts(fx: Facts, e: Expr, mode: Mode, x: string)
    requires !Guarded(fx, e, mode, x)
    ensures e.Binop? ==> !Guarded(fx, e.left, mode, x) && !Guarded(fx, e.right, mode, x)
    ensures e.Binop? && ShortCircuit(e.op) ==> multiset(Uses(fx, e.right, mode))[x] == 0
    ensures e.App? ==> !Guarded(fx, e.head, Lend, x) && !GuardedAll(fx, e, e.args, ArgModes(fx, e.head, |e.args|), x)
  {
    hide GuardedAll, ArgModes, Uses;
  }

  lemma {:induction false} UnguardedHandedTwo(fx: Facts, e: Expr, at: Pos, mode: Mode, picks: Picks, x: string)
    requires e.Binop? && !Guarded(fx, e, mode, x)
    ensures multiset(Handed(fx, e, at, mode, picks))[x] == multiset(Uses(fx, e, mode))[x]
    decreases e, 0
  {
    hide Handed, Uses, Guarded;
    HandedSteps(fx, e, at, mode, picks);
    UnguardedParts(fx, e, mode, x);
    UnguardedHanded(fx, e.left, at + [0], mode, picks, x);
    UnguardedHanded(fx, e.right, at + [1], mode, picks, x);
  }

  lemma {:induction false} UnguardedHandedApp(fx: Facts, e: Expr, at: Pos, mode: Mode, picks: Picks, x: string)
    requires e.App? && !Guarded(fx, e, mode, x)
    ensures multiset(Handed(fx, e, at, mode, picks))[x] == multiset(Uses(fx, e, mode))[x]
    decreases e, 0
  {
    hide Handed, Uses, Guarded, HandedAll, UsesAll, GuardedAll, ArgModes;
    HandedSteps(fx, e, at, mode, picks);
    UnguardedParts(fx, e, mode, x);
    UnguardedHanded(fx, e.head, at + [0], Lend, picks, x);
    UnguardedHandedAll(fx, e, e.args, ArgModes(fx, e.head, |e.args|), at, 1, picks, x);
  }

  lemma {:induction false} UnguardedHandedAll(fx: Facts, parent: Expr, es: seq<Expr>, modes: seq<Mode>, at: Pos, k: nat,
                                              picks: Picks, x: string)
    requires |modes| == |es| && forall i :: 0 <= i < |es| ==> es[i] < parent
    requires !GuardedAll(fx, parent, es, modes, x)
    ensures multiset(HandedAll(fx, parent, es, modes, at, k, picks))[x] == multiset(UsesAll(fx, parent, es, modes))[x]
    decreases parent, 0, |es|
  {
    hide Handed, Uses, Guarded;
    if es != [] {
      UnguardedHanded(fx, es[0], at + [k], modes[0], picks, x);
      UnguardedHandedAll(fx, parent, es[1..], modes[1..], at, k + 1, picks, x);
    }
  }

  lemma {:induction false} GuardedUses(fx: Facts, e: Expr, mode: Mode, x: string)
    requires Guarded(fx, e, mode, x)
    ensures multiset(Uses(fx, e, mode))[x] >= 1
    decreases e
  {
    match e
    case Borrow(y) => GuardedUses(fx, y, Lend, x);
    case Neg(y) => GuardedUses(fx, y, mode, x);
    case Arena(_, y) => GuardedUses(fx, y, mode, x);
    case Not(y) => GuardedUses(fx, y, mode, x);
    case Binop(_, a, b) =>
      if Guarded(fx, a, mode, x) { GuardedUses(fx, a, mode, x); }
      else if Guarded(fx, b, mode, x) { GuardedUses(fx, b, mode, x); }
    case Tuple(xs) => GuardedUsesAll(fx, e, xs, AllIn(mode, |xs|), x);
    case List(xs) => GuardedUsesAll(fx, e, xs, AllIn(mode, |xs|), x);
    case App(h, args) =>
      if Guarded(fx, h, Lend, x) { GuardedUses(fx, h, Lend, x); }
      else { GuardedUsesAll(fx, e, args, ArgModes(fx, h, |args|), x); }
  }

  lemma {:induction false} GuardedUsesAll(fx: Facts, parent: Expr, es: seq<Expr>, modes: seq<Mode>, x: string)
    requires |modes| == |es| && forall i :: 0 <= i < |es| ==> es[i] < parent
    requires GuardedAll(fx, parent, es, modes, x)
    ensures multiset(UsesAll(fx, parent, es, modes))[x] >= 1
    decreases parent, |es|
  {
    if Guarded(fx, es[0], modes[0], x) {
      GuardedUses(fx, es[0], modes[0], x);
    } else {
      GuardedUsesAll(fx, parent, es[1..], modes[1..], x);
    }
  }

  /** Beneath `at` no short-circuit operator evaluates its right operand. */
  ghost predicate CutsAll(picks: Picks, at: Pos) {
    forall q :: at <= q ==> picks(q) == 0
  }

  lemma CutsChild(picks: Picks, at: Pos, k: nat)
    requires CutsAll(picks, at)
    ensures CutsAll(picks, at + [k])
  {
    forall q | at + [k] <= q ensures picks(q) == 0 { assert at <= at + [k] <= q; }
  }

  /** A use under a short-circuit operator need not happen. */
  lemma {:induction false} GuardedCut(fx: Facts, e: Expr, at: Pos, mode: Mode, picks: Picks, x: string)
    requires Guarded(fx, e, mode, x) && multiset(Uses(fx, e, mode))[x] <= 1 && CutsAll(picks, at)
    ensures multiset(Handed(fx, e, at, mode, picks))[x] == 0
    decreases e, 2, 0
  {
    hide CutsAll, GuardedAll, UsesAll, HandedAll;
    CutsChild(picks, at, 0);
    match e
    case Borrow(y) => GuardedCut(fx, y, at + [0], Lend, picks, x);
    case Neg(y) => GuardedCut(fx, y, at + [0], mode, picks, x);
    case Arena(_, y) => GuardedCut(fx, y, at + [0], mode, picks, x);
    case Not(y) => GuardedCut(fx, y, at + [0], mode, picks, x);
    case Binop(_, _, _) => GuardedCutTwo(fx, e, at, mode, picks, x);
    case Tuple(xs) => GuardedCutAll(fx, e, xs, AllIn(mode, |xs|), at, 0, picks, x);
    case List(xs) => GuardedCutAll(fx, e, xs, AllIn(mode, |xs|), at, 0, picks, x);
    case App(_, _) => GuardedCutApp(fx, e, at, mode, picks, x);
  }

  lemma {:induction false} GuardedCutTwo(fx: Facts, e: Expr, at: Pos, mode: Mode, picks: Picks, x: string)
    requires e.Binop? && Guarded(fx, e, mode, x) && multiset(Uses(fx, e, mode))[x] <= 1 && CutsAll(picks, at)
    ensures multiset(Handed(fx, e, at, mode, picks))[x] == 0
    decreases e, 1, 0
  {
    hide CutsAll;
    CutsChild(picks, at, 0);
    CutsChild(picks, at, 1);
    assert picks(at) == 0 by { CutsHere(picks, at); }
    HandedAtMost(fx, e.left, at + [0], mode, picks, x);
    HandedAtMost(fx, e.right, at + [1], mode, picks, x);
    if Guarded(fx, e.left, mode, x) {
      GuardedUses(fx, e.left, mode, x);
      GuardedCut(fx, e.left, at + [0], mode, picks, x);
    } else if Guarded(fx, e.right, mode, x) {
      GuardedUses(fx, e.right, mode, x);
      GuardedCut(fx, e.right, at + [1], mode, picks, x);
    }
  }

  lemma {:induction false} GuardedCutApp(fx: Facts, e: Expr, at: Pos, mode: Mode, picks: Picks, x: string)
    requires e.App? && Guarded(fx, e, mode, x) && multiset(Uses(fx, e, mode))[x] <= 1 && CutsAll(picks, at)
    ensures multiset(Handed(fx, e, at, mode, picks))[x] == 0
    decreases e, 1, 0
  {
    hide CutsAll, GuardedAll, UsesAll, HandedAll;
    var modes := ArgModes(fx, e.head, |e.args|);
    CutsChild(picks, at, 0);
    HandedAtMost(fx, e.head, at + [0], Lend, picks, x);
    HandedAtMostAll(fx, e, e.args, modes, at, 1, picks, x);
    if Guarded(fx, e.head, Lend, x) {
      GuardedUses(fx, e.head, Lend, x);
      GuardedCut(fx, e.head, at + [0], Lend, picks, x);
    } else {
      GuardedUsesAll(fx, e, e.args, modes, x);
      GuardedCutAll(fx, e, e.args, modes, at, 1, picks, x);
    }
  }

  lemma CutsHere(picks: Picks, at: Pos)
    requires CutsAll(picks, at)
    ensures picks(at) == 0
  {}

  lemma {:induction false} GuardedCutAll(fx: Facts, parent: Expr, es: seq<Expr>, modes: seq<Mode>, at: Pos, k: nat,
                                         picks: Picks, x: string)
    requires |modes| == |es| && forall i :: 0 <= i < |es| ==> es[i] < parent
    requires GuardedAll(fx, parent, es, modes, x) && multiset(UsesAll(fx, parent, es, modes))[x] <= 1
    requires CutsAll(picks, at)
    ensures multiset(HandedAll(fx, parent, es, modes, at, k, picks))[x] == 0
    decreases parent, 0, |es|
  {
    hide CutsAll;
    CutsChild(picks, at, k);
    HandedAtMost(fx, es[0], at + [k], modes[0], picks, x);
    HandedAtMostAll(fx, parent, es[1..], modes[1..], at, k + 1, picks, x);
    if Guarded(fx, es[0], modes[0], x) {
      GuardedUses(fx, es[0], modes[0], x);
      GuardedCut(fx, es[0], at + [k], modes[0], picks, x);
    } else {
      GuardedUsesAll(fx, parent, es[1..], modes[1..], x);
      GuardedCutAll(fx, parent, es[1..], modes[1..], at, k + 1, picks, x);
    }
  }

  // ------------------------------------------------------- what the walk moves

  function Has(moved: Moves, x: string): nat { if x in moved then 1 else 0 }

  /** `x`, when owned, is used once between the two states if it was moved
      between them, and not at all otherwise. */
  ghost predicate Tally(owned: seq<string>, uses: seq<string>, moved: Moves, moved': Moves, x: string) {
    if x in owned then multiset(uses)[x] + Has(moved, x) == Has(moved', x) else Has(moved', x) == Has(moved, x)
  }

  lemma TallyChain(owned: seq<string>, a: seq<string>, b: seq<string>, m: Moves, m': Moves, m'': Moves, x: string)
    requires Tally(owned, a, m, m', x) && Tally(owned, b, m', m'', x)
    ensures Tally(owned, a + b, m, m'', x)
  {}

  lemma VarTally(n: string, at: Pos, mode: Mode, owned: seq<string>, moved: Moves, x: string)
    requires UseVar(n, at, mode, owned, moved).errors == []
    ensures Tally(owned, if mode == Own then [n] else [], moved, UseVar(n, at, mode, owned, moved).moved, x)
  {}

  lemma NoTally(owned: seq<string>, moved: Moves, x: string)
    ensures Tally(owned, [], moved, moved, x)
  {}

  /** An error-free walk of a plain expression moves each owned name it uses,
      once, and no name already moved. */
  lemma {:induction false} PlainUses(fx: Facts, e: Expr, at: Pos, mode: Mode, owned: seq<string>, moved: Moves,
                                     shared: set<string>, x: string)
    requires Plain(e) && Walk(fx, e, at, mode, owned, moved, shared).errors == []
    ensures Tally(owned, Uses(fx, e, mode), moved, Walk(fx, e, at, mode, owned, moved, shared).moved, x)
    decreases e, 2, 0
  {
    hide Tally, BackSites;
    match e
    case Var(n) => VarTally(n, at, mode, owned, moved, x);
    case Borrow(y) => PlainUses(fx, y, at + [0], Lend, owned, moved, shared, x);
    case Neg(y) => PlainUses(fx, y, at + [0], mode, owned, moved, shared, x);
    case Arena(_, y) => PlainUses(fx, y, at + [0], mode, owned, moved, shared, x);
    case Not(y) => PlainUses(fx, y, at + [0], mode, owned, moved, shared, x);
    case Binop(_, _, _) => PlainUsesTwo(fx, e, at, mode, owned, moved, shared, x);
    case Tuple(xs) => PlainUsesAll(fx, e, xs, AllIn(mode, |xs|), at, 0, owned, moved, shared, x);
    case List(xs) => PlainUsesAll(fx, e, xs, AllIn(mode, |xs|), at, 0, owned, moved, shared, x);
    case App(_, _) => PlainUsesApp(fx, e, at, mode, owned, moved, shared, x);
    case _ => NoTally(owned, moved, x);
  }

  lemma {:induction false} PlainUsesTwo(fx: Facts, e: Expr, at: Pos, mode: Mode, owned: seq<string>, moved: Moves,
                                        shared: set<string>, x: string)
    requires e.Binop? && Plain(e) && Walk(fx, e, at, mode, owned, moved, shared).errors == []
    ensures Tally(owned, Uses(fx, e, mode), moved, Walk(fx, e, at, mode, owned, moved, shared).moved, x)
    decreases e, 1, 0
  {
    hide Tally;
    var o := Walk(fx, e.left, at + [0], mode, owned, moved, shared);
    var r := Walk(fx, e.right, at + [1], mode, owned, o.moved, shared);
    PlainUses(fx, e.left, at + [0], mode, owned, moved, shared, x);
    PlainUses(fx, e.right, at + [1], mode, owned, o.moved, shared, x);
    TallyChain(owned, Uses(fx, e.left, mode), Uses(fx, e.right, mode), moved, o.moved, r.moved, x);
  }

  lemma {:induction false} PlainUsesApp(fx: Facts, e: Expr, at: Pos, mode: Mode, owned: seq<string>, moved: Moves,
                                        shared: set<string>, x: string)
    requires e.App? && Plain(e) && Walk(fx, e, at, mode, owned, moved, shared).errors == []
    ensures Tally(owned, Uses(fx, e, mode), moved, Walk(fx, e, at, mode, owned, moved, shared).moved, x)
    decreases e, 1, 0
  {
    hide Tally, BackSites, WalkAll, UsesAll;
    var modes := ArgModes(fx, e.head, |e.args|);
    var o := Walk(fx, e.head, at + [0], Lend, owned, moved, shared);
    var r := WalkAll(fx, e, e.args, modes, at, 1, owned, o.moved, shared);
    PlainUses(fx, e.head, at + [0], Lend, owned, moved, shared, x);
    PlainUsesAll(fx, e, e.args, modes, at, 1, owned, o.moved, shared, x);
    TallyChain(owned, Uses(fx, e.head, Lend), UsesAll(fx, e, e.args, modes), moved, o.moved, r.moved, x);
  }

  lemma {:induction false} PlainUsesAll(fx: Facts, parent: Expr, es: seq<Expr>, modes: seq<Mode>, at: Pos, k: nat,
                                        owned: seq<string>, moved: Moves, shared: set<string>, x: string)
    requires |modes| == |es| && forall i :: 0 <= i < |es| ==> es[i] < parent && Plain(es[i])
    requires WalkAll(fx, parent, es, modes, at, k, owned, moved, shared).errors == []
    ensures Tally(owned, UsesAll(fx, parent, es, modes), moved,
                  WalkAll(fx, parent, es, modes, at, k, owned, moved, shared).moved, x)
    decreases parent, 0, |es|
  {
    hide Tally, Walk, Uses;
    if es != [] {
      var o := Walk(fx, es[0], at + [k], modes[0], owned, moved, shared);
      var r := WalkAll(fx, parent, es[1..], modes[1..], at, k + 1, owned, o.moved, shared);
      PlainUses(fx, es[0], at + [k], modes[0], owned, moved, shared, x);
      PlainUsesAll(fx, parent, es[1..], modes[1..], at, k + 1, owned, o.moved, shared, x);
      TallyChain(owned, Uses(fx, es[0], modes[0]), UsesAll(fx, parent, es[1..], modes[1..]), moved, o.moved, r.moved,
                 x);
    } else {
      NoTally(owned, moved, x);
    }
  }

  /** Only owned names are moved. */
  ghost predicate Within(moved: Moves, owned: seq<string>) {
    forall n :: n in moved ==> n in owned
  }

  ghost predicate Grows(moved: Moves, moved': Moves) {
    forall n :: n in moved ==> n in moved'
  }

  lemma {:induction false} PlainMoves(fx: Facts, e: Expr, at: Pos, mode: Mode, owned: seq<string>, moved: Moves,
                                      shared: set<string>)
    requires Plain(e) && Within(moved, owned)
    ensures var o := Walk(fx, e, at, mode, owned, moved, shared); Within(o.moved, owned) && Grows(moved, o.moved)
    decreases e
  {
    hide BackSites;
    match e
    case Borrow(y) => PlainMoves(fx, y, at + [0], Lend, owned, moved, shared);
    case Neg(y) => PlainMoves(fx, y, at + [0], mode, owned, moved, shared);
    case Arena(_, y) => PlainMoves(fx, y, at + [0], mode, owned, moved, shared);
    case Not(y) => PlainMoves(fx, y, at + [0], mode, owned, moved, shared);
    case Binop(_, a, b) =>
      PlainMoves(fx, a, at + [0], mode, owned, moved, shared);
      PlainMoves(fx, b, at + [1], mode, owned, Walk(fx, a, at + [0], mode, owned, moved, shared).moved, shared);
    case Tuple(xs) => PlainMovesAll(fx, e, xs, AllIn(mode, |xs|), at, 0, owned, moved, shared);
    case List(xs) => PlainMovesAll(fx, e, xs, AllIn(mode, |xs|), at, 0, owned, moved, shared);
    case App(h, args) =>
      PlainMoves(fx, h, at + [0], Lend, owned, moved, shared);
      PlainMovesAll(fx, e, args, ArgModes(fx, h, |args|), at, 1, owned,
                    Walk(fx, h, at + [0], Lend, owned, moved, shared).moved, shared);
    case _ =>
  }

  lemma {:induction false} PlainMovesAll(fx: Facts, parent: Expr, es: seq<Expr>, modes: seq<Mode>, at: Pos, k: nat,
                                         owned: seq<string>, moved: Moves, shared: set<string>)
    requires |modes| == |es| && forall i :: 0 <= i < |es| ==> es[i] < parent && Plain(es[i])
    requires Within(moved, owned)
    ensures var o := WalkAll(fx, parent, es, modes, at, k, owned, moved, shared);
            Within(o.moved, owned) && Grows(moved, o.moved)
    decreases parent, |es|
  {
    if es != [] {
      PlainMoves(fx, es[0], at + [k], modes[0], owned, moved, shared);
      PlainMovesAll(fx, parent, es[1..], modes[1..], at, k + 1, owned,
                    Walk(fx, es[0], at + [k], modes[0], owned, moved, shared).moved, shared);
    }
  }

  lemma {:induction false} JoinedHas(acc: Moves, outs: seq<Out>, x: string)
    ensures x in Joined(acc, outs) <==> x in acc || exists i :: 0 <= i < |outs| && x in outs[i].moved
    decreases |outs|
  {
    if outs != [] {
      JoinedHas(outs[0].moved + acc, outs[1..], x);
      assert forall i :: 1 <= i < |outs| ==> outs[i] == outs[1..][i - 1];
    }
  }

  lemma {:induction false} AmongNone(names: seq<string>, moved: Moves)
    requires forall n :: n in names ==> n !in moved
    ensures Among(names, moved) == []
  {
    if names != [] { AmongNone(names[1..], moved); }
  }

  function PatNames(p: Pat): set<string> { set n | n in Names(p) }

  function ArmBody(fx: Facts, arm: Arm, at: Pos, owned: seq<string>, moved: Moves, shared: set<string>): Out {
    Walk(fx, arm.body, at, Own, owned, moved, shared + PatNames(arm.pat))
  }

  /** An arm that binds nothing affine is its body. */
  lemma ArmIs(fx: Facts, scrut: Expr, arm: Arm, at: Pos, owned: seq<string>, moved: Moves, shared: set<string>)
    requires ScalarPat(fx, arm.pat, at, owned) && Within(moved, owned)
    requires Within(ArmBody(fx, arm, at, owned, moved, shared).moved, owned)
    ensures WalkArm(fx, scrut, arm, at, Own, owned, moved, shared) == ArmBody(fx, arm, at, owned, moved, shared)
  {
    hide Walk, Names, Among, Scoped;
    var bound, names := Names(arm.pat), PatNames(arm.pat);
    var o := ArmBody(fx, arm, at, owned, moved, shared);
    ScopedPat(fx, arm.pat, at, owned);
    assert names == set n | n in bound;
    assert moved - names == moved;
    assert o.moved - names == o.moved;
    assert (map n | n in moved && n in names :: moved[n]) == map[];
    AmongNone(bound, o.moved);
    assert o.moved + map[] == o.moved;
  }

  lemma {:induction false} TailMoves(fx: Facts, e: Expr, at: Pos, owned: seq<string>, moved: Moves, shared: set<string>)
    requires TailForm(e) && NoShadow(fx, e, at, owned) && Within(moved, owned)
    ensures var o := Walk(fx, e, at, Own, owned, moved, shared); Within(o.moved, owned) && Grows(moved, o.moved)
    decreases e, 1
  {
    hide Plain, Scoped, SelfCall;
    if Binder(e) {
      var o := Walk(fx, e.value, at + [0], Own, owned, moved, shared);
      var inner, within := Scoped(fx, owned, [e.name], at + [1]), LetShared(fx, e, shared);
      PlainMoves(fx, e.value, at + [0], Own, owned, moved, shared);
      ScopedLet(fx, e.name, at + [1], owned);
      TailMoves(fx, e.body, at + [1], inner, o.moved, within);
    } else if e.Match? {
      MatchMoves(fx, e, at, owned, moved, shared);
    } else {
      PlainMoves(fx, e, at, Own, owned, moved, shared);
    }
  }

  function Arms(fx: Facts, e: Expr, at: Pos, owned: seq<string>, moved: Moves, shared: set<string>): seq<Out>
    requires e.Match?
  {
    WalkArms(fx, e, e.scrut, e.arms, at, 1, Own, owned, moved, shared)
  }

  lemma {:induction false} ArmMoves(fx: Facts, e: Expr, k: nat, at: Pos, owned: seq<string>, moved: Moves,
                                    shared: set<string>)
    requires e.Match? && TailForm(e) && NoShadow(fx, e, at, owned) && Within(moved, owned) && k < |e.arms|
    ensures var o := ArmBody(fx, e.arms[k], at + [k + 1], owned, moved, shared);
            Arms(fx, e, at, owned, moved, shared)[k] == o && Within(o.moved, owned) && Grows(moved, o.moved)
    decreases e, 0, 0
  {
    hide Plain, Scoped, Walk, WalkArms;
    var arm := e.arms[k];
    assert ScalarPat(fx, arm.pat, at + [k + 1], owned) && NoShadow(fx, arm.body, at + [k + 1], owned)
           && TailForm(arm.body);
    TailMoves(fx, arm.body, at + [k + 1], owned, moved, shared + PatNames(arm.pat));
    ArmIs(fx, e.scrut, arm, at + [k + 1], owned, moved, shared);
    assert at + [1 + k] == at + [k + 1];
  }

  lemma {:induction false} MatchMoves(fx: Facts, e: Expr, at: Pos, owned: seq<string>, moved: Moves,
                                      shared: set<string>)
    requires e.Match? && TailForm(e) && NoShadow(fx, e, at, owned) && Within(moved, owned)
    ensures var o := Walk(fx, e, at, Own, owned, moved, shared); Within(o.moved, owned) && Grows(moved, o.moved)
    decreases e, 0, 1
  {
    hide Plain, Scoped, TailForm, NoShadow, WalkArms, Joined;
    assert Plain(e.scrut) by { ScrutPlain(e); }
    PlainMoves(fx, e.scrut, at + [0], Lend, owned, moved, shared);
    var o := Walk(fx, e.scrut, at + [0], Lend, owned, moved, shared);
    var outs := Arms(fx, e, at, owned, o.moved, shared);
    forall k | 0 <= k < |e.arms| ensures Within(outs[k].moved, owned) && Grows(o.moved, outs[k].moved) {
      ArmMoves(fx, e, k, at, owned, o.moved, shared);
    }
    forall x ensures x in Joined(o.moved, outs) ==> x in owned
             ensures x in moved ==> x in Joined(o.moved, outs) {
      JoinedHas(o.moved, outs, x);
    }
  }

  lemma ScrutPlain(e: Expr)
    requires e.Match? && TailForm(e)
    ensures Plain(e.scrut) && e.arms != []
  {}

  // ---------------------------------------- the sites a position ends up with

  /** All sites a whole analysis placed at and beneath `at` are these. */
  ghost predicate Agrees(drops: seq<Site>, sites: seq<Site>, at: Pos) {
    forall s :: Inside(at, s) ==> multiset(drops)[s] == multiset(sites)[s]
  }

  lemma SameChild(at: Pos, j: nat, k: nat, s: Site)
    requires at + [j] <= s.at && at + [k] <= s.at
    ensures j == k
  {
    assert (at + [j])[|at|] == s.at[|at|] && (at + [k])[|at|] == s.at[|at|];
  }

  /** What is recorded under one child is not under another. */
  lemma NotUnder(at: Pos, j: nat, k: nat, sites: seq<Site>, s: Site)
    requires j != k && AllInside(at + [j], sites) && at + [k] <= s.at
    ensures multiset(sites)[s] == 0
  {
    if s in sites { SameChild(at, j, k, s); }
  }

  lemma NotAtRoot(at: Pos, sites: seq<Site>, s: Site)
    requires AllInside(at, sites) && s.at == at && s.when == ScopeEnd
    ensures multiset(sites)[s] == 0
  {
    assert s in sites ==> Inside(at, s);
  }

  lemma InsideChild(at: Pos, k: nat, s: Site)
    requires at + [k] <= s.at
    ensures Inside(at, s)
  {
    assert at <= at + [k];
  }

  lemma LetAgrees(fx: Facts, drops: seq<Site>, e: Expr, at: Pos, owned: seq<string>, moved: Moves, shared: set<string>)
    requires Binder(e) && Agrees(drops, Walk(fx, e, at, Own, owned, moved, shared).sites, at)
    ensures var o := Walk(fx, e.value, at + [0], Own, owned, moved, shared);
            var inner, within := Scoped(fx, owned, [e.name], at + [1]), LetShared(fx, e, shared);
            var b := Walk(fx, e.body, at + [1], Own, inner, o.moved, within);
            && Agrees(drops, b.sites, at + [1])
            && forall x :: multiset(drops)[Site(x, at + [1], ScopeEnd)]
                 == if x == e.name && x in inner && x !in b.moved && x !in fx.leaves && x !in within then 1 else 0
  {
    hide Scoped, LetShared, AllInside, Inside;
    var o := Walk(fx, e.value, at + [0], Own, owned, moved, shared);
    var inner, within := Scoped(fx, owned, [e.name], at + [1]), LetShared(fx, e, shared);
    var b := Walk(fx, e.body, at + [1], Own, inner, o.moved, within);
    var own := LetSites(fx, e.name, at + [1], inner, b.moved, within);
    var all := Walk(fx, e, at, Own, owned, moved, shared).sites;
    SitesInside(fx, e.value, at + [0], Own, owned, moved, shared);
    SitesInside(fx, e.body, at + [1], Own, inner, o.moved, within);
    assert all == o.sites + b.sites + own;
    forall s: Site | at + [1] <= s.at
      ensures multiset(drops)[s] == multiset(b.sites)[s] + multiset(own)[s]
    {
      InsideChild(at, 1, s);
      NotUnder(at, 0, 1, o.sites, s);
    }
    forall s | Inside(at + [1], s) ensures multiset(drops)[s] == multiset(b.sites)[s] {
      InsideUnder(at + [1], s);
    }
    forall x ensures multiset(b.sites)[Site(x, at + [1], ScopeEnd)] == 0 {
      NotAtRoot(at + [1], b.sites, Site(x, at + [1], ScopeEnd));
    }
  }

  lemma InsideUnder(at: Pos, s: Site)
    requires Inside(at, s)
    ensures at <= s.at && !(s.at == at && s.when == ScopeEnd)
  {}

  lemma {:induction false} AllSitesUnder(outs: seq<Out>, at: Pos, k: nat, i: nat, s: Site)
    requires forall j :: 0 <= j < |outs| ==> AllInside(at + [k + j], outs[j].sites)
    requires at + [i] <= s.at
    ensures multiset(AllSites(outs))[s] == if k <= i < k + |outs| then multiset(outs[i - k].sites)[s] else 0
    decreases |outs|
  {
    hide AllInside;
    if outs != [] {
      assert AllInside(at + [k + 0], outs[0].sites);
      forall j | 0 <= j < |outs| - 1 ensures AllInside(at + [k + 1 + j], outs[1..][j].sites) {
        assert AllInside(at + [k + (j + 1)], outs[j + 1].sites);
      }
      AllSitesUnder(outs[1..], at, k + 1, i, s);
      if i != k { NotUnder(at, k, i, outs[0].sites, s); }
    }
  }

  lemma {:induction false} KeptCount(fx: Facts, arms: seq<Arm>, outs: seq<Out>, at: Pos, k: nat, owned: seq<string>,
                                     after: Moves, shared: set<string>, i: nat, s: Site)
    requires |outs| == |arms| && at + [i] <= s.at
    ensures multiset(KeptSites(fx, arms, outs, at, k, owned, after, shared))[s]
         == if k <= i < k + |arms| && s.at == at + [i] && s.when == ScopeEnd
            then multiset(KeptNames(fx, arms[i - k], outs[i - k], at + [i], owned, after, shared))[s.name] else 0
    decreases |arms|
  {
    hide KeptNames, SitesFor;
    if arms != [] {
      var kept := KeptNames(fx, arms[0], outs[0], at + [k], owned, after, shared);
      SitesForCount(kept, at + [k], ScopeEnd, s);
      KeptCount(fx, arms[1..], outs[1..], at, k + 1, owned, after, shared, i, s);
      if at + [k] == s.at { SameChild(at, i, k, s); }
      if k < i < k + |arms| { assert arms[1..][i - (k + 1)] == arms[i - k] && outs[1..][i - (k + 1)] == outs[i - k]; }
    }
  }

  /** Of the sites of a match, those at and below an arm are the arm's own. */
  lemma ArmSites(fx: Facts, drops: seq<Site>, arms: seq<Arm>, scrut: seq<Site>, outs: seq<Out>, k: nat, at: Pos,
                 owned: seq<string>, after: Moves, shared: set<string>, s: Site)
    requires |outs| == |arms| && k < |arms| && at + [k + 1] <= s.at && AllInside(at + [0], scrut)
    requires forall j :: 0 <= j < |outs| ==> AllInside(at + [1 + j], outs[j].sites)
    requires Agrees(drops, scrut + AllSites(outs) + KeptSites(fx, arms, outs, at, 1, owned, after, shared), at)
    ensures multiset(drops)[s] == multiset(outs[k].sites)[s]
         + if s.at == at + [k + 1] && s.when == ScopeEnd
           then multiset(KeptNames(fx, arms[k], outs[k], at + [k + 1], owned, after, shared))[s.name] else 0
  {
    hide AllInside, Inside, AllSites, KeptSites, KeptNames;
    InsideChild(at, k + 1, s);
    NotUnder(at, 0, k + 1, scrut, s);
    AllSitesUnder(outs, at, 1, k + 1, s);
    KeptCount(fx, arms, outs, at, 1, owned, after, shared, k + 1, s);
  }

  lemma ArmAgrees(fx: Facts, drops: seq<Site>, e: Expr, k: nat, at: Pos, owned: seq<string>, moved: Moves,
                  shared: set<string>)
    requires e.Match? && TailForm(e) && NoShadow(fx, e, at, owned) && Within(moved, owned) && k < |e.arms|
    requires Agrees(drops, Walk(fx, e, at, Own, owned, moved, shared).sites, at)
    ensures var o := Walk(fx, e.scrut, at + [0], Lend, owned, moved, shared);
            var a := ArmBody(fx, e.arms[k], at + [k + 1], owned, o.moved, shared);
            var after := Walk(fx, e, at, Own, owned, moved, shared).moved;
            && Agrees(drops, a.sites, at + [k + 1])
            && forall x :: multiset(drops)[Site(x, at + [k + 1], ScopeEnd)]
                 == if x in a.moved || x in fx.leaves || x in shared || x !in after then 0 else multiset(owned)[x]
  {
    hide Scoped, AllInside, Inside, TailForm, NoShadow, Within, Joined, AllSites, KeptSites, WalkArms, Unclaimed, Among;
    var o := Walk(fx, e.scrut, at + [0], Lend, owned, moved, shared);
    var outs := Arms(fx, e, at, owned, o.moved, shared);
    var after := Joined(o.moved, outs);
    var kept := KeptSites(fx, e.arms, outs, at, 1, owned, after, shared);
    var all := Walk(fx, e, at, Own, owned, moved, shared);
    assert all.moved == after && all.sites == o.sites + AllSites(outs) + kept;
    ScrutPlain(e);
    PlainMoves(fx, e.scrut, at + [0], Lend, owned, moved, shared);
    ArmMoves(fx, e, k, at, owned, o.moved, shared);
    SitesInside(fx, e.scrut, at + [0], Lend, owned, moved, shared);
    forall j | 0 <= j < |outs| ensures AllInside(at + [1 + j], outs[j].sites) {
      ArmInside(fx, e.scrut, e.arms[j], at + [1 + j], Own, owned, o.moved, shared);
    }
    var here := at + [k + 1];
    assert AllInside(here, outs[k].sites) by { assert at + [1 + k] == here; }
    forall s: Site | here <= s.at
      ensures multiset(drops)[s] == multiset(outs[k].sites)[s]
           + if s.at == here && s.when == ScopeEnd
             then multiset(KeptNames(fx, e.arms[k], outs[k], here, owned, after, shared))[s.name] else 0
    {
      ArmSites(fx, drops, e.arms, o.sites, outs, k, at, owned, after, shared, s);
    }
    forall s | Inside(here, s) ensures multiset(drops)[s] == multiset(outs[k].sites)[s] {
      InsideUnder(here, s);
    }
    ScalarArm(fx, e, k, at, owned);
    forall x
      ensures multiset(drops)[Site(x, here, ScopeEnd)]
           == if x in outs[k].moved || x in fx.leaves || x in shared || x !in after then 0 else multiset(owned)[x]
    {
      NotAtRoot(here, outs[k].sites, Site(x, here, ScopeEnd));
      ScopedPat(fx, e.arms[k].pat, here, owned);
      UnclaimedCount(fx, owned, outs[k].moved, shared, x);
      AmongCount(Unclaimed(fx, owned, outs[k].moved, shared), after, x);
    }
  }

  lemma ScalarArm(fx: Facts, e: Expr, k: nat, at: Pos, owned: seq<string>)
    requires e.Match? && NoShadow(fx, e, at, owned) && k < |e.arms|
    ensures ScalarPat(fx, e.arms[k].pat, at + [k + 1], owned) && NoShadow(fx, e.arms[k].body, at + [k + 1], owned)
  {}

  // ----------------------------------------------------- accounting on a path

  /** How often the path disposes of `x`. */
  function Disposed(events: seq<Event>, x: string): nat {
    multiset(events)[Event.Moved(x)] + multiset(events)[Freed(x)]
  }

  function Births(events: seq<Event>, x: string): nat { multiset(events)[Born(x)] }

  ghost predicate Single(names: seq<string>) {
    forall x :: multiset(names)[x] <= 1
  }

  /** The accounts of `x` over one pass through an expression in tail position:
      `gone` when it was moved before, `claimed` when it is owed by an enclosing
      scope or moved on some path through here. */
  ghost predicate Settled(log: Log, x: string, owns: bool, gone: bool, claimed: bool) {
    log.exit == Failed
    || if owns then
         && Births(log.events, x) == 0
         && Disposed(log.events, x) == (if !gone && (log.exit == Looped || claimed) then 1 else 0)
       else
         Disposed(log.events, x) == Births(log.events, x) <= 1
  }

  ghost predicate Tracked(fx: Facts, e: Expr, shared: set<string>, x: string) {
    x !in fx.leaves && !SharedIn(fx, e, shared, x)
  }

  /** A piece of an error-free body, met by code emission. */
  ghost predicate Ready(fx: Facts, drops: seq<Site>, e: Expr, at: Pos, owned: seq<string>, moved: Moves,
                        shared: set<string>, scope: set<string>) {
    && TailForm(e) && NoShadow(fx, e, at, owned)
    && Single(owned) && (forall n :: n in owned ==> n in scope) && Within(moved, owned)
    && Walk(fx, e, at, Own, owned, moved, shared).errors == []
    && Agrees(drops, Walk(fx, e, at, Own, owned, moved, shared).sites, at)
  }

  /** What the enclosing scopes owe is owned still, and moved nowhere in here. */
  ghost predicate Owed(pending: seq<string>, owned: seq<string>, after: Moves, x: string) {
    multiset(pending)[x] <= 1 && (x in pending ==> x in owned && x !in after)
  }

  lemma EvalTrace(fx: Facts, e: Expr, at: Pos, mode: Mode, next: Code, owned: seq<string>, picks: Picks, ev: Event)
    requires !ev.Lent?
    ensures var log, rest := Trace(fx, Then(Eval(e, at, mode), next), owned, picks), Trace(fx, next, owned, picks);
            && log.exit == rest.exit
            && multiset(log.events)[ev] == multiset(rest.events)[ev]
                 + if ev.Moved? && ev.name in owned then multiset(Handed(fx, e, at, mode, picks))[ev.name] else 0
  {
    hide Handed, Touched, Seen;
    TouchedMoves(fx, e, at, mode, picks, ev);
    SeenCount(Touched(fx, e, at, mode, picks), owned, ev);
  }

  /** What evaluating `e` first adds to the accounts of `x`. */
  lemma EvalAdds(fx: Facts, e: Expr, at: Pos, mode: Mode, next: Code, owned: seq<string>, moved: Moves,
                 shared: set<string>, picks: Picks, x: string)
    requires Plain(e) && Walk(fx, e, at, mode, owned, moved, shared).errors == []
    requires x in owned ==> !Guarded(fx, e, mode, x)
    ensures var log, rest := Trace(fx, Then(Eval(e, at, mode), next), owned, picks), Trace(fx, next, owned, picks);
            var o := Walk(fx, e, at, mode, owned, moved, shared);
            && log.exit == rest.exit
            && Births(log.events, x) == Births(rest.events, x)
            && Has(moved, x) <= Has(o.moved, x)
            && Disposed(log.events, x)
               == Disposed(rest.events, x) + if x in owned then Has(o.moved, x) - Has(moved, x) else 0
  {
    hide Walk, Trace, Handed, Uses, Guarded, Plain;
    EvalTrace(fx, e, at, mode, next, owned, picks, Born(x));
    EvalTrace(fx, e, at, mode, next, owned, picks, Event.Moved(x));
    EvalTrace(fx, e, at, mode, next, owned, picks, Freed(x));
    PlainUses(fx, e, at, mode, owned, moved, shared, x);
    if x in owned { UnguardedHanded(fx, e, at, mode, picks, x); }
  }

  lemma FreesAdd(fx: Facts, names: seq<string>, next: Code, owned: seq<string>, picks: Picks, x: string)
    ensures var log, rest := Trace(fx, FreeAll(names, next), owned, picks), Trace(fx, next, owned, picks);
            && log.exit == rest.exit
            && Births(log.events, x) == Births(rest.events, x)
            && Disposed(log.events, x) == Disposed(rest.events, x) + multiset(names)[x]
  {
    hide Trace, FreeAll;
    FreeAllTrace(fx, names, next, owned, picks, Born(x));
    FreeAllTrace(fx, names, next, owned, picks, Event.Moved(x));
    FreeAllTrace(fx, names, next, owned, picks, Freed(x));
  }

  /** A back edge frees every name still here that this frame may free. */
  lemma BackCount(fx: Facts, drops: seq<Site>, e: Expr, at: Pos, owned: seq<string>, moved: Moves, shared: set<string>,
                  scope: set<string>, x: string)
    requires TailCall(fx, e, scope) && forall n :: n in owned ==> n in scope
    requires Agrees(drops, Walk(fx, e, at, Own, owned, moved, shared).sites, at)
    ensures var after := Walk(fx, e, at, Own, owned, moved, shared).moved;
            multiset(NamesAt(drops, at, BackEdge, scope))[x]
              == if x in after || x in fx.leaves || x in shared then 0 else multiset(owned)[x]
  {
    hide AllInside, AllBeneath, Unclaimed, WalkAll, NamesAt;
    var o := Walk(fx, e.head, at + [0], Lend, owned, moved, shared);
    var modes := ArgModes(fx, e.head, |e.args|);
    var r := WalkAll(fx, e, e.args, modes, at, 1, owned, o.moved, shared);
    var back := SitesFor(Unclaimed(fx, owned, r.moved, shared), at, BackEdge);
    var s := Site(x, at, BackEdge);
    assert Walk(fx, e, at, Own, owned, moved, shared) == Out(r.moved, o.sites + r.sites + back, o.errors + r.errors);
    ChildSites(fx, e.head, at, 0, Lend, owned, moved, shared);
    SitesBeneathAll(fx, e, e.args, modes, at, 1, owned, o.moved, shared);
    NotBeneath(at, o.sites, s);
    NotBeneath(at, r.sites, s);
    SitesForCount(Unclaimed(fx, owned, r.moved, shared), at, BackEdge, s);
    UnclaimedCount(fx, owned, r.moved, shared, x);
    NamesAtCount(drops, at, BackEdge, scope, x);
    assert Inside(at, s);
  }

  lemma NotBeneath(at: Pos, sites: seq<Site>, s: Site)
    requires AllBeneath(at, sites) && s.at == at
    ensures multiset(sites)[s] == 0
  {
    assert s in sites ==> Beneath(at, s);
  }

  lemma LeafSettled(fx: Facts, drops: seq<Site>, e: Expr, at: Pos, owned: seq<string>, moved: Moves,
                    shared: set<string>, pending: seq<string>, scope: set<string>, picks: Picks, x: string)
    requires !Binder(e) && !e.Match? && Due(fx, drops, e, at, owned, moved, shared, pending, scope, x)
    requires !GuardedTail(fx, e, at, owned, x)
    ensures var after := Walk(fx, e, at, Own, owned, moved, shared).moved;
            Settled(Trace(fx, Emit(fx, drops, e, at, pending, scope), owned, picks), x, x in owned, x in moved,
                    x in pending || x in after)
  {
    hide Walk, Trace, Handed, Uses, Guarded, Plain, FreeAll, Agrees, NamesAt, Without, Reverse;
    var after := Walk(fx, e, at, Own, owned, moved, shared).moved;
    assert multiset(owned)[x] <= 1;
    assert Plain(e);
    assert x !in shared;
    if TailCall(fx, e, scope) {
      var back := NamesAt(drops, at, BackEdge, scope);
      var rest := Without(Reverse(pending), back);
      EvalAdds(fx, e, at, Own, FreeAll(back, FreeAll(rest, Again)), owned, moved, shared, picks, x);
      FreesAdd(fx, back, FreeAll(rest, Again), owned, picks, x);
      FreesAdd(fx, rest, Again, owned, picks, x);
      BackCount(fx, drops, e, at, owned, moved, shared, scope, x);
      WithoutCount(Reverse(pending), back, x);
      EndTrace(fx, owned, picks, x);
    } else {
      EvalAdds(fx, e, at, Own, FreeAll(Reverse(pending), Return), owned, moved, shared, picks, x);
      FreesAdd(fx, Reverse(pending), Return, owned, picks, x);
      EndTrace(fx, owned, picks, x);
    }
  }

  lemma EndTrace(fx: Facts, owned: seq<string>, picks: Picks, x: string)
    ensures Trace(fx, Return, owned, picks) == Log([], Returned) && Trace(fx, Again, owned, picks) == Log([], Looped)
    ensures Births([], x) == 0 && Disposed([], x) == 0
  {}

  lemma IntroTrace(fx: Facts, n: string, at: Pos, next: Code, owned: seq<string>, picks: Picks, x: string)
    ensures var log := Trace(fx, Then(Intro(n, at), next), owned, picks);
            var rest := Trace(fx, next, Scoped(fx, owned, [n], at), picks);
            && log.exit == rest.exit
            && Births(log.events, x) == Births(rest.events, x) + (if x == n && (at, n) in fx.affine then 1 else 0)
            && Disposed(log.events, x) == Disposed(rest.events, x)
  {
    hide Scoped;
  }

  /** A piece of an error-free body met by code emission, and what it is owed. */
  ghost predicate Due(fx: Facts, drops: seq<Site>, e: Expr, at: Pos, owned: seq<string>, moved: Moves,
                      shared: set<string>, pending: seq<string>, scope: set<string>, x: string) {
    && Ready(fx, drops, e, at, owned, moved, shared, scope)
    && Tracked(fx, e, shared, x)
    && Owed(pending, owned, Walk(fx, e, at, Own, owned, moved, shared).moved, x)
  }

  lemma LetDue(fx: Facts, drops: seq<Site>, e: Expr, at: Pos, owned: seq<string>, moved: Moves, shared: set<string>,
               pending: seq<string>, scope: set<string>, x: string)
    requires Binder(e) && Due(fx, drops, e, at, owned, moved, shared, pending, scope, x)
    ensures var scope' := scope + {e.name};
            var due := NamesAt(drops, at + [1], ScopeEnd, scope' * {e.name});
            Due(fx, drops, e.body, at + [1], Scoped(fx, owned, [e.name], at + [1]),
                Walk(fx, e.value, at + [0], Own, owned, moved, shared).moved, LetShared(fx, e, shared), pending
                  + due, scope', x)
  {
    hide Ready, Walk, Agrees, Scoped, LetShared, NamesAt;
    var scope' := scope + {e.name};
    var due := NamesAt(drops, at + [1], ScopeEnd, scope' * {e.name});
    LetReady(fx, drops, e, at, owned, moved, shared, scope);
    ReadyAgrees(fx, drops, e, at, owned, moved, shared, scope);
    LetAgrees(fx, drops, e, at, owned, moved, shared);
    ScopedLet(fx, e.name, at + [1], owned);
    NamesAtCount(drops, at + [1], ScopeEnd, scope' * {e.name}, x);
    assert multiset(pending + due)[x] == multiset(pending)[x] + multiset(due)[x];
    TrackedLet(fx, e, shared, x);
  }

  lemma ArmDue(fx: Facts, drops: seq<Site>, e: Expr, k: nat, at: Pos, owned: seq<string>, moved: Moves,
               shared: set<string>, pending: seq<string>, scope: set<string>, x: string)
    requires e.Match? && Due(fx, drops, e, at, owned, moved, shared, pending, scope, x) && k < |e.arms|
    ensures var names := PatNames(e.arms[k].pat);
            var due := NamesAt(drops, at + [k + 1], ScopeEnd, scope + names);
            Due(fx, drops, e.arms[k].body, at + [k + 1], owned,
                Walk(fx, e.scrut, at + [0], Lend, owned, moved, shared).moved,
                shared + names, pending + due, scope + names, x)
  {
    hide Ready, Walk, Agrees, Tracked, NamesAt, PatNames;
    var names := PatNames(e.arms[k].pat);
    var due := NamesAt(drops, at + [k + 1], ScopeEnd, scope + names);
    MatchReady(fx, drops, e, k, at, owned, moved, shared, scope);
    ReadyAgrees(fx, drops, e, at, owned, moved, shared, scope);
    ArmAgrees(fx, drops, e, k, at, owned, moved, shared);
    InScope(fx, drops, e, at, owned, moved, shared, scope, x);
    NamesAtCount(drops, at + [k + 1], ScopeEnd, scope + names, x);
    assert multiset(pending + due)[x] == multiset(pending)[x] + multiset(due)[x];
    TrackedArm(fx, e, k, shared, x);
  }

  /** Over every path, each owned value is disposed of exactly once; only one
      handed on under a short-circuit operator is left out. */
  lemma {:induction false} Balance(fx: Facts, drops: seq<Site>, e: Expr, at: Pos, owned: seq<string>, moved: Moves,
                                   shared: set<string>, pending: seq<string>, scope: set<string>, picks: Picks,
                                   x: string)
    requires Due(fx, drops, e, at, owned, moved, shared, pending, scope, x) && !GuardedTail(fx, e, at, owned, x)
    ensures var after := Walk(fx, e, at, Own, owned, moved, shared).moved;
            Settled(Trace(fx, Emit(fx, drops, e, at, pending, scope), owned, picks), x, x in owned, x in moved,
                    x in pending || x in after)
    decreases e, 1
  {
    hide Due, GuardedTail, Settled, Walk, Trace, Emit;
    if Binder(e) {
      LetBalance(fx, drops, e, at, owned, moved, shared, pending, scope, picks, x);
    } else if e.Match? {
      MatchBalance(fx, drops, e, at, owned, moved, shared, pending, scope, picks, x);
    } else {
      LeafSettled(fx, drops, e, at, owned, moved, shared, pending, scope, picks, x);
    }
  }

  lemma LetReady(fx: Facts, drops: seq<Site>, e: Expr, at: Pos, owned: seq<string>, moved: Moves, shared: set<string>,
                 scope: set<string>)
    requires Binder(e) && Ready(fx, drops, e, at, owned, moved, shared, scope)
    ensures var o := Walk(fx, e.value, at + [0], Own, owned, moved, shared);
            var inner, within := Scoped(fx, owned, [e.name], at + [1]), LetShared(fx, e, shared);
            && o.errors == [] && Plain(e.value) && Within(o.moved, owned) && e.name !in owned
            && Ready(fx, drops, e.body, at + [1], inner, o.moved, within, scope + {e.name})
            && Walk(fx, e, at, Own, owned, moved, shared).moved
                 == Walk(fx, e.body, at + [1], Own, inner, o.moved, within).moved - {e.name}
            && Grows(o.moved, Walk(fx, e.body, at + [1], Own, inner, o.moved, within).moved)
  {
    hide Plain, Agrees, Scoped, LetShared;
    PlainMoves(fx, e.value, at + [0], Own, owned, moved, shared);
    ScopedLet(fx, e.name, at + [1], owned);
    LetAgrees(fx, drops, e, at, owned, moved, shared);
    TailMoves(fx, e.body, at + [1], Scoped(fx, owned, [e.name], at + [1]),
              Walk(fx, e.value, at + [0], Own, owned, moved, shared).moved, LetShared(fx, e, shared));
  }

  lemma {:induction false} LetBalance(fx: Facts, drops: seq<Site>, e: Expr, at: Pos, owned: seq<string>, moved: Moves,
                                      shared: set<string>, pending: seq<string>, scope: set<string>, picks: Picks,
                                      x: string)
    requires Binder(e) && Due(fx, drops, e, at, owned, moved, shared, pending, scope, x)
    requires !GuardedTail(fx, e, at, owned, x)
    ensures var after := Walk(fx, e, at, Own, owned, moved, shared).moved;
            Settled(Trace(fx, Emit(fx, drops, e, at, pending, scope), owned, picks), x, x in owned, x in moved,
                    x in pending || x in after)
    decreases e, 0
  {
    hide Ready, Walk, Trace, Handed, Plain, Agrees, Scoped, LetShared, NamesAt, Guarded;
    var o := Walk(fx, e.value, at + [0], Own, owned, moved, shared);
    var inner, within := Scoped(fx, owned, [e.name], at + [1]), LetShared(fx, e, shared);
    var b := Walk(fx, e.body, at + [1], Own, inner, o.moved, within);
    var scope' := scope + {e.name};
    var due := NamesAt(drops, at + [1], ScopeEnd, scope' * {e.name});
    var code := Emit(fx, drops, e.body, at + [1], pending + due, scope');
    LetReady(fx, drops, e, at, owned, moved, shared, scope);
    ReadyAgrees(fx, drops, e, at, owned, moved, shared, scope);
    LetAgrees(fx, drops, e, at, owned, moved, shared);
    ScopedLet(fx, e.name, at + [1], owned);
    NamesAtCount(drops, at + [1], ScopeEnd, scope' * {e.name}, x);
    assert multiset(pending + due)[x] == multiset(pending)[x] + multiset(due)[x];
    TrackedLet(fx, e, shared, x);
    LetDue(fx, drops, e, at, owned, moved, shared, pending, scope, x);
    Balance(fx, drops, e.body, at + [1], inner, o.moved, within, pending + due, scope', picks, x);
    EvalAdds(fx, e.value, at + [0], Own, Then(Intro(e.name, at + [1]), code), owned, moved, shared, picks, x);
    IntroTrace(fx, e.name, at + [1], code, owned, picks, x);
  }

  lemma ReadyAgrees(fx: Facts, drops: seq<Site>, e: Expr, at: Pos, owned: seq<string>, moved: Moves,
                    shared: set<string>, scope: set<string>)
    requires Ready(fx, drops, e, at, owned, moved, shared, scope)
    ensures Agrees(drops, Walk(fx, e, at, Own, owned, moved, shared).sites, at)
    ensures Within(moved, owned) && TailForm(e) && NoShadow(fx, e, at, owned)
    ensures forall y :: multiset(owned)[y] <= 1
  {}

  lemma TrackedLet(fx: Facts, e: Expr, shared: set<string>, x: string)
    requires Binder(e) && Tracked(fx, e, shared, x)
    ensures Tracked(fx, e.body, LetShared(fx, e, shared), x) && x !in LetShared(fx, e, shared)
  {}

  lemma TrackedArm(fx: Facts, e: Expr, k: nat, shared: set<string>, x: string)
    requires e.Match? && Tracked(fx, e, shared, x) && k < |e.arms|
    ensures Tracked(fx, e.arms[k].body, shared + PatNames(e.arms[k].pat), x) && x !in shared
  {
    assert PatNames(e.arms[k].pat) == set n | n in Names(e.arms[k].pat);
  }

  lemma GuardedArm(fx: Facts, e: Expr, k: nat, at: Pos, owned: seq<string>, x: string)
    requires e.Match? && !GuardedTail(fx, e, at, owned, x) && k < |e.arms|
    ensures !GuardedTail(fx, e.arms[k].body, at + [k + 1], owned, x) && (x in owned ==> !Guarded(fx, e.scrut, Lend, x))
  {}

  lemma MatchReady(fx: Facts, drops: seq<Site>, e: Expr, k: nat, at: Pos, owned: seq<string>, moved: Moves,
                   shared: set<string>, scope: set<string>)
    requires e.Match? && Ready(fx, drops, e, at, owned, moved, shared, scope) && k < |e.arms|
    ensures var o := Walk(fx, e.scrut, at + [0], Lend, owned, moved, shared);
            var pat, body := e.arms[k].pat, e.arms[k].body;
            && o.errors == [] && Plain(e.scrut) && Within(o.moved, owned)
            && Ready(fx, drops, body, at + [k + 1], owned, o.moved, shared + PatNames(pat), scope + PatNames(pat))
            && Grows(ArmBody(fx, e.arms[k], at + [k + 1], owned, o.moved, shared).moved,
                     Walk(fx, e, at, Own, owned, moved, shared).moved)
            && Grows(o.moved, Walk(fx, e, at, Own, owned, moved, shared).moved)
  {
    hide Plain, Agrees, WalkArms, Joined, AllSites, KeptSites, AllErrors, PatNames;
    var o := Walk(fx, e.scrut, at + [0], Lend, owned, moved, shared);
    var outs := Arms(fx, e, at, owned, o.moved, shared);
    ScrutPlain(e);
    PlainMoves(fx, e.scrut, at + [0], Lend, owned, moved, shared);
    ArmAgrees(fx, drops, e, k, at, owned, moved, shared);
    ArmMoves(fx, e, k, at, owned, o.moved, shared);
    ErrorsOf(outs, k);
    forall x ensures x in outs[k].moved || x in o.moved ==> x in Joined(o.moved, outs) { JoinedHas(o.moved, outs, x); }
    ScalarArm(fx, e, k, at, owned);
  }

  lemma {:induction false} ErrorsOf(outs: seq<Out>, k: nat)
    requires k < |outs|
    ensures AllErrors(outs) == [] ==> outs[k].errors == []
    decreases |outs|
  {
    if k > 0 { ErrorsOf(outs[1..], k - 1); }
  }

  lemma SwitchTrace(fx: Facts, drops: seq<Site>, e: Expr, at: Pos, owned: seq<string>, pending: seq<string>,
                    scope: set<string>, picks: Picks)
    requires e.Match?
    ensures Emit(fx, drops, e, at, pending, scope)
         == Then(Eval(e.scrut, at + [0], Lend), Switch(at, EmitArms(fx, drops, e, e.arms, at, 1, pending, scope)))
    ensures var log := Trace(fx, Switch(at, EmitArms(fx, drops, e, e.arms, at, 1, pending, scope)), owned, picks);
            if picks(at) < |e.arms| then
              var k := picks(at);
              var within := scope + PatNames(e.arms[k].pat);
              log == Trace(fx, Emit(fx, drops, e.arms[k].body, at + [k + 1],
                                    pending + NamesAt(drops, at + [k + 1], ScopeEnd, within), within), owned, picks)
            else log == Log([], Failed)
  {
    hide NamesAt;
    var k := picks(at);
    if k < |e.arms| {
      assert at + [1 + k] == at + [k + 1];
      assert PatNames(e.arms[k].pat) == set n | n in Names(e.arms[k].pat);
    }
  }

  lemma {:induction false} MatchBalance(fx: Facts, drops: seq<Site>, e: Expr, at: Pos, owned: seq<string>, moved: Moves,
                                        shared: set<string>, pending: seq<string>, scope: set<string>, picks: Picks,
                                        x: string)
    requires e.Match? && Due(fx, drops, e, at, owned, moved, shared, pending, scope, x)
    requires !GuardedTail(fx, e, at, owned, x)
    ensures var after := Walk(fx, e, at, Own, owned, moved, shared).moved;
            Settled(Trace(fx, Emit(fx, drops, e, at, pending, scope), owned, picks), x, x in owned, x in moved,
                    x in pending || x in after)
    decreases e, 0
  {
    hide Ready, Walk, Trace, Emit, EmitArms, Handed, Plain, Agrees, Tracked, GuardedTail, NamesAt, Guarded, PatNames,
         TailForm, NoShadow;
    var k := picks(at);
    var o := Walk(fx, e.scrut, at + [0], Lend, owned, moved, shared);
    var arms := Switch(at, EmitArms(fx, drops, e, e.arms, at, 1, pending, scope));
    SwitchTrace(fx, drops, e, at, owned, pending, scope, picks);
    if k < |e.arms| {
      var here, body, names := at + [k + 1], e.arms[k].body, PatNames(e.arms[k].pat);
      var due := NamesAt(drops, here, ScopeEnd, scope + names);
      MatchReady(fx, drops, e, k, at, owned, moved, shared, scope);
      ReadyAgrees(fx, drops, e, at, owned, moved, shared, scope);
      ArmAgrees(fx, drops, e, k, at, owned, moved, shared);
      InScope(fx, drops, e, at, owned, moved, shared, scope, x);
      NamesAtCount(drops, here, ScopeEnd, scope + names, x);
      assert multiset(pending + due)[x] == multiset(pending)[x] + multiset(due)[x];
      TrackedArm(fx, e, k, shared, x);
      ArmDue(fx, drops, e, k, at, owned, moved, shared, pending, scope, x);
      GuardedArm(fx, e, k, at, owned, x);
      Balance(fx, drops, body, here, owned, o.moved, shared + names, pending + due, scope + names, picks, x);
      EvalAdds(fx, e.scrut, at + [0], Lend, arms, owned, moved, shared, picks, x);
    } else {
      EvalTrace(fx, e.scrut, at + [0], Lend, arms, owned, picks, Born(x));
    }
  }

  lemma InScope(fx: Facts, drops: seq<Site>, e: Expr, at: Pos, owned: seq<string>, moved: Moves, shared: set<string>,
                scope: set<string>, x: string)
    requires Ready(fx, drops, e, at, owned, moved, shared, scope)
    ensures x in owned ==> x in scope
    ensures x !in owned ==> multiset(owned)[x] == 0
  {}

  // ------------------------------------------------- the one way to miss a value

  ghost predicate SameUnder(at: Pos, p: Picks, q: Picks) {
    forall r :: at <= r ==> p(r) == q(r)
  }

  lemma SameChildUnder(at: Pos, k: nat, p: Picks, q: Picks)
    requires SameUnder(at, p, q)
    ensures SameUnder(at + [k], p, q)
  {
    forall r | at + [k] <= r ensures p(r) == q(r) { assert at <= at + [k] <= r; }
  }

  function Zero(): Picks { (p: Pos) => 0 }

  lemma SameAsZero(at: Pos, p: Picks)
    requires SameUnder(at, p, Zero())
    ensures CutsAll(p, at)
  {}

  /** A path on which nothing disposes of `x`. */
  ghost predicate Missed(log: Log, x: string, owns: bool) {
    log.exit != Failed && Disposed(log.events, x) == 0 && Births(log.events, x) == if owns then 0 else 1
  }

  ghost predicate MissedBy(fx: Facts, c: Code, at: Pos, owned: seq<string>, x: string, picks: Picks) {
    forall p :: SameUnder(at, p, picks) ==> Missed(Trace(fx, c, owned, p), x, x in owned)
  }

  lemma {:induction false} CutReturns(fx: Facts, drops: seq<Site>, e: Expr, at: Pos, owned: seq<string>,
                                      pending: seq<string>, scope: set<string>, picks: Picks)
    requires TailForm(e) && CutsAll(picks, at)
    ensures Trace(fx, Emit(fx, drops, e, at, pending, scope), owned, picks).exit != Failed
    decreases e
  {
    hide CutsAll, Plain, NamesAt, PatNames, Scoped, Trace, Emit, EmitArms;
    if Binder(e) {
      var within := scope + {e.name};
      var owed := pending + NamesAt(drops, at + [1], ScopeEnd, within * {e.name});
      CutsChild(picks, at, 1);
      LetTrace(fx, drops, e, at, pending, scope);
      CutReturns(fx, drops, e.body, at + [1], Scoped(fx, owned, [e.name], at + [1]), owed, within, picks);
      IntroExit(fx, e.name, at + [1], Emit(fx, drops, e.body, at + [1], owed, within), owned, picks);
      EvalTrace(fx, e.value, at + [0], Own,
                Then(Intro(e.name, at + [1]), Emit(fx, drops, e.body, at + [1], owed, within)),
                owned, picks, Born(""));
    } else if e.Match? {
      CutsHere(picks, at);
      CutsChild(picks, at, 1);
      SwitchTrace(fx, drops, e, at, owned, pending, scope, picks);
      var within := scope + PatNames(e.arms[0].pat);
      var due := NamesAt(drops, at + [1], ScopeEnd, within);
      CutReturns(fx, drops, e.arms[0].body, at + [0 + 1], owned, pending + due, within, picks);
      EvalTrace(fx, e.scrut, at + [0], Lend, Switch(at, EmitArms(fx, drops, e, e.arms, at, 1, pending, scope)),
                owned, picks, Born(""));
    } else {
      LeafReturns(fx, drops, e, at, owned, pending, scope, picks);
    }
  }

  lemma IntroExit(fx: Facts, n: string, at: Pos, next: Code, owned: seq<string>, picks: Picks)
    ensures Trace(fx, Then(Intro(n, at), next), owned, picks).exit
             == Trace(fx, next, Scoped(fx, owned, [n], at), picks).exit
  {}

  /** An expression that ends the body ends the pass as well. */
  lemma LeafReturns(fx: Facts, drops: seq<Site>, e: Expr, at: Pos, owned: seq<string>, pending: seq<string>,
                    scope: set<string>, picks: Picks)
    requires !Binder(e) && !e.Match?
    ensures Trace(fx, Emit(fx, drops, e, at, pending, scope), owned, picks).exit != Failed
  {
    hide Handed, NamesAt, Without, Reverse, FreeAll, Touched, Seen;
    if TailCall(fx, e, scope) {
      var back := NamesAt(drops, at, BackEdge, scope);
      FreesAdd(fx, back, FreeAll(Without(Reverse(pending), back), Again), owned, picks, "");
      FreesAdd(fx, Without(Reverse(pending), back), Again, owned, picks, "");
    } else {
      FreesAdd(fx, Reverse(pending), Return, owned, picks, "");
    }
  }

  /** An expression that uses `x` only under a short-circuit operator, cut short. */
  lemma EvalMisses(fx: Facts, e: Expr, at: Pos, mode: Mode, next: Code, owned: seq<string>, moved: Moves,
                   shared: set<string>, picks: Picks, x: string)
    requires Plain(e) && Walk(fx, e, at, mode, owned, moved, shared).errors == []
    requires x in owned && Guarded(fx, e, mode, x) && CutsAll(picks, at)
    ensures var log, rest := Trace(fx, Then(Eval(e, at, mode), next), owned, picks), Trace(fx, next, owned, picks);
            && log.exit == rest.exit
            && Births(log.events, x) == Births(rest.events, x)
            && Disposed(log.events, x) == Disposed(rest.events, x)
  {
    hide Walk, Trace, Handed, Uses, Guarded, Plain, CutsAll;
    EvalTrace(fx, e, at, mode, next, owned, picks, Born(x));
    EvalTrace(fx, e, at, mode, next, owned, picks, Event.Moved(x));
    EvalTrace(fx, e, at, mode, next, owned, picks, Freed(x));
    PlainUses(fx, e, at, mode, owned, moved, shared, x);
    GuardedCut(fx, e, at, mode, picks, x);
  }

  lemma GuardedMoves(fx: Facts, e: Expr, at: Pos, mode: Mode, owned: seq<string>, moved: Moves, shared: set<string>,
                     x: string)
    requires Plain(e) && Walk(fx, e, at, mode, owned, moved, shared).errors == []
    requires x in owned && Guarded(fx, e, mode, x)
    ensures x !in moved && x in Walk(fx, e, at, mode, owned, moved, shared).moved
  {
    hide Walk, Uses, Guarded, Plain;
    PlainUses(fx, e, at, mode, owned, moved, shared, x);
    GuardedUses(fx, e, mode, x);
  }

  /** What is moved is not used again, under a short-circuit operator or not. */
  lemma {:induction false} GoneUnguarded(fx: Facts, drops: seq<Site>, e: Expr, at: Pos, owned: seq<string>,
                                         moved: Moves, shared: set<string>, scope: set<string>, x: string)
    requires Ready(fx, drops, e, at, owned, moved, shared, scope) && x in owned && x in moved
    ensures !GuardedTail(fx, e, at, owned, x)
    decreases e
  {
    hide Ready, Walk, Guarded, Plain, Scoped, LetShared, PatNames, Within;
    if Binder(e) {
      LetReady(fx, drops, e, at, owned, moved, shared, scope);
      var o := Walk(fx, e.value, at + [0], Own, owned, moved, shared);
      if Guarded(fx, e.value, Own, x) { GuardedMoves(fx, e.value, at + [0], Own, owned, moved, shared, x); }
      PlainUses(fx, e.value, at + [0], Own, owned, moved, shared, x);
      ScopedLet(fx, e.name, at + [1], owned);
      GoneUnguarded(fx, drops, e.body, at + [1], Scoped(fx, owned, [e.name], at + [1]), o.moved,
                    LetShared(fx, e, shared),
                    scope + {e.name}, x);
    } else if e.Match? {
      var o := Walk(fx, e.scrut, at + [0], Lend, owned, moved, shared);
      forall k | 0 <= k < |e.arms| ensures !GuardedTail(fx, e.arms[k].body, at + [k + 1], owned, x) {
        MatchReady(fx, drops, e, k, at, owned, moved, shared, scope);
        PlainUses(fx, e.scrut, at + [0], Lend, owned, moved, shared, x);
        var names := PatNames(e.arms[k].pat);
        GoneUnguarded(fx, drops, e.arms[k].body, at + [k + 1], owned, o.moved, shared + names, scope + names, x);
      }
      assert 0 < |e.arms| by { ReadyAgrees(fx, drops, e, at, owned, moved, shared, scope); ScrutPlain(e); }
      MatchReady(fx, drops, e, 0, at, owned, moved, shared, scope);
      if Guarded(fx, e.scrut, Lend, x) { GuardedMoves(fx, e.scrut, at + [0], Lend, owned, moved, shared, x); }
    } else {
      LeafReady(fx, drops, e, at, owned, moved, shared, scope);
      if Guarded(fx, e, Own, x) { GuardedMoves(fx, e, at, Own, owned, moved, shared, x); }
    }
  }

  lemma LeafReady(fx: Facts, drops: seq<Site>, e: Expr, at: Pos, owned: seq<string>, moved: Moves, shared: set<string>,
                  scope: set<string>)
    requires !Binder(e) && !e.Match? && Ready(fx, drops, e, at, owned, moved, shared, scope)
    ensures Plain(e) && Walk(fx, e, at, Own, owned, moved, shared).errors == []
    ensures forall n :: n in owned ==> n in scope
  {}

  /** A value handed on under a short-circuit operator is disposed of by nothing
      on the path that cuts that operator short. */
  lemma {:induction false} Leak(fx: Facts, drops: seq<Site>, e: Expr, at: Pos, owned: seq<string>, moved: Moves,
                                shared: set<string>, pending: seq<string>, scope: set<string>, x: string)
    returns (picks: Picks)
    requires Due(fx, drops, e, at, owned, moved, shared, pending, scope, x) && GuardedTail(fx, e, at, owned, x)
    ensures MissedBy(fx, Emit(fx, drops, e, at, pending, scope), at, owned, x, picks)
    ensures x in owned ==> x in Walk(fx, e, at, Own, owned, moved, shared).moved
    decreases e, 1
  {
    hide Due, GuardedTail, MissedBy, Walk, Emit;
    if Binder(e) {
      picks := LetLeak(fx, drops, e, at, owned, moved, shared, pending, scope, x);
    } else if e.Match? {
      picks := MatchLeak(fx, drops, e, at, owned, moved, shared, pending, scope, x);
    } else {
      LeafLeak(fx, drops, e, at, owned, moved, shared, pending, scope, x);
      picks := Zero();
    }
  }

  lemma LeafLeak(fx: Facts, drops: seq<Site>, e: Expr, at: Pos, owned: seq<string>, moved: Moves, shared: set<string>,
                 pending: seq<string>, scope: set<string>, x: string)
    requires !Binder(e) && !e.Match? && Due(fx, drops, e, at, owned, moved, shared, pending, scope, x)
    requires GuardedTail(fx, e, at, owned, x)
    ensures MissedBy(fx, Emit(fx, drops, e, at, pending, scope), at, owned, x, Zero())
    ensures x in owned && x in Walk(fx, e, at, Own, owned, moved, shared).moved
  {
    hide Walk, Trace, Handed, Guarded, Plain, FreeAll, Agrees, NamesAt, Without, Reverse, CutsAll, SameUnder, Ready;
    LeafReady(fx, drops, e, at, owned, moved, shared, scope);
    GuardedMoves(fx, e, at, Own, owned, moved, shared, x);
    ReadyAgrees(fx, drops, e, at, owned, moved, shared, scope);
    var after := Walk(fx, e, at, Own, owned, moved, shared).moved;
    assert multiset(Reverse(pending))[x] == 0;
    forall p | SameUnder(at, p, Zero())
      ensures Missed(Trace(fx, Emit(fx, drops, e, at, pending, scope), owned, p), x, x in owned)
    {
      SameAsZero(at, p);
      EndTrace(fx, owned, p, x);
      if TailCall(fx, e, scope) {
        var back := NamesAt(drops, at, BackEdge, scope);
        var rest := Without(Reverse(pending), back);
        EvalMisses(fx, e, at, Own, FreeAll(back, FreeAll(rest, Again)), owned, moved, shared, p, x);
        FreesAdd(fx, back, FreeAll(rest, Again), owned, p, x);
        FreesAdd(fx, rest, Again, owned, p, x);
        BackCount(fx, drops, e, at, owned, moved, shared, scope, x);
        WithoutCount(Reverse(pending), back, x);
      } else {
        EvalMisses(fx, e, at, Own, FreeAll(Reverse(pending), Return), owned, moved, shared, p, x);
        FreesAdd(fx, Reverse(pending), Return, owned, p, x);
      }
    }
  }

  /** Once `x` is gone, the rest of a cut path never disposes of it again. */
  lemma GoneStays(fx: Facts, drops: seq<Site>, e: Expr, at: Pos, owned: seq<string>, moved: Moves, shared: set<string>,
                  pending: seq<string>, scope: set<string>, x: string, p: Picks)
    requires Due(fx, drops, e, at, owned, moved, shared, pending, scope, x) && x in owned && x in moved
    requires CutsAll(p, at)
    ensures Missed(Trace(fx, Emit(fx, drops, e, at, pending, scope), owned, p), x, true)
  {
    hide Walk, Trace, Emit, CutsAll, GuardedTail, Ready;
    GoneUnguarded(fx, drops, e, at, owned, moved, shared, scope, x);
    Balance(fx, drops, e, at, owned, moved, shared, pending, scope, p, x);
    ReadyAgrees(fx, drops, e, at, owned, moved, shared, scope);
    CutReturns(fx, drops, e, at, owned, pending, scope, p);
  }

  lemma LetTrace(fx: Facts, drops: seq<Site>, e: Expr, at: Pos, pending: seq<string>, scope: set<string>)
    requires Binder(e)
    ensures var scope' := scope + {e.name};
            var due := NamesAt(drops, at + [1], ScopeEnd, scope' * {e.name});
            Emit(fx, drops, e, at, pending, scope)
              == Then(Eval(e.value, at + [0], Own),
                      Then(Intro(e.name, at + [1]), Emit(fx, drops, e.body, at + [1], pending + due, scope')))
  {}

  lemma {:induction false} LetLeak(fx: Facts, drops: seq<Site>, e: Expr, at: Pos, owned: seq<string>, moved: Moves,
                                   shared: set<string>, pending: seq<string>, scope: set<string>, x: string)
    returns (picks: Picks)
    requires Binder(e) && Due(fx, drops, e, at, owned, moved, shared, pending, scope, x)
    requires GuardedTail(fx, e, at, owned, x)
    ensures MissedBy(fx, Emit(fx, drops, e, at, pending, scope), at, owned, x, picks)
    ensures x in owned ==> x in Walk(fx, e, at, Own, owned, moved, shared).moved
    decreases e, 0
  {
    hide Ready, Tracked, Owed, Walk, Trace, Handed, Plain, Scoped, LetShared, NamesAt, Guarded, CutsAll, SameUnder,
         Emit;
    var o := Walk(fx, e.value, at + [0], Own, owned, moved, shared);
    var inner, within := Scoped(fx, owned, [e.name], at + [1]), LetShared(fx, e, shared);
    var scope' := scope + {e.name};
    var pending' := pending + NamesAt(drops, at + [1], ScopeEnd, scope' * {e.name});
    var code := Emit(fx, drops, e.body, at + [1], pending', scope');
    LetReady(fx, drops, e, at, owned, moved, shared, scope);
    LetDue(fx, drops, e, at, owned, moved, shared, pending, scope, x);
    ScopedLet(fx, e.name, at + [1], owned);
    LetTrace(fx, drops, e, at, pending, scope);
    if x in owned && Guarded(fx, e.value, Own, x) {
      picks := Zero();
      GuardedMoves(fx, e.value, at + [0], Own, owned, moved, shared, x);
      forall p | SameUnder(at, p, picks)
        ensures Missed(Trace(fx, Emit(fx, drops, e, at, pending, scope), owned, p), x, true)
      {
        SameAsZero(at, p);
        CutsChild(p, at, 0);
        CutsChild(p, at, 1);
        EvalMisses(fx, e.value, at + [0], Own, Then(Intro(e.name, at + [1]), code), owned, moved, shared, p, x);
        IntroTrace(fx, e.name, at + [1], code, owned, p, x);
        GoneStays(fx, drops, e.body, at + [1], inner, o.moved, within, pending', scope', x, p);
      }
    } else {
      if x in owned && x in o.moved { GoneUnguarded(fx, drops, e.body, at + [1], inner, o.moved, within, scope', x); }
      picks := Leak(fx, drops, e.body, at + [1], inner, o.moved, within, pending', scope', x);
      forall p | SameUnder(at, p, picks)
        ensures Missed(Trace(fx, Emit(fx, drops, e, at, pending, scope), owned, p), x, x in owned)
      {
        SameChildUnder(at, 1, p, picks);
        MissedAt(fx, code, at + [1], inner, x, picks, p);
        EvalAdds(fx, e.value, at + [0], Own, Then(Intro(e.name, at + [1]), code), owned, moved, shared, p, x);
        IntroTrace(fx, e.name, at + [1], code, owned, p, x);
      }
    }
  }

  lemma MissedAt(fx: Facts, c: Code, at: Pos, owned: seq<string>, x: string, picks: Picks, p: Picks)
    requires MissedBy(fx, c, at, owned, x, picks) && SameUnder(at, p, picks)
    ensures Missed(Trace(fx, c, owned, p), x, x in owned)
  {}

  lemma {:induction false} MatchLeak(fx: Facts, drops: seq<Site>, e: Expr, at: Pos, owned: seq<string>, moved: Moves,
                                     shared: set<string>, pending: seq<string>, scope: set<string>, x: string)
    returns (picks: Picks)
    requires e.Match? && Due(fx, drops, e, at, owned, moved, shared, pending, scope, x)
    requires GuardedTail(fx, e, at, owned, x)
    ensures MissedBy(fx, Emit(fx, drops, e, at, pending, scope), at, owned, x, picks)
    ensures x in owned ==> x in Walk(fx, e, at, Own, owned, moved, shared).moved
    decreases e, 0
  {
    hide Ready, Tracked, Owed, Walk, Trace, Handed, Plain, NamesAt, Guarded, CutsAll, SameUnder, Emit, EmitArms,
         PatNames;
    ReadyAgrees(fx, drops, e, at, owned, moved, shared, scope);
    ScrutPlain(e);
    var o := Walk(fx, e.scrut, at + [0], Lend, owned, moved, shared);
    var arms := Switch(at, EmitArms(fx, drops, e, e.arms, at, 1, pending, scope));
    if x in owned && Guarded(fx, e.scrut, Lend, x) {
      picks := Zero();
      MatchReady(fx, drops, e, 0, at, owned, moved, shared, scope);
      ArmDue(fx, drops, e, 0, at, owned, moved, shared, pending, scope, x);
      GuardedMoves(fx, e.scrut, at + [0], Lend, owned, moved, shared, x);
      var names := PatNames(e.arms[0].pat);
      var pending' := pending + NamesAt(drops, at + [0 + 1], ScopeEnd, scope + names);
      forall p | SameUnder(at, p, picks)
        ensures Missed(Trace(fx, Emit(fx, drops, e, at, pending, scope), owned, p), x, true)
      {
        SameAsZero(at, p);
        CutsHere(p, at);
        CutsChild(p, at, 0);
        CutsChild(p, at, 0 + 1);
        SwitchTrace(fx, drops, e, at, owned, pending, scope, p);
        EvalMisses(fx, e.scrut, at + [0], Lend, arms, owned, moved, shared, p, x);
        GoneStays(fx, drops, e.arms[0].body, at + [0 + 1], owned, o.moved, shared + names, pending', scope + names,
                  x, p);
      }
    } else {
      var k :| 0 <= k < |e.arms| && GuardedTail(fx, e.arms[k].body, at + [k + 1], owned, x);
      picks := ArmLeak(fx, drops, e, k, at, owned, moved, shared, pending, scope, x);
    }
  }

  lemma {:induction false} ArmLeak(fx: Facts, drops: seq<Site>, e: Expr, k: nat, at: Pos, owned: seq<string>,
                                   moved: Moves, shared: set<string>, pending: seq<string>, scope: set<string>,
                                   x: string)
    returns (picks: Picks)
    requires e.Match? && Due(fx, drops, e, at, owned, moved, shared, pending, scope, x) && k < |e.arms|
    requires GuardedTail(fx, e.arms[k].body, at + [k + 1], owned, x) && !(x in owned && Guarded(fx, e.scrut, Lend, x))
    ensures MissedBy(fx, Emit(fx, drops, e, at, pending, scope), at, owned, x, picks)
    ensures x in owned ==> x in Walk(fx, e, at, Own, owned, moved, shared).moved
    decreases e, 0, 0
  {
    hide Ready, Tracked, Owed, Walk, Trace, Handed, Plain, NamesAt, Guarded, GuardedTail, CutsAll, Emit, EmitArms,
         PatNames;
    var o := Walk(fx, e.scrut, at + [0], Lend, owned, moved, shared);
    var arms := Switch(at, EmitArms(fx, drops, e, e.arms, at, 1, pending, scope));
    var here, body, names := at + [k + 1], e.arms[k].body, PatNames(e.arms[k].pat);
    var pending' := pending + NamesAt(drops, here, ScopeEnd, scope + names);
    var code := Emit(fx, drops, body, here, pending', scope + names);
    MatchReady(fx, drops, e, k, at, owned, moved, shared, scope);
    ArmDue(fx, drops, e, k, at, owned, moved, shared, pending, scope, x);
    if x in owned && x in o.moved {
      GoneUnguarded(fx, drops, body, here, owned, o.moved, shared + names, scope + names, x);
    }
    var c := Leak(fx, drops, body, here, owned, o.moved, shared + names, pending', scope + names, x);
    assert x in owned ==> x in ArmBody(fx, e.arms[k], here, owned, o.moved, shared).moved;
    picks := (q: Pos) => if q == at then k else c(q);
    forall p | SameUnder(at, p, picks)
      ensures Missed(Trace(fx, Emit(fx, drops, e, at, pending, scope), owned, p), x, x in owned)
    {
      SameAt(at, p, picks, at);
      forall r: Pos | here <= r ensures p(r) == c(r) {
        assert at <= here <= r;
        SameAt(at, p, picks, r);
      }
      MissedAt(fx, code, here, owned, x, c, p);
      SwitchTrace(fx, drops, e, at, owned, pending, scope, p);
      EvalAdds(fx, e.scrut, at + [0], Lend, arms, owned, moved, shared, p, x);
    }
  }

  // ---------------------------------------------------------- whole functions

  function BirthsOf(names: seq<string>): seq<Event> {
    if names == [] then [] else [Born(names[0])] + BirthsOf(names[1..])
  }

  function FreesOf(names: seq<string>): seq<Event> {
    if names == [] then [] else [Freed(names[0])] + FreesOf(names[1..])
  }

  /** One pass through the loop a body compiles to: the parameters come in, the
      body runs, and a pass that returns frees what the epilogue frees. */
  function Pass(fx: Facts, drops: seq<Site>, body: Expr, owned: seq<string>, params: set<string>, picks: Picks): Log {
    var log := Trace(fx, Emit(fx, drops, body, [], [], params), owned, picks);
    var end := if log.exit == Returned then FreesOf(NamesAt(drops, [], ScopeEnd, params)) else [];
    Log(BirthsOf(owned) + log.events + end, log.exit)
  }

  /** The events of a run: passes up to the first that does not loop. */
  function Run(fx: Facts, drops: seq<Site>, body: Expr, owned: seq<string>, params: set<string>,
               passes: seq<Picks>): Log {
    if passes == [] then Log([], Looped)
    else
      var log := Pass(fx, drops, body, owned, params, passes[0]);
      if log.exit != Looped then log
      else
        var rest := Run(fx, drops, body, owned, params, passes[1..]);
        Log(log.events + rest.events, rest.exit)
  }

  /** A function the analysis accepts, with the drops it placed, in any order. */
  ghost predicate Accepted(fx: Facts, drops: seq<Site>, body: Expr, owned: seq<string>, lent: set<string>,
                           params: set<string>) {
    && TailForm(body) && NoShadow(fx, body, [], owned) && Single(owned) && (forall n :: n in owned ==> n in params)
    && Analyse(fx, body, owned, lent).errors == []
    && multiset(drops) == multiset(Analyse(fx, body, owned, lent).sites)
  }

  lemma BodyDue(fx: Facts, drops: seq<Site>, body: Expr, owned: seq<string>, lent: set<string>, params: set<string>,
                x: string)
    requires Accepted(fx, drops, body, owned, lent, params) && Tracked(fx, body, lent, x)
    ensures Due(fx, drops, body, [], owned, map[], lent, [], params, x)
    ensures multiset(NamesAt(drops, [], ScopeEnd, params))[x]
         == if x in Walk(fx, body, [], Own, owned, map[], lent).moved then 0 else multiset(owned)[x]
  {
    hide Walk, TailForm, NoShadow, Single, AllInside, Unclaimed;
    var o := Walk(fx, body, [], Own, owned, map[], lent);
    var rest := Unclaimed(fx, owned, o.moved, lent);
    var own := SitesFor(rest, [], ScopeEnd);
    SitesInside(fx, body, [], Own, owned, map[], lent);
    forall s | Inside([], s) ensures multiset(drops)[s] == multiset(o.sites)[s] {
      SitesForCount(rest, [], ScopeEnd, s);
    }
    SitesForCount(rest, [], ScopeEnd, Site(x, [], ScopeEnd));
    UnclaimedCount(fx, owned, o.moved, lent, x);
    NotAtRoot([], o.sites, Site(x, [], ScopeEnd));
    NamesAtCount(drops, [], ScopeEnd, params, x);
    assert x !in lent;
  }

  lemma {:induction false} BirthsCount(names: seq<string>, ev: Event)
    ensures multiset(BirthsOf(names))[ev] == if ev.Born? then multiset(names)[ev.name] else 0
  {
    if names != [] {
      BirthsCount(names[1..], ev);
      assert names == [names[0]] + names[1..];
    }
  }

  lemma {:induction false} FreesCount(names: seq<string>, ev: Event)
    ensures multiset(FreesOf(names))[ev] == if ev.Freed? then multiset(names)[ev.name] else 0
  {
    if names != [] {
      FreesCount(names[1..], ev);
      assert names == [names[0]] + names[1..];
    }
  }

  /** What one pass does to the accounts of `x`, given what the body does. */
  lemma PassAccounts(fx: Facts, drops: seq<Site>, body: Expr, owned: seq<string>, params: set<string>, picks: Picks,
                     x: string)
    ensures var log := Trace(fx, Emit(fx, drops, body, [], [], params), owned, picks);
            var all := Pass(fx, drops, body, owned, params, picks);
            var end := if log.exit == Returned then multiset(NamesAt(drops, [], ScopeEnd, params))[x] else 0;
            && all.exit == log.exit
            && Births(all.events, x) == multiset(owned)[x] + Births(log.events, x)
            && Disposed(all.events, x) == Disposed(log.events, x) + end
  {
    hide Trace, Emit, NamesAt;
    var end := NamesAt(drops, [], ScopeEnd, params);
    BirthsCount(owned, Born(x));
    BirthsCount(owned, Event.Moved(x));
    BirthsCount(owned, Freed(x));
    FreesCount(end, Born(x));
    FreesCount(end, Event.Moved(x));
    FreesCount(end, Freed(x));
  }

  /** In each pass every owned value is disposed of exactly as often as it comes
      to be, which is at most once, if and only if it is not handed on under a
      short-circuit operator. */
  lemma ExactlyOnce(fx: Facts, drops: seq<Site>, body: Expr, owned: seq<string>, lent: set<string>, params: set<string>,
                    x: string)
    requires Accepted(fx, drops, body, owned, lent, params) && Tracked(fx, body, lent, x)
    ensures !GuardedTail(fx, body, [], owned, x) <==>
            forall picks :: Balanced(Pass(fx, drops, body, owned, params, picks), x)
  {
    hide Accepted, Tracked, GuardedTail, Trace, Emit, Walk, Pass, NamesAt, Due, SameUnder;
    BodyDue(fx, drops, body, owned, lent, params, x);
    DueSingle(fx, drops, body, [], owned, map[], lent, [], params, x);
    if GuardedTail(fx, body, [], owned, x) {
      var picks := Leak(fx, drops, body, [], owned, map[], lent, [], params, x);
      SameSelf([], picks);
      MissedAt(fx, Emit(fx, drops, body, [], [], params), [], owned, x, picks, picks);
      PassAccounts(fx, drops, body, owned, params, picks, x);
      assert !Balanced(Pass(fx, drops, body, owned, params, picks), x);
    } else {
      forall picks: Picks ensures Balanced(Pass(fx, drops, body, owned, params, picks), x) {
        Balance(fx, drops, body, [], owned, map[], lent, [], params, picks, x);
        PassAccounts(fx, drops, body, owned, params, picks, x);
      }
    }
  }

  ghost predicate Balanced(log: Log, x: string) {
    log.exit == Failed || Disposed(log.events, x) == Births(log.events, x) <= 1
  }

  lemma SameAt(at: Pos, p: Picks, q: Picks, r: Pos)
    requires SameUnder(at, p, q) && at <= r
    ensures p(r) == q(r)
  {}

  lemma SameSelf(at: Pos, p: Picks)
    ensures SameUnder(at, p, p)
  {}

  lemma DueSingle(fx: Facts, drops: seq<Site>, e: Expr, at: Pos, owned: seq<string>, moved: Moves, shared: set<string>,
                  pending: seq<string>, scope: set<string>, x: string)
    requires Due(fx, drops, e, at, owned, moved, shared, pending, scope, x)
    ensures multiset(owned)[x] == if x in owned then 1 else 0
  {}

  /** Over any number of passes nothing is lost and nothing disposed of twice. */
  lemma {:induction false} RunBalances(fx: Facts, drops: seq<Site>, body: Expr, owned: seq<string>, lent: set<string>,
                                       params: set<string>, passes: seq<Picks>, x: string)
    requires Accepted(fx, drops, body, owned, lent, params) && Tracked(fx, body, lent, x)
    requires !GuardedTail(fx, body, [], owned, x)
    ensures var log := Run(fx, drops, body, owned, params, passes);
            log.exit == Failed || Disposed(log.events, x) == Births(log.events, x)
  {
    hide Accepted, Tracked, GuardedTail, Pass;
    if passes != [] {
      ExactlyOnce(fx, drops, body, owned, lent, params, x);
      assert Balanced(Pass(fx, drops, body, owned, params, passes[0]), x);
      RunBalances(fx, drops, body, owned, lent, params, passes[1..], x);
    }
  }
}
