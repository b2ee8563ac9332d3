/** Which names a value may be a part of, told by where in the expression they stand
    (src/own.rs). */
module Sharing {
  import opened Wrappers
  import opened Ast
  import opened Ownership
  import Disposal

  /** What is followed down an expression: what its value may be or hold, what it may
      point into, what a call may hand on to it, or everything in it. */
  datatype Route = Value | Pointer | Handing | Anywhere

  /** A callee that gives back a piece of what it is given. */
  predicate GivesBack(fx: Facts, e: Expr) {
    e.App? && e.head.Var? && (if e.head.name == "fold" then TakesIdentity(fx, e) else e.head.name in fx.shares)
  }

  predicate TakesIdentity(fx: Facts, e: Expr) {
    e.App? && exists i :: 0 <= i < |e.args| && ReturnsItsArgument(fx, e.args[i])
  }

  /** The value of child `i` may be the value of `e`, or a piece of it. */
  predicate Passes(fx: Facts, route: Route, e: Expr, i: nat) {
    match e
    case Let(_, _, _) => i == 1 || route == Anywhere
    case Bind(_, _, _) => i == 1 || route == Anywhere
    case Match(_, _) => i > 0 || route == Anywhere
    case Neg(_) => route == Pointer || route == Anywhere
    case Not(_) => route == Pointer || route == Anywhere
    case App(_, _) => route == Anywhere || (route == Handing && i > 0 && GivesBack(fx, e))
    case Binop(_, _, _) => route == Anywhere
    case Lambda(_, _) => route == Anywhere
    case _ => true
  }

  /** Following `path` from `e` leads to `x`. */
  predicate LeadsTo(fx: Facts, route: Route, e: Expr, path: seq<nat>, x: Expr)
    decreases |path|
  {
    if path == [] then e == x
    else
      && path[0] < |Children(e)| && Passes(fx, route, e, path[0])
      && LeadsTo(fx, route, Children(e)[path[0]], path[1..], x)
  }

  lemma LeadsOn(fx: Facts, route: Route, e: Expr, i: nat, path: seq<nat>, x: Expr)
    requires i < |Children(e)| && Passes(fx, route, e, i) && LeadsTo(fx, route, Children(e)[i], path, x)
    ensures LeadsTo(fx, route, e, [i] + path, x)
  {
    hide Passes;
    assert ([i] + path)[1..] == path;
  }

  // -------------------------------------------------------- names in the result

  lemma {:induction false} LeavesOfIff(parent: Expr, es: seq<Expr>, n: string)
    requires forall i :: 0 <= i < |es| ==> es[i] < parent
    ensures n in LeavesOf(parent, es) <==> exists i: nat :: i < |es| && n in Leaves(es[i])
    decreases |es|
  {
    hide Leaves;
    if es != [] {
      LeavesOfIff(parent, es[1..], n);
      if i: nat :| i < |es| && n in Leaves(es[i]) {
        if i > 0 { assert es[1..][i - 1] == es[i]; }
      }
    }
  }

  ghost predicate LeavesBelow(fx: Facts, e: Expr, n: string) {
    exists i: nat :: i < |Children(e)| && Passes(fx, Value, e, i) && n in Leaves(Children(e)[i])
  }

  /** The bodies of the arms are the children after the first. */
  lemma ArmChildren(e: Expr)
    requires e.Match?
    ensures |Children(e)| == |e.arms| + 1
    ensures forall i :: 1 <= i < |Children(e)| ==> Children(e)[i] == e.arms[i - 1].body
    ensures forall k :: 0 <= k < |e.arms| ==> e.arms[k].body == Children(e)[k + 1]
  {}

  function Skip(e: Expr): nat { if e.Record? && e.base.Some? then 1 else 0 }

  /** The values of the fields are the children after the base, where there is one. */
  lemma FieldChildren(e: Expr)
    requires e.Record?
    ensures |Children(e)| == |e.fields| + Skip(e)
    ensures forall i :: Skip(e) <= i < |Children(e)| ==> Children(e)[i] == e.fields[i - Skip(e)].value
    ensures forall k :: 0 <= k < |e.fields| ==> e.fields[k].value == Children(e)[k + Skip(e)]
    ensures e.base.Some? ==> Children(e)[0] == e.base.value
  {}

  lemma LeavesArms(fx: Facts, e: Expr, n: string)
    requires e.Match?
    ensures n in Leaves(e) <==> LeavesBelow(fx, e, n)
  {
    hide Leaves, LeavesOf, Children;
    ArmChildren(e);
    var es := seq(|e.arms|, k requires 0 <= k < |e.arms| => e.arms[k].body);
    LeavesOfArms(e, es);
    LeavesOfIff(e, es, n);
    if i: nat :| i < |es| && n in Leaves(es[i]) { assert Passes(fx, Value, e, i + 1) && Children(e)[i + 1] == es[i]; }
    if i: nat :| i < |Children(e)| && Passes(fx, Value, e, i) && n in Leaves(Children(e)[i]) {
      assert es[i - 1] == Children(e)[i];
    }
  }

  lemma LeavesOfArms(e: Expr, es: seq<Expr>)
    requires e.Match? && |es| == |e.arms| && forall k :: 0 <= k < |es| ==> es[k] == e.arms[k].body
    ensures forall i :: 0 <= i < |es| ==> es[i] < e
    ensures Leaves(e) == LeavesOf(e, es)
  {
    hide LeavesOf;
    assert es == seq(|e.arms|, k requires 0 <= k < |e.arms| => e.arms[k].body);
  }

  lemma LeavesFields(fx: Facts, e: Expr, n: string)
    requires e.Record?
    ensures n in Leaves(e) <==> LeavesBelow(fx, e, n)
  {
    hide Leaves, LeavesOf, Children;
    FieldChildren(e);
    var es := seq(|e.fields|, k requires 0 <= k < |e.fields| => e.fields[k].value);
    LeavesOfFields(e, es);
    LeavesOfIff(e, es, n);
    if i: nat :| i < |es| && n in Leaves(es[i]) {
      assert Passes(fx, Value, e, i + Skip(e)) && Children(e)[i + Skip(e)] == es[i];
    }
    if e.base.Some? { assert Passes(fx, Value, e, 0); }
    if i: nat :| i < |Children(e)| && Passes(fx, Value, e, i) && n in Leaves(Children(e)[i]) {
      if i >= Skip(e) { assert es[i - Skip(e)] == Children(e)[i]; }
    }
  }

  lemma LeavesOfFields(e: Expr, es: seq<Expr>)
    requires e.Record? && |es| == |e.fields| && forall k :: 0 <= k < |es| ==> es[k] == e.fields[k].value
    ensures forall i :: 0 <= i < |es| ==> es[i] < e
    ensures Leaves(e) == (if e.base.Some? then Leaves(e.base.value) else {}) + LeavesOf(e, es)
  {
    hide LeavesOf;
    assert es == seq(|e.fields|, k requires 0 <= k < |e.fields| => e.fields[k].value);
  }

  lemma LeavesItems(fx: Facts, e: Expr, n: string)
    requires e.Tuple? || e.List?
    ensures n in Leaves(e) <==> LeavesBelow(fx, e, n)
  {
    hide LeavesOf;
    LeavesOfIff(e, e.items, n);
    if i: nat :| i < |e.items| && n in Leaves(e.items[i]) { assert Passes(fx, Value, e, i); }
  }

  lemma LeavesOne(fx: Facts, e: Expr, n: string)
    requires e.Let? || e.Bind? || e.Borrow? || e.Proj? || e.Arena?
    ensures n in Leaves(e) <==> LeavesBelow(fx, e, n)
  {
    var i: nat := if e.Let? || e.Bind? then 1 else 0;
    assert Passes(fx, Value, e, i) && Leaves(e) == Leaves(Children(e)[i]);
  }

  lemma LeavesStep(fx: Facts, e: Expr, n: string)
    ensures n in Leaves(e) <==> e == Var(n) || (e.Lambda? && n in Mentioned(e.body)) || LeavesBelow(fx, e, n)
  {
    hide Mentioned, LeavesOf, LeavesBelow;
    if e.Match? { LeavesArms(fx, e, n); }
    else if e.Record? { LeavesFields(fx, e, n); }
    else if e.Tuple? || e.List? { LeavesItems(fx, e, n); }
    else if e.Let? || e.Bind? || e.Borrow? || e.Proj? || e.Arena? { LeavesOne(fx, e, n); }
    else { LeavesNone(fx, e, n); }
  }

  lemma LeavesNone(fx: Facts, e: Expr, n: string)
    requires !e.Match? && !e.Record? && !e.Tuple? && !e.List? && !e.Let? && !e.Bind? && !e.Borrow? && !e.Proj?
    requires !e.Arena?
    ensures !LeavesBelow(fx, e, n)
  {}

  lemma {:induction false} MentionedOfIff(parent: Expr, es: seq<Expr>, n: string)
    requires forall i :: 0 <= i < |es| ==> es[i] < parent
    ensures n in MentionedOf(parent, es) <==> exists i: nat :: i < |es| && n in Mentioned(es[i])
    decreases |es|
  {
    hide Mentioned;
    if es != [] {
      MentionedOfIff(parent, es[1..], n);
      if i: nat :| i < |es| && n in Mentioned(es[i]) {
        if i > 0 { assert es[1..][i - 1] == es[i]; }
      }
    }
  }

  lemma {:induction false} MentionedReached(fx: Facts, e: Expr, n: string) returns (path: seq<nat>)
    requires n in Mentioned(e)
    ensures LeadsTo(fx, Anywhere, e, path, Var(n))
    decreases e
  {
    hide MentionedOf;
    MentionedOfIff(e, Children(e), n);
    if e == Var(n) { return []; }
    var i: nat :| i < |Children(e)| && n in Mentioned(Children(e)[i]);
    var rest := MentionedReached(fx, Children(e)[i], n);
    LeadsOn(fx, Anywhere, e, i, rest, Var(n));
    path := [i] + rest;
  }

  lemma {:induction false} ReachedMentioned(fx: Facts, e: Expr, path: seq<nat>, n: string)
    requires LeadsTo(fx, Anywhere, e, path, Var(n))
    ensures n in Mentioned(e)
    decreases |path|
  {
    hide MentionedOf, Passes;
    if path != [] {
      ReachedMentioned(fx, Children(e)[path[0]], path[1..], n);
      MentionedOfIff(e, Children(e), n);
    }
  }

  /** What carries `n` out where it stands: the name, or a closure that mentions it. */
  ghost predicate Carries(fx: Facts, x: Expr, n: string) {
    x == Var(n) || (x.Lambda? && exists path :: LeadsTo(fx, Anywhere, x.body, path, Var(n)))
  }

  ghost predicate CarriedTo(fx: Facts, e: Expr, n: string) {
    exists path, x :: LeadsTo(fx, Value, e, path, x) && Carries(fx, x, n)
  }

  lemma CarriedAt(fx: Facts, e: Expr, n: string, path: seq<nat>, x: Expr)
    requires LeadsTo(fx, Value, e, path, x) && Carries(fx, x, n)
    ensures CarriedTo(fx, e, n)
  {}

  /** The names that leave with the result are exactly those that stand, themselves or in
      a closure, where the expression's value or a piece of it comes from. */
  lemma {:induction false} LeavesIff(fx: Facts, e: Expr, n: string)
    ensures n in Leaves(e) <==> CarriedTo(fx, e, n)
    decreases e
  {
    hide Leaves, Mentioned, Passes;
    LeavesStep(fx, e, n);
    if n in Leaves(e) {
      if e == Var(n) || (e.Lambda? && n in Mentioned(e.body)) {
        if e.Lambda? { var p := MentionedReached(fx, e.body, n); }
        CarriedAt(fx, e, n, [], e);
      } else {
        var i: nat :| i < |Children(e)| && Passes(fx, Value, e, i) && n in Leaves(Children(e)[i]);
        LeavesIff(fx, Children(e)[i], n);
        var path, x :| LeadsTo(fx, Value, Children(e)[i], path, x) && Carries(fx, x, n);
        LeadsOn(fx, Value, e, i, path, x);
        CarriedAt(fx, e, n, [i] + path, x);
      }
    }
    if CarriedTo(fx, e, n) {
      var path, x :| LeadsTo(fx, Value, e, path, x) && Carries(fx, x, n);
      if path == [] {
        if e.Lambda? {
          var p :| LeadsTo(fx, Anywhere, e.body, p, Var(n));
          ReachedMentioned(fx, e.body, p, n);
        }
      } else {
        CarriedAt(fx, Children(e)[path[0]], n, path[1..], x);
        LeavesIff(fx, Children(e)[path[0]], n);
      }
    }
  }

  // ------------------------------------------------------------ what is handed out

  ghost predicate HandedBelow(fx: Facts, e: Expr, names: set<string>) {
    exists i: nat :: i < |Children(e)| && Passes(fx, Handing, e, i) && HandsOut(fx, Children(e)[i], names)
  }

  lemma HandsOutStep(fx: Facts, e: Expr, names: set<string>)
    ensures HandsOut(fx, e, names) <==> (e.Var? && e.name in names) || HandedBelow(fx, e, names)
  {
    hide ReturnsItsArgument, Children;
    if e.Match? {
      ArmChildren(e);
      if HandsOut(fx, e, names) {
        var k :| 0 <= k < |e.arms| && HandsOut(fx, e.arms[k].body, names);
        assert Passes(fx, Handing, e, k + 1) && Children(e)[k + 1] == e.arms[k].body;
      }
    } else if e.Record? {
      FieldChildren(e);
      if k :| 0 <= k < |e.fields| && HandsOut(fx, e.fields[k].value, names) {
        assert Passes(fx, Handing, e, k + Skip(e)) && Children(e)[k + Skip(e)] == e.fields[k].value;
      }
      if e.base.Some? { assert Passes(fx, Handing, e, 0); }
    } else if e.App? {
      HandsOutApp(fx, e, names);
    } else {
      HandsOutRest(fx, e, names);
    }
  }

  lemma HandsOutApp(fx: Facts, e: Expr, names: set<string>)
    requires e.App?
    ensures HandsOut(fx, e, names) <==> HandedBelow(fx, e, names)
  {
    hide ReturnsItsArgument;
    if i :| 0 <= i < |e.args| && HandsOut(fx, e.args[i], names) {
      assert Children(e)[i + 1] == e.args[i];
      assert GivesBack(fx, e) ==> Passes(fx, Handing, e, i + 1);
    }
  }

  lemma HandsOutRest(fx: Facts, e: Expr, names: set<string>)
    requires !e.Match? && !e.Record? && !e.App?
    ensures HandsOut(fx, e, names) <==> (e.Var? && e.name in names) || HandedBelow(fx, e, names)
  {
    if e.Let? || e.Bind? || e.Borrow? || e.Proj? || e.Arena? {
      var i: nat := if e.Let? || e.Bind? then 1 else 0;
      assert Passes(fx, Handing, e, i) && HandsOut(fx, e, names) == HandsOut(fx, Children(e)[i], names);
    } else if e.Tuple? || e.List? {
      if i :| 0 <= i < |e.items| && HandsOut(fx, e.items[i], names) { assert Passes(fx, Handing, e, i); }
    }
  }

  ghost predicate HandedTo(fx: Facts, e: Expr, names: set<string>) {
    exists path, n :: n in names && LeadsTo(fx, Handing, e, path, Var(n))
  }

  /** An expression can hand out one of `names` exactly where one stands at a place its value
      comes from, through callees that give back what they are given. */
  lemma {:induction false} HandsOutIff(fx: Facts, e: Expr, names: set<string>)
    ensures HandsOut(fx, e, names) <==> HandedTo(fx, e, names)
    decreases e
  {
    hide HandsOut, Passes;
    HandsOutStep(fx, e, names);
    if HandsOut(fx, e, names) {
      if e.Var? && e.name in names {
        assert LeadsTo(fx, Handing, e, [], Var(e.name));
      } else {
        var i: nat :| i < |Children(e)| && Passes(fx, Handing, e, i) && HandsOut(fx, Children(e)[i], names);
        HandsOutIff(fx, Children(e)[i], names);
        var path, n :| n in names && LeadsTo(fx, Handing, Children(e)[i], path, Var(n));
        LeadsOn(fx, Handing, e, i, path, Var(n));
      }
    }
    if HandedTo(fx, e, names) {
      var path, n :| n in names && LeadsTo(fx, Handing, e, path, Var(n));
      if path != [] {
        assert LeadsTo(fx, Handing, Children(e)[path[0]], path[1..], Var(n));
        HandsOutIff(fx, Children(e)[path[0]], names);
      }
    }
  }

  // --------------------------------------------------------------- what is shared

  /** A pointer into what someone else owns arises here: a shared name, a field read, or a
      call that may give back an element of what it was lent. */
  predicate Foreign(fx: Facts, x: Expr, shared: set<string>) {
    || (x.Var? && x.name in shared) || x.Proj?
    || (x.App? && x.head.Var? && x.head.name in fx.shares) || TakesIdentity(fx, x)
  }

  ghost predicate SharedBelow(fx: Facts, e: Expr, shared: set<string>) {
    exists i: nat :: i < |Children(e)| && Passes(fx, Pointer, e, i) && MaybeShared(fx, Children(e)[i], shared)
  }

  lemma SharedStep(fx: Facts, e: Expr, shared: set<string>)
    ensures MaybeShared(fx, e, shared) <==> Foreign(fx, e, shared) || SharedBelow(fx, e, shared)
  {
    hide ReturnsItsArgument, Children;
    if e.Match? {
      ArmChildren(e);
      if MaybeShared(fx, e, shared) {
        var k :| 0 <= k < |e.arms| && MaybeShared(fx, e.arms[k].body, shared);
        assert Passes(fx, Pointer, e, k + 1) && Children(e)[k + 1] == e.arms[k].body;
      }
    } else if e.Record? {
      FieldChildren(e);
      if k :| 0 <= k < |e.fields| && MaybeShared(fx, e.fields[k].value, shared) {
        assert Passes(fx, Pointer, e, k + Skip(e)) && Children(e)[k + Skip(e)] == e.fields[k].value;
      }
      if e.base.Some? { assert Passes(fx, Pointer, e, 0); }
    } else {
      SharedRest(fx, e, shared);
    }
  }

  lemma SharedRest(fx: Facts, e: Expr, shared: set<string>)
    requires !e.Match? && !e.Record?
    ensures MaybeShared(fx, e, shared) <==> Foreign(fx, e, shared) || SharedBelow(fx, e, shared)
  {
    hide ReturnsItsArgument;
    if e.Let? || e.Bind? || e.Borrow? || e.Neg? || e.Not? || e.Arena? {
      var i: nat := if e.Let? || e.Bind? then 1 else 0;
      assert Passes(fx, Pointer, e, i) && MaybeShared(fx, e, shared) == MaybeShared(fx, Children(e)[i], shared);
    } else if e.Tuple? || e.List? {
      if i :| 0 <= i < |e.items| && MaybeShared(fx, e.items[i], shared) { assert Passes(fx, Pointer, e, i); }
    }
  }

  ghost predicate SharedTo(fx: Facts, e: Expr, shared: set<string>) {
    exists path, x :: LeadsTo(fx, Pointer, e, path, x) && Foreign(fx, x, shared)
  }

  lemma SharedAt(fx: Facts, e: Expr, shared: set<string>, path: seq<nat>, x: Expr)
    requires LeadsTo(fx, Pointer, e, path, x) && Foreign(fx, x, shared)
    ensures SharedTo(fx, e, shared)
  {}

  /** A value may be shared exactly where a pointer into what someone else owns arises at a
      place it comes from. */
  lemma {:induction false} SharedIff(fx: Facts, e: Expr, shared: set<string>)
    ensures MaybeShared(fx, e, shared) <==> SharedTo(fx, e, shared)
    decreases e
  {
    hide MaybeShared, Passes, Foreign;
    SharedStep(fx, e, shared);
    if MaybeShared(fx, e, shared) {
      if Foreign(fx, e, shared) {
        SharedAt(fx, e, shared, [], e);
      } else {
        var i: nat :| i < |Children(e)| && Passes(fx, Pointer, e, i) && MaybeShared(fx, Children(e)[i], shared);
        SharedIff(fx, Children(e)[i], shared);
        var path, x :| LeadsTo(fx, Pointer, Children(e)[i], path, x) && Foreign(fx, x, shared);
        LeadsOn(fx, Pointer, e, i, path, x);
        SharedAt(fx, e, shared, [i] + path, x);
      }
    }
    if SharedTo(fx, e, shared) {
      var path, x :| LeadsTo(fx, Pointer, e, path, x) && Foreign(fx, x, shared);
      if path != [] {
        SharedAt(fx, Children(e)[path[0]], shared, path[1..], x);
        SharedIff(fx, Children(e)[path[0]], shared);
      }
    }
  }

  // ------------------------------------------------------------------ arguments

  /** A name given to a call is handed on exactly where the callee is neither typed by a rule
      nor declares that position a borrow; otherwise it stays the caller's. */
  lemma ArgumentMovesIff(fx: Facts, h: Expr, args: seq<Expr>, i: nat, at: Pos, owned: seq<string>, moved: Moves,
                         shared: set<string>)
    requires i < |args| && args[i].Var? && args[i].name in owned && args[i].name !in moved
    ensures var o := Walk(fx, args[i], at, ArgMode(fx, h, i), owned, moved, shared);
            && o.errors == []
            && o.moved == if h.Var? && (h.name in fx.special
                                        || (h.name in fx.borrows && i < |fx.borrows[h.name]| && fx.borrows[h.name][i]))
                          then moved else moved[args[i].name := at]
  {}

  // -------------------------------------------------------------------- matches

  function ArmNames(arm: Arm): set<string> { set n | n in Names(arm.pat) }

  /** What the body of an arm has moved when it ends. */
  function BodyMoves(fx: Facts, arm: Arm, at: Pos, mode: Mode, owned: seq<string>, moved: Moves,
                     shared: set<string>): Moves {
    Walk(fx, arm.body, at, mode, Scoped(fx, owned, Names(arm.pat), at), moved - ArmNames(arm),
         shared + ArmNames(arm)).moved
  }

  ghost predicate TakesPayload(arm: Arm, moved: Moves) { exists n :: n in Names(arm.pat) && n in moved }

  /** What is moved after an arm, from what its body moved. */
  function Settled(scrut: Expr, bound: seq<string>, owned: seq<string>, moved: Moves, body: Moves): Moves {
    var names := set n | n in bound;
    var taken := Among(bound, body);
    var m := if scrut.Var? && scrut.name in owned && scrut.name !in body && taken != []
             then body[scrut.name := body[FirstOf(taken, bound, body)]] else body;
    (m - names) + (map n | n in moved && n in names :: moved[n])
  }

  lemma ArmSettles(fx: Facts, scrut: Expr, arm: Arm, at: Pos, mode: Mode, owned: seq<string>, moved: Moves,
                   shared: set<string>)
    ensures WalkArm(fx, scrut, arm, at, mode, owned, moved, shared).moved
         == Settled(scrut, Names(arm.pat), owned, moved, BodyMoves(fx, arm, at, mode, owned, moved, shared))
  {
    hide Walk, Scoped, Among, FirstOf, Names;
  }

  lemma {:induction false} AmongEmptyIff(bound: seq<string>, body: Moves)
    ensures Among(bound, body) != [] <==> exists n :: n in bound && n in body
  {
    if bound != [] {
      AmongEmptyIff(bound[1..], body);
      if n :| n in bound && n in body { assert n == bound[0] || n in bound[1..]; }
    }
  }

  lemma SettledIff(scrut: Expr, bound: seq<string>, owned: seq<string>, moved: Moves, body: Moves, x: string)
    ensures x in Settled(scrut, bound, owned, moved, body)
       <==> if x in bound then x in moved
            else x in body || (scrut == Var(x) && x in owned && exists n :: n in bound && n in body)
  {
    hide Among;
    AmongEmptyIff(bound, body);
  }

  /** A name counts as moved after an arm exactly where the body moved it, or where the match
      took it apart and the body moved a piece. A pattern's own names mean outside the arm
      what they meant before. */
  lemma ArmMovesIff(fx: Facts, scrut: Expr, arm: Arm, at: Pos, mode: Mode, owned: seq<string>, moved: Moves,
                    shared: set<string>, x: string)
    ensures var body := BodyMoves(fx, arm, at, mode, owned, moved, shared);
            x in WalkArm(fx, scrut, arm, at, mode, owned, moved, shared).moved
            <==> if x in Names(arm.pat) then x in moved
                 else x in body || (scrut == Var(x) && x in owned && TakesPayload(arm, body))
  {
    hide Walk, WalkArm, Settled, BodyMoves;
    ArmSettles(fx, scrut, arm, at, mode, owned, moved, shared);
    SettledIff(scrut, Names(arm.pat), owned, moved, BodyMoves(fx, arm, at, mode, owned, moved, shared), x);
  }

  /** After a match a name counts as moved exactly where looking at the scrutinee moved it, or
      some arm did. */
  lemma MatchMovesIff(fx: Facts, e: Expr, at: Pos, mode: Mode, owned: seq<string>, moved: Moves, shared: set<string>,
                      x: string)
    requires e.Match?
    ensures var o := Walk(fx, e.scrut, at + [0], Lend, owned, moved, shared).moved;
            x in Walk(fx, e, at, mode, owned, moved, shared).moved
            <==> x in o || SomeArmMoves(fx, e, at, mode, owned, o, shared, x)
  {
    hide WalkArm, Joined;
    var o := Walk(fx, e.scrut, at + [0], Lend, owned, moved, shared);
    var outs := WalkArms(fx, e, e.scrut, e.arms, at, 1, mode, owned, o.moved, shared);
    Disposal.JoinedHas(o.moved, outs, x);
  }

  predicate SomeArmMoves(fx: Facts, e: Expr, at: Pos, mode: Mode, owned: seq<string>, moved: Moves,
                         shared: set<string>, x: string)
    requires e.Match?
  {
    exists k :: 0 <= k < |e.arms|
                && x in WalkArm(fx, e.scrut, e.arms[k], at + [1 + k], mode, owned, moved, shared).moved
  }

  // --------------------------------------------------------------------- scopes

  lemma {:induction false} WithoutIff(names: seq<string>, gone: seq<string>, x: string)
    ensures x in Without(names, gone) <==> x in names && x !in gone
  {
    if names != [] { WithoutIff(names[1..], gone, x); }
  }

  lemma {:induction false} AffineIff(fx: Facts, names: seq<string>, at: Pos, x: string)
    ensures x in Affine(fx, names, at) <==> x in names && (at, x) in fx.affine
  {
    if names != [] { AffineIff(fx, names[1..], at, x); }
  }

  /** Under a binder a name is owned exactly where it was and is not bound anew, or where it is
      bound to what inference calls affine. */
  lemma ScopedIff(fx: Facts, owned: seq<string>, bound: seq<string>, at: Pos, x: string)
    ensures x in Scoped(fx, owned, bound, at)
       <==> if x in bound then (at, x) in fx.affine else x in owned
  {
    WithoutIff(owned, bound, x);
    AffineIff(fx, bound, at, x);
  }
}
