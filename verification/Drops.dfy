/** What the frees that code emission places do on every path (src/codegen.rs). */
module Drops {
  import opened Ast
  import opened Ownership

  // ------------------------------------------------------------ emitted code

  /** A body's C, reduced to what disposes of names. `Eval` evaluates the
      expression at a position, `Intro` declares the variable of a binder. */
  datatype Stmt = Eval(e: Expr, at: Pos, mode: Mode) | Intro(name: string, at: Pos) | Free(name: string)

  datatype Code = Then(first: Stmt, next: Code) | Switch(at: Pos, arms: seq<Code>) | Return | Again

  /** The names dropped at a place, as far as they have a variable in scope. */
  function NamesAt(drops: seq<Site>, at: Pos, when: When, scope: set<string>): seq<string> {
    if drops == [] then []
    else if drops[0].at == at && drops[0].when == when && drops[0].name in scope then
      [drops[0].name] + NamesAt(drops[1..], at, when, scope)
    else NamesAt(drops[1..], at, when, scope)
  }

  function Reverse(names: seq<string>): (r: seq<string>)
    ensures multiset(r) == multiset(names)
  {
    if names == [] then []
    else
      assert names == [names[0]] + names[1..];
      Reverse(names[1..]) + [names[0]]
  }

  function FreeAll(names: seq<string>, next: Code): Code {
    if names == [] then next else Then(Free(names[0]), FreeAll(names[1..], next))
  }

  predicate TailCall(fx: Facts, e: Expr, scope: set<string>) {
    e.App? && e.head.Var? && e.head.name == fx.fun && e.head.name !in scope && |e.args| == fx.arity
  }

  /** `e` in tail position, with `pending` owed by the enclosing scopes. */
  function Emit(fx: Facts, drops: seq<Site>, e: Expr, at: Pos, pending: seq<string>, scope: set<string>): Code
    decreases e
  {
    if Binder(e) then
      var within := scope + {e.name};
      var owed := pending + NamesAt(drops, at + [1], ScopeEnd, within * {e.name});
      Then(Eval(e.value, at + [0], Own), Then(Intro(e.name, at + [1]), Emit(fx, drops, e.body, at + [1], owed, within)))
    else if e.Match? then
      Then(Eval(e.scrut, at + [0], Lend), Switch(at, EmitArms(fx, drops, e, e.arms, at, 1, pending, scope)))
    else if TailCall(fx, e, scope) then
      var back := NamesAt(drops, at, BackEdge, scope);
      Then(Eval(e, at, Own), FreeAll(back, FreeAll(Without(Reverse(pending), back), Again)))
    else
      Then(Eval(e, at, Own), FreeAll(Reverse(pending), Return))
  }

  function EmitArms(fx: Facts, drops: seq<Site>, parent: Expr, arms: seq<Arm>, at: Pos, k: nat, pending: seq<string>,
                    scope: set<string>): (r: seq<Code>)
    requires forall i :: 0 <= i < |arms| ==> arms[i] < parent
    ensures |r| == |arms|
    ensures forall i :: 0 <= i < |arms| ==> r[i] == EmitArm(fx, drops, arms[i], at + [k + i], pending, scope)
    decreases parent, |arms|
  {
    if arms == [] then []
    else
      var rest := EmitArms(fx, drops, parent, arms[1..], at, k + 1, pending, scope);
      [EmitArm(fx, drops, arms[0], at + [k], pending, scope)] + rest
  }

  function EmitArm(fx: Facts, drops: seq<Site>, arm: Arm, at: Pos, pending: seq<string>, scope: set<string>): Code
    decreases arm
  {
    var within := scope + set n | n in Names(arm.pat);
    Emit(fx, drops, arm.body, at, pending + NamesAt(drops, at, ScopeEnd, within), within)
  }

  /** Code emission in tail position, with the stack of frees the enclosing
      scopes owe. */
  class Gen {
    const fx: Facts
    const drops: seq<Site>
    var pending: seq<string>

    constructor (fx: Facts, drops: seq<Site>)
      ensures this.fx == fx && this.drops == drops && pending == []
    {
      this.fx, this.drops, pending := fx, drops, [];
    }

    method Tail(e: Expr, at: Pos, scope: set<string>) returns (c: Code)
      modifies this
      ensures pending == old(pending) && c == Emit(fx, drops, e, at, old(pending), scope)
      decreases e
    {
      hide NamesAt, Reverse, Without, FreeAll, EmitArms, TailCall;
      if Binder(e) {
        var within := scope + {e.name};
        var mark := |pending|;
        pending := pending + NamesAt(drops, at + [1], ScopeEnd, within * {e.name});
        c := Tail(e.body, at + [1], within);
        pending := pending[..mark];
        c := Then(Eval(e.value, at + [0], Own), Then(Intro(e.name, at + [1]), c));
      } else if e.Match? {
        var arms := TailArms(e, at, scope);
        c := Then(Eval(e.scrut, at + [0], Lend), Switch(at, arms));
      } else if TailCall(fx, e, scope) {
        var back := NamesAt(drops, at, BackEdge, scope);
        c := Then(Eval(e, at, Own), FreeAll(back, FreeAll(Without(Reverse(pending), back), Again)));
      } else {
        c := Then(Eval(e, at, Own), FreeAll(Reverse(pending), Return));
      }
    }

    method TailArms(e: Expr, at: Pos, scope: set<string>) returns (r: seq<Code>)
      requires e.Match?
      modifies this
      ensures pending == old(pending) && r == EmitArms(fx, drops, e, e.arms, at, 1, old(pending), scope)
      decreases e, 0
    {
      hide NamesAt, Emit, EmitArms;
      ghost var all := EmitArms(fx, drops, e, e.arms, at, 1, pending, scope);
      r := [];
      var i := 0;
      while i < |e.arms|
        invariant 0 <= i <= |e.arms| && pending == old(pending) && r == all[..i]
      {
        var within := scope + set n | n in Names(e.arms[i].pat);
        var mark := |pending|;
        pending := pending + NamesAt(drops, at + [1 + i], ScopeEnd, within);
        var c := Tail(e.arms[i].body, at + [1 + i], within);
        pending := pending[..mark];
        assert all[i] == c;
        r := r + [c];
        i := i + 1;
      }
    }
  }

  // ------------------------------------------------------------------- paths

  /** What a run decides at each branch: the arm of a match, and whether the
      right operand of `&&` or `||` is evaluated (0 when it is not). */
  type Picks = Pos -> nat

  datatype Event = Born(name: string) | Lent(name: string) | Moved(name: string) | Freed(name: string)

  datatype Exit = Returned | Looped | Failed

  datatype Log = Log(events: seq<Event>, exit: Exit)

  /** The names evaluating `e` hands on, in order, along one path. */
  function Handed(fx: Facts, e: Expr, at: Pos, mode: Mode, picks: Picks): seq<string>
    decreases e
  {
    match e
    case Var(n) => if mode == Own then [n] else []
    case Borrow(x) => Handed(fx, x, at + [0], Lend, picks)
    case Neg(x) => Handed(fx, x, at + [0], mode, picks)
    case Arena(_, x) => Handed(fx, x, at + [0], mode, picks)
    case Not(x) => Handed(fx, x, at + [0], mode, picks)
    case Binop(op, a, b) =>
      Handed(fx, a, at + [0], mode, picks)
      + if ShortCircuit(op) && picks(at) == 0 then [] else Handed(fx, b, at + [1], mode, picks)
    case Tuple(xs) => HandedAll(fx, e, xs, AllIn(mode, |xs|), at, 0, picks)
    case List(xs) => HandedAll(fx, e, xs, AllIn(mode, |xs|), at, 0, picks)
    case App(h, args) =>
      Handed(fx, h, at + [0], Lend, picks) + HandedAll(fx, e, args, ArgModes(fx, h, |args|), at, 1, picks)
    case _ => []
  }

  function HandedAll(fx: Facts, parent: Expr, es: seq<Expr>, modes: seq<Mode>, at: Pos, k: nat,
                     picks: Picks): seq<string>
    requires |modes| == |es| && forall i :: 0 <= i < |es| ==> es[i] < parent
    decreases parent, |es|
  {
    if es == [] then []
    else Handed(fx, es[0], at + [k], modes[0], picks) + HandedAll(fx, parent, es[1..], modes[1..], at, k + 1, picks)
  }

  /** Every name evaluating `e` reads along one path, in order: lent, or handed on. */
  function Touched(fx: Facts, e: Expr, at: Pos, mode: Mode, picks: Picks): seq<Event>
    decreases e
  {
    match e
    case Var(n) => [if mode == Own then Event.Moved(n) else Event.Lent(n)]
    case Borrow(x) => Touched(fx, x, at + [0], Lend, picks)
    case Neg(x) => Touched(fx, x, at + [0], mode, picks)
    case Arena(_, x) => Touched(fx, x, at + [0], mode, picks)
    case Not(x) => Touched(fx, x, at + [0], mode, picks)
    case Binop(op, a, b) =>
      Touched(fx, a, at + [0], mode, picks)
      + if ShortCircuit(op) && picks(at) == 0 then [] else Touched(fx, b, at + [1], mode, picks)
    case Tuple(xs) => TouchedAll(fx, e, xs, AllIn(mode, |xs|), at, 0, picks)
    case List(xs) => TouchedAll(fx, e, xs, AllIn(mode, |xs|), at, 0, picks)
    case App(h, args) =>
      Touched(fx, h, at + [0], Lend, picks) + TouchedAll(fx, e, args, ArgModes(fx, h, |args|), at, 1, picks)
    case _ => []
  }

  function TouchedAll(fx: Facts, parent: Expr, es: seq<Expr>, modes: seq<Mode>, at: Pos, k: nat,
                      picks: Picks): seq<Event>
    requires |modes| == |es| && forall i :: 0 <= i < |es| ==> es[i] < parent
    decreases parent, |es|
  {
    if es == [] then []
    else Touched(fx, es[0], at + [k], modes[0], picks) + TouchedAll(fx, parent, es[1..], modes[1..], at, k + 1, picks)
  }

  /** The same when every operand is evaluated. */
  function Uses(fx: Facts, e: Expr, mode: Mode): seq<string>
    decreases e
  {
    match e
    case Var(n) => if mode == Own then [n] else []
    case Borrow(x) => Uses(fx, x, Lend)
    case Neg(x) => Uses(fx, x, mode)
    case Arena(_, x) => Uses(fx, x, mode)
    case Not(x) => Uses(fx, x, mode)
    case Binop(_, a, b) => Uses(fx, a, mode) + Uses(fx, b, mode)
    case Tuple(xs) => UsesAll(fx, e, xs, AllIn(mode, |xs|))
    case List(xs) => UsesAll(fx, e, xs, AllIn(mode, |xs|))
    case App(h, args) => Uses(fx, h, Lend) + UsesAll(fx, e, args, ArgModes(fx, h, |args|))
    case _ => []
  }

  function UsesAll(fx: Facts, parent: Expr, es: seq<Expr>, modes: seq<Mode>): seq<string>
    requires |modes| == |es| && forall i :: 0 <= i < |es| ==> es[i] < parent
    decreases parent, |es|
  {
    if es == [] then [] else Uses(fx, es[0], modes[0]) + UsesAll(fx, parent, es[1..], modes[1..])
  }

  /** Whether `x` is handed on inside the right operand of `&&` or `||`, which a
      run may never evaluate. */
  predicate Guarded(fx: Facts, e: Expr, mode: Mode, x: string)
    decreases e
  {
    match e
    case Borrow(y) => Guarded(fx, y, Lend, x)
    case Neg(y) => Guarded(fx, y, mode, x)
    case Arena(_, y) => Guarded(fx, y, mode, x)
    case Not(y) => Guarded(fx, y, mode, x)
    case Binop(op, a, b) =>
      Guarded(fx, a, mode, x) || Guarded(fx, b, mode, x) || (ShortCircuit(op) && x in Uses(fx, b, mode))
    case Tuple(xs) => GuardedAll(fx, e, xs, AllIn(mode, |xs|), x)
    case List(xs) => GuardedAll(fx, e, xs, AllIn(mode, |xs|), x)
    case App(h, args) => Guarded(fx, h, Lend, x) || GuardedAll(fx, e, args, ArgModes(fx, h, |args|), x)
    case _ => false
  }

  predicate GuardedAll(fx: Facts, parent: Expr, es: seq<Expr>, modes: seq<Mode>, x: string)
    requires |modes| == |es| && forall i :: 0 <= i < |es| ==> es[i] < parent
    decreases parent, |es|
  {
    es != [] && (Guarded(fx, es[0], modes[0], x) || GuardedAll(fx, parent, es[1..], modes[1..], x))
  }

  /** The events that concern owned names. */
  function Seen(evs: seq<Event>, owned: seq<string>): seq<Event> {
    if evs == [] then []
    else if evs[0].name in owned then [evs[0]] + Seen(evs[1..], owned)
    else Seen(evs[1..], owned)
  }

  /** The events of one pass over the emitted body. */
  function Trace(fx: Facts, c: Code, owned: seq<string>, picks: Picks): Log
    decreases c
  {
    match c
    case Then(s, next) =>
      var inner := if s.Intro? then Scoped(fx, owned, [s.name], s.at) else owned;
      var rest := Trace(fx, next, inner, picks);
      Log(StmtEvents(fx, s, owned, picks) + rest.events, rest.exit)
    case Switch(at, arms) => if picks(at) < |arms| then Trace(fx, arms[picks(at)], owned, picks) else Log([], Failed)
    case Return => Log([], Returned)
    case Again => Log([], Looped)
  }

  function StmtEvents(fx: Facts, s: Stmt, owned: seq<string>, picks: Picks): seq<Event> {
    match s
    case Eval(e, at, mode) => Seen(Touched(fx, e, at, mode, picks), owned)
    case Intro(n, at) => if (at, n) in fx.affine then [Born(n)] else []
    case Free(n) => [Freed(n)]
  }

  // ------------------------------------------------------------ the fragment

  /** Expressions without a binder, a branch on a pattern or a record. */
  predicate Plain(e: Expr)
    decreases e
  {
    match e
    case Borrow(x) => Plain(x)
    case Neg(x) => Plain(x)
    case Arena(_, x) => Plain(x)
    case Not(x) => Plain(x)
    case Binop(_, a, b) => Plain(a) && Plain(b)
    case Tuple(xs) => forall i :: 0 <= i < |xs| ==> Plain(xs[i])
    case List(xs) => forall i :: 0 <= i < |xs| ==> Plain(xs[i])
    case App(h, args) => Plain(h) && forall i :: 0 <= i < |args| ==> Plain(args[i])
    case Match(_, _) => false
    case Let(_, _, _) => false
    case Bind(_, _, _) => false
    case Lambda(_, _) => false
    case Record(_, _) => false
    case Proj(_, _) => false
    case _ => true
  }

  /** Binders and matches in tail position only. */
  predicate TailForm(e: Expr)
    decreases e
  {
    if Binder(e) then Plain(e.value) && TailForm(e.body)
    else if e.Match? then Plain(e.scrut) && e.arms != [] && forall k :: 0 <= k < |e.arms| ==> TailForm(e.arms[k].body)
    else Plain(e)
  }

  /** No binder reuses the name of an owned value in scope, and what patterns
      bind is not affine. */
  predicate NoShadow(fx: Facts, e: Expr, at: Pos, owned: seq<string>)
    decreases e
  {
    if Binder(e) then e.name !in owned && NoShadow(fx, e.body, at + [1], Scoped(fx, owned, [e.name], at + [1]))
    else if e.Match? then
      forall k :: 0 <= k < |e.arms| ==>
        ScalarPat(fx, e.arms[k].pat, at + [k + 1], owned) && NoShadow(fx, e.arms[k].body, at + [k + 1], owned)
    else true
  }

  predicate ScalarPat(fx: Facts, p: Pat, at: Pos, owned: seq<string>) {
    forall n :: n in Names(p) ==> n !in owned && (at, n) !in fx.affine
  }

  /** Whether `x` may stand for a value someone else owns anywhere in `e`. */
  predicate SharedIn(fx: Facts, e: Expr, shared: set<string>, x: string)
    decreases e
  {
    || x in shared
    || (Binder(e) && SharedIn(fx, e.body, LetShared(fx, e, shared), x))
    || (&& e.Match?
        && exists k :: 0 <= k < |e.arms| &&
             SharedIn(fx, e.arms[k].body, shared + (set n | n in Names(e.arms[k].pat)), x))
  }

  /** Whether the owned value `x` is handed on under a short-circuit operator. */
  predicate GuardedTail(fx: Facts, e: Expr, at: Pos, owned: seq<string>, x: string)
    decreases e
  {
    if Binder(e) then
      || (x in owned && Guarded(fx, e.value, Own, x))
      || GuardedTail(fx, e.body, at + [1], Scoped(fx, owned, [e.name], at + [1]), x)
    else if e.Match? then
      || (x in owned && Guarded(fx, e.scrut, Lend, x))
      || exists k :: 0 <= k < |e.arms| && GuardedTail(fx, e.arms[k].body, at + [k + 1], owned, x)
    else x in owned && Guarded(fx, e, Own, x)
  }

  // ---------------------------------------------------------------- counting

  lemma {:induction false} UnclaimedCount(fx: Facts, names: seq<string>, moved: Moves, shared: set<string>, x: string)
    ensures multiset(Unclaimed(fx, names, moved, shared))[x]
         == if x in moved || x in fx.leaves || x in shared then 0 else multiset(names)[x]
  {
    if names != [] {
      UnclaimedCount(fx, names[1..], moved, shared, x);
      assert names == [names[0]] + names[1..];
    }
  }

  lemma {:induction false} AmongCount(names: seq<string>, moved: Moves, x: string)
    ensures multiset(Among(names, moved))[x] == if x in moved then multiset(names)[x] else 0
  {
    if names != [] {
      AmongCount(names[1..], moved, x);
      assert names == [names[0]] + names[1..];
    }
  }

  lemma {:induction false} SitesForCount(names: seq<string>, at: Pos, when: When, s: Site)
    ensures multiset(SitesFor(names, at, when))[s]
         == if s.at == at && s.when == when then multiset(names)[s.name] else 0
  {
    if names != [] {
      SitesForCount(names[1..], at, when, s);
      assert names == [names[0]] + names[1..];
    }
  }

  lemma {:induction false} NamesAtCount(drops: seq<Site>, at: Pos, when: When, scope: set<string>, x: string)
    ensures multiset(NamesAt(drops, at, when, scope))[x]
         == if x in scope then multiset(drops)[Site(x, at, when)] else 0
  {
    if drops != [] {
      NamesAtCount(drops[1..], at, when, scope, x);
      assert drops == [drops[0]] + drops[1..];
    }
  }

  lemma {:induction false} WithoutCount(names: seq<string>, gone: seq<string>, x: string)
    ensures multiset(Without(names, gone))[x] == if x in gone then 0 else multiset(names)[x]
  {
    if names != [] {
      WithoutCount(names[1..], gone, x);
      assert names == [names[0]] + names[1..];
    }
  }

  lemma {:induction false} SeenCount(evs: seq<Event>, owned: seq<string>, ev: Event)
    ensures multiset(Seen(evs, owned))[ev] == if ev.name in owned then multiset(evs)[ev] else 0
  {
    if evs != [] {
      SeenCount(evs[1..], owned, ev);
      assert evs == [evs[0]] + evs[1..];
    }
  }

  /** The moves among what is read are what is handed on, and nothing is born or
      freed by reading. */
  lemma {:induction false} TouchedMoves(fx: Facts, e: Expr, at: Pos, mode: Mode, picks: Picks, ev: Event)
    requires !ev.Lent?
    ensures multiset(Touched(fx, e, at, mode, picks))[ev]
         == if ev.Moved? then multiset(Handed(fx, e, at, mode, picks))[ev.name] else 0
    decreases e, 1
  {
    hide TouchedAll, HandedAll, AllIn, ArgModes;
    match e
    case Var(_) => TouchedMovesVar(fx, e, at, mode, picks, ev);
    case Borrow(y) => TouchedMoves(fx, y, at + [0], Lend, picks, ev);
    case Neg(y) => TouchedMoves(fx, y, at + [0], mode, picks, ev);
    case Arena(_, y) => TouchedMoves(fx, y, at + [0], mode, picks, ev);
    case Not(y) => TouchedMoves(fx, y, at + [0], mode, picks, ev);
    case Binop(_, _, _) => TouchedMovesBinop(fx, e, at, mode, picks, ev);
    case Tuple(xs) => TouchedMovesAll(fx, e, xs, AllIn(mode, |xs|), at, 0, picks, ev);
    case List(xs) => TouchedMovesAll(fx, e, xs, AllIn(mode, |xs|), at, 0, picks, ev);
    case App(_, _) => TouchedMovesApp(fx, e, at, mode, picks, ev);
    case _ =>
  }

  lemma TouchedMovesVar(fx: Facts, e: Expr, at: Pos, mode: Mode, picks: Picks, ev: Event)
    requires e.Var? && !ev.Lent?
    ensures multiset(Touched(fx, e, at, mode, picks))[ev]
         == if ev.Moved? then multiset(Handed(fx, e, at, mode, picks))[ev.name] else 0
  {}

  lemma {:induction false} TouchedMovesBinop(fx: Facts, e: Expr, at: Pos, mode: Mode, picks: Picks, ev: Event)
    requires e.Binop? && !ev.Lent?
    ensures multiset(Touched(fx, e, at, mode, picks))[ev]
         == if ev.Moved? then multiset(Handed(fx, e, at, mode, picks))[ev.name] else 0
    decreases e, 0
  {
    TouchedMoves(fx, e.left, at + [0], mode, picks, ev);
    TouchedMoves(fx, e.right, at + [1], mode, picks, ev);
  }

  lemma {:induction false} TouchedMovesApp(fx: Facts, e: Expr, at: Pos, mode: Mode, picks: Picks, ev: Event)
    requires e.App? && !ev.Lent?
    ensures multiset(Touched(fx, e, at, mode, picks))[ev]
         == if ev.Moved? then multiset(Handed(fx, e, at, mode, picks))[ev.name] else 0
    decreases e, 0, |e.args| + 1
  {
    hide TouchedAll, HandedAll, ArgModes;
    TouchedMoves(fx, e.head, at + [0], Lend, picks, ev);
    TouchedMovesAll(fx, e, e.args, ArgModes(fx, e.head, |e.args|), at, 1, picks, ev);
  }

  lemma {:induction false} TouchedMovesAll(fx: Facts, parent: Expr, es: seq<Expr>, modes: seq<Mode>, at: Pos, k: nat,
                                           picks: Picks, ev: Event)
    requires !ev.Lent? && |modes| == |es| && forall i :: 0 <= i < |es| ==> es[i] < parent
    ensures multiset(TouchedAll(fx, parent, es, modes, at, k, picks))[ev]
         == if ev.Moved? then multiset(HandedAll(fx, parent, es, modes, at, k, picks))[ev.name] else 0
    decreases parent, 0, |es|
  {
    hide Touched, Handed;
    if es != [] {
      TouchedMoves(fx, es[0], at + [k], modes[0], picks, ev);
      TouchedMovesAll(fx, parent, es[1..], modes[1..], at, k + 1, picks, ev);
    }
  }

  lemma FreeTrace(fx: Facts, n: string, next: Code, owned: seq<string>, picks: Picks)
    ensures var rest := Trace(fx, next, owned, picks);
            Trace(fx, Then(Free(n), next), owned, picks) == Log([Freed(n)] + rest.events, rest.exit)
  {}

  lemma {:induction false} FreeAllTrace(fx: Facts, names: seq<string>, next: Code, owned: seq<string>, picks: Picks,
                                        ev: Event)
    ensures var log, rest := Trace(fx, FreeAll(names, next), owned, picks), Trace(fx, next, owned, picks);
            log.exit == rest.exit
            && multiset(log.events)[ev] == multiset(rest.events)[ev] + if ev.Freed? then multiset(names)[ev.name] else 0
  {
    hide Trace;
    if names != [] {
      FreeTrace(fx, names[0], FreeAll(names[1..], next), owned, picks);
      FreeAllTrace(fx, names[1..], next, owned, picks, ev);
      assert names == [names[0]] + names[1..];
    }
  }

  lemma {:induction false} WithoutNone(names: seq<string>, gone: seq<string>)
    requires forall n :: n in gone ==> n !in names
    ensures Without(names, gone) == names
  {
    if names != [] { WithoutNone(names[1..], gone); }
  }

  lemma {:induction false} AffineNone(fx: Facts, names: seq<string>, at: Pos)
    requires forall n :: n in names ==> (at, n) !in fx.affine
    ensures Affine(fx, names, at) == []
  {
    if names != [] { AffineNone(fx, names[1..], at); }
  }

  lemma ScopedPat(fx: Facts, p: Pat, at: Pos, owned: seq<string>)
    requires ScalarPat(fx, p, at, owned)
    ensures Scoped(fx, owned, Names(p), at) == owned
  {
    WithoutNone(owned, Names(p));
    AffineNone(fx, Names(p), at);
  }

  lemma ScopedLet(fx: Facts, n: string, at: Pos, owned: seq<string>)
    requires n !in owned
    ensures Scoped(fx, owned, [n], at) == if (at, n) in fx.affine then owned + [n] else owned
  {
    WithoutNone(owned, [n]);
    assert [n][1..] == [];
    assert Affine(fx, [n], at) == if (at, n) in fx.affine then [n] else [];
  }

  // --------------------------------------------------- where sites are placed

  /** A site the walk of the expression at `at` itself records; the end of the
      scope at `at` is recorded by whoever walks it. */
  predicate Inside(at: Pos, s: Site) {
    at <= s.at && !(s.at == at && s.when == ScopeEnd)
  }

  predicate Beneath(at: Pos, s: Site) {
    at <= s.at && |at| < |s.at|
  }

  ghost predicate AllInside(at: Pos, sites: seq<Site>) {
    forall s :: s in sites ==> Inside(at, s)
  }

  ghost predicate AllBeneath(at: Pos, sites: seq<Site>) {
    forall s :: s in sites ==> Beneath(at, s)
  }

  lemma ChildBeneath(at: Pos, k: nat, sites: seq<Site>)
    requires AllInside(at + [k], sites)
    ensures AllBeneath(at, sites)
  {
    forall s | s in sites ensures Beneath(at, s) {
      assert Inside(at + [k], s);
      assert at <= at + [k];
    }
  }

  lemma BeneathInside(at: Pos, sites: seq<Site>)
    requires AllBeneath(at, sites)
    ensures AllInside(at, sites)
  {}

  lemma {:induction false} SitesForInside(names: seq<string>, at: Pos)
    ensures AllInside(at, SitesFor(names, at, BackEdge))
  {
    if names != [] { SitesForInside(names[1..], at); }
  }

  lemma {:induction false} SitesForBeneath(names: seq<string>, at: Pos, k: nat)
    ensures AllBeneath(at, SitesFor(names, at + [k], ScopeEnd))
  {
    if names != [] { SitesForBeneath(names[1..], at, k); }
  }

  lemma {:induction false} SitesInside(fx: Facts, e: Expr, at: Pos, mode: Mode, owned: seq<string>, moved: Moves,
                                       shared: set<string>)
    ensures AllInside(at, Walk(fx, e, at, mode, owned, moved, shared).sites)
    decreases e, 2, 0
  {
    hide AllInside, AllBeneath, WalkAll, WalkBinder, WalkArms, Joined, AllSites, KeptSites, BackSites, AllIn;
    match e
    case Borrow(x) => ChildSites(fx, x, at, 0, Lend, owned, moved, shared);
    case Neg(x) => ChildSites(fx, x, at, 0, mode, owned, moved, shared);
    case Arena(_, x) => ChildSites(fx, x, at, 0, mode, owned, moved, shared);
    case Not(x) => ChildSites(fx, x, at, 0, mode, owned, moved, shared);
    case Binop(_, a, b) =>
      ChildSites(fx, a, at, 0, mode, owned, moved, shared);
      var o := Walk(fx, a, at + [0], mode, owned, moved, shared);
      ChildSites(fx, b, at, 1, mode, owned, o.moved, shared);
      InsideConcat(at, o.sites, Walk(fx, b, at + [1], mode, owned, o.moved, shared).sites);
    case Tuple(xs) => SitesBeneathAll(fx, e, xs, AllIn(mode, |xs|), at, 0, owned, moved, shared);
      BeneathInside(at, Walk(fx, e, at, mode, owned, moved, shared).sites);
    case List(xs) => SitesBeneathAll(fx, e, xs, AllIn(mode, |xs|), at, 0, owned, moved, shared);
      BeneathInside(at, Walk(fx, e, at, mode, owned, moved, shared).sites);
    case App(h, args) => SitesInsideApp(fx, e, at, mode, owned, moved, shared);
    case Let(_, _, _) => SitesInsideLet(fx, e, at, mode, owned, moved, shared);
    case Bind(_, _, _) => SitesInsideLet(fx, e, at, mode, owned, moved, shared);
    case Match(scrut, arms) => SitesInsideMatch(fx, e, at, mode, owned, moved, shared);
    case _ => NoSites(at);
  }

  lemma NoSites(at: Pos)
    ensures AllInside(at, []) && AllBeneath(at, [])
  {}

  lemma InsideConcat(at: Pos, a: seq<Site>, b: seq<Site>)
    requires AllInside(at, a) && AllInside(at, b)
    ensures AllInside(at, a + b)
  {}

  lemma BeneathConcat(at: Pos, a: seq<Site>, b: seq<Site>)
    requires AllBeneath(at, a) && AllBeneath(at, b)
    ensures AllBeneath(at, a + b)
  {}

  /** What a child records is beneath its parent. */
  lemma {:induction false} ChildSites(fx: Facts, e: Expr, at: Pos, k: nat, mode: Mode, owned: seq<string>, moved: Moves,
                               shared: set<string>)
    ensures AllBeneath(at, Walk(fx, e, at + [k], mode, owned, moved, shared).sites)
    ensures AllInside(at, Walk(fx, e, at + [k], mode, owned, moved, shared).sites)
    decreases e, 3, 0
  {
    hide AllInside, AllBeneath, Walk;
    SitesInside(fx, e, at + [k], mode, owned, moved, shared);
    ChildBeneath(at, k, Walk(fx, e, at + [k], mode, owned, moved, shared).sites);
    BeneathInside(at, Walk(fx, e, at + [k], mode, owned, moved, shared).sites);
  }

  lemma {:induction false} SitesBeneathAll(fx: Facts, parent: Expr, es: seq<Expr>, modes: seq<Mode>, at: Pos, k: nat,
                                           owned: seq<string>, moved: Moves, shared: set<string>)
    requires |modes| == |es| && forall i :: 0 <= i < |es| ==> es[i] < parent
    ensures AllBeneath(at, WalkAll(fx, parent, es, modes, at, k, owned, moved, shared).sites)
    decreases parent, 0, |es|
  {
    hide AllInside, AllBeneath, Walk;
    if es != [] {
      var o := Walk(fx, es[0], at + [k], modes[0], owned, moved, shared);
      ChildSites(fx, es[0], at, k, modes[0], owned, moved, shared);
      SitesBeneathAll(fx, parent, es[1..], modes[1..], at, k + 1, owned, o.moved, shared);
      BeneathConcat(at, o.sites, WalkAll(fx, parent, es[1..], modes[1..], at, k + 1, owned, o.moved, shared).sites);
    } else {
      NoSites(at);
    }
  }

  lemma {:induction false} SitesInsideApp(fx: Facts, e: Expr, at: Pos, mode: Mode, owned: seq<string>, moved: Moves,
                                          shared: set<string>)
    requires e.App?
    ensures AllInside(at, Walk(fx, e, at, mode, owned, moved, shared).sites)
    decreases e, 1, 0
  {
    hide AllInside, AllBeneath, Unclaimed, SelfCall, WalkAll;
    var o := Walk(fx, e.head, at + [0], Lend, owned, moved, shared);
    var r := WalkAll(fx, e, e.args, ArgModes(fx, e.head, |e.args|), at, 1, owned, o.moved, shared);
    ChildSites(fx, e.head, at, 0, Lend, owned, moved, shared);
    SitesBeneathAll(fx, e, e.args, ArgModes(fx, e.head, |e.args|), at, 1, owned, o.moved, shared);
    BeneathInside(at, r.sites);
    SitesForInside(Unclaimed(fx, owned, r.moved, shared), at);
    NoSites(at);
    var back := BackSites(fx, e, at, owned, r.moved, shared);
    InsideConcat(at, o.sites, r.sites);
    InsideConcat(at, o.sites + r.sites, back);
  }

  lemma {:induction false} SitesInsideLet(fx: Facts, e: Expr, at: Pos, mode: Mode, owned: seq<string>, moved: Moves,
                                          shared: set<string>)
    requires Binder(e)
    ensures AllInside(at, Walk(fx, e, at, mode, owned, moved, shared).sites)
    decreases e, 1, 0
  {
    hide AllInside, AllBeneath, Scoped, LetShared;
    var o := Walk(fx, e.value, at + [0], mode, owned, moved, shared);
    var inner, within := Scoped(fx, owned, [e.name], at + [1]), LetShared(fx, e, shared);
    var b := Walk(fx, e.body, at + [1], mode, inner, o.moved, within);
    ChildSites(fx, e.value, at, 0, mode, owned, moved, shared);
    ChildSites(fx, e.body, at, 1, mode, inner, o.moved, within);
    var own := LetSites(fx, e.name, at + [1], inner, b.moved, within);
    assert AllInside(at, own) by { LetInside(fx, e.name, at, inner, b.moved, within); }
    InsideConcat(at, o.sites, b.sites);
    InsideConcat(at, o.sites + b.sites, own);
  }

  lemma LetInside(fx: Facts, n: string, at: Pos, inner: seq<string>, moved: Moves, shared: set<string>)
    ensures AllInside(at, LetSites(fx, n, at + [1], inner, moved, shared))
  {}

  lemma {:induction false} SitesInsideMatch(fx: Facts, e: Expr, at: Pos, mode: Mode, owned: seq<string>, moved: Moves,
                                            shared: set<string>)
    requires e.Match?
    ensures AllInside(at, Walk(fx, e, at, mode, owned, moved, shared).sites)
    decreases e, 1, 0
  {
    hide AllInside, AllBeneath, WalkArms, Joined, AllSites, KeptSites;
    var o := Walk(fx, e.scrut, at + [0], Lend, owned, moved, shared);
    var outs := WalkArms(fx, e, e.scrut, e.arms, at, 1, mode, owned, o.moved, shared);
    var after := Joined(o.moved, outs);
    ChildSites(fx, e.scrut, at, 0, Lend, owned, moved, shared);
    forall i | 0 <= i < |e.arms| ensures AllInside(at + [i + 1], outs[i].sites) {
      ArmInside(fx, e.scrut, e.arms[i], at + [i + 1], mode, owned, o.moved, shared);
    }
    AllSitesBeneath(outs, at, 1);
    BeneathInside(at, AllSites(outs));
    KeptBeneath(fx, e.arms, outs, at, 1, owned, after, shared);
    BeneathInside(at, KeptSites(fx, e.arms, outs, at, 1, owned, after, shared));
    InsideConcat(at, o.sites, AllSites(outs));
    InsideConcat(at, o.sites + AllSites(outs), KeptSites(fx, e.arms, outs, at, 1, owned, after, shared));
  }

  lemma {:induction false} ArmInside(fx: Facts, scrut: Expr, arm: Arm, at: Pos, mode: Mode, owned: seq<string>,
                                     moved: Moves, shared: set<string>)
    ensures AllInside(at, WalkArm(fx, scrut, arm, at, mode, owned, moved, shared).sites)
    decreases arm
  {
    hide AllInside;
    var names := set n | n in Names(arm.pat);
    SitesInside(fx, arm.body, at, mode, Scoped(fx, owned, Names(arm.pat), at), moved - names, shared + names);
  }

  lemma {:induction false} AllSitesBeneath(outs: seq<Out>, at: Pos, k: nat)
    requires forall i :: 0 <= i < |outs| ==> AllInside(at + [k + i], outs[i].sites)
    ensures AllBeneath(at, AllSites(outs))
    decreases |outs|
  {
    hide AllInside, AllBeneath;
    if outs != [] {
      assert AllInside(at + [k + 0], outs[0].sites);
      ChildBeneath(at, k, outs[0].sites);
      forall i | 0 <= i < |outs| - 1 ensures AllInside(at + [k + 1 + i], outs[1..][i].sites) {
        assert AllInside(at + [k + (i + 1)], outs[i + 1].sites);
      }
      AllSitesBeneath(outs[1..], at, k + 1);
      BeneathConcat(at, outs[0].sites, AllSites(outs[1..]));
    } else {
      NoSites(at);
    }
  }

  lemma {:induction false} KeptBeneath(fx: Facts, arms: seq<Arm>, outs: seq<Out>, at: Pos, k: nat, owned: seq<string>,
                                       after: Moves, shared: set<string>)
    requires |outs| == |arms|
    ensures AllBeneath(at, KeptSites(fx, arms, outs, at, k, owned, after, shared))
    decreases |arms|
  {
    hide AllInside, AllBeneath, KeptNames;
    if arms != [] {
      var kept := KeptNames(fx, arms[0], outs[0], at + [k], owned, after, shared);
      SitesForBeneath(kept, at, k);
      KeptBeneath(fx, arms[1..], outs[1..], at, k + 1, owned, after, shared);
      BeneathConcat(at, SitesFor(kept, at + [k], ScopeEnd),
                    KeptSites(fx, arms[1..], outs[1..], at, k + 1, owned, after, shared));
    } else {
      NoSites(at);
    }
  }
}
