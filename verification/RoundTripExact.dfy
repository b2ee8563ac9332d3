/** Printing comes back exactly for the expressions whose signs and borrows stand
    where the printer may leave them bare (src/view.rs, src/parser.rs).

    The argument is about stretches of tokens. Parsing an expression uses up a
    stretch whose parentheses close, with as many marks as the expression has;
    so does printing it. Two such stretches that start together are the same, so
    a parse that yields what was printed has cut the tokens where printing put
    them together, all the way down. */
module RoundTripExact {
  import opened Wrappers
  import opened Ast
  import opened Printer
  import opened Parsing
  import opened RoundTrip

  // --------------------------------------------------- what the parser produces

  /** The trees of the fragment: literals without a sign, calls with arguments,
      tuples of two parts or more; signs and borrows anywhere. */
  predicate Producible(e: Expr)
    decreases e
  {
    match e
    case Int(n) => n >= 0
    case Float(x) => x >= 0.0
    case Neg(x) => Producible(x)
    case Not(x) => Producible(x)
    case Borrow(x) => Producible(x)
    case Proj(x, _) => Producible(x)
    case App(f, args) => Producible(f) && args != [] && forall i :: 0 <= i < |args| ==> Producible(args[i])
    case Binop(_, l, r) => Producible(l) && Producible(r)
    case Tuple(xs) => |xs| >= 2 && forall i :: 0 <= i < |xs| ==> Producible(xs[i])
    case List(xs) => forall i :: 0 <= i < |xs| ==> Producible(xs[i])
    case Lambda(_, b) => Producible(b)
    case Match(_, _) => false
    case Bind(_, _, _) => false
    case Let(_, _, _) => false
    case Record(_, _) => false
    case Arena(_, _) => false
    case _ => true
  }

  // ------------------------------------------------------------ closed stretches

  predicate Paren(t: Tok) { t == TOpen || t == TClose }

  /** How deep in parentheses `ts` ends when it starts `d` deep; nothing where it
      closes more than is open. */
  function Depth(ts: seq<Tok>, d: nat): Option<nat>
    decreases |ts|
  {
    if ts == [] then Some(d)
    else if ts[0] == TOpen then Depth(ts[1..], d + 1)
    else if ts[0] == TClose then (if d == 0 then None else Depth(ts[1..], d - 1))
    else Depth(ts[1..], d)
  }

  predicate Closed(ts: seq<Tok>) { Depth(ts, 0) == Some(0) }

  lemma {:induction false} DepthConcat(a: seq<Tok>, b: seq<Tok>, d: nat)
    ensures Depth(a + b, d) == match Depth(a, d) case None => None case Some(k) => Depth(b, k)
    decreases |a|
  {
    if a == [] {
      assert a + b == b;
    } else {
      assert (a + b)[1..] == a[1..] + b;
      if a[0] == TOpen { DepthConcat(a[1..], b, d + 1); }
      else if a[0] == TClose { if d > 0 { DepthConcat(a[1..], b, d - 1); } }
      else { DepthConcat(a[1..], b, d); }
    }
  }

  lemma {:induction false} DepthDeeper(ts: seq<Tok>, d: nat, up: nat)
    requires Depth(ts, d).Some?
    ensures Depth(ts, d + up) == Some(Depth(ts, d).value + up)
    decreases |ts|
  {
    if ts != [] {
      if ts[0] == TOpen { DepthDeeper(ts[1..], d + 1, up); }
      else if ts[0] == TClose { DepthDeeper(ts[1..], d - 1, up); }
      else { DepthDeeper(ts[1..], d, up); }
    }
  }

  lemma ClosedConcat(a: seq<Tok>, b: seq<Tok>)
    requires Closed(a)
    ensures Closed(a + b) <==> Closed(b)
  {
    DepthConcat(a, b, 0);
  }

  lemma ClosedOne(t: Tok)
    requires !Paren(t)
    ensures Closed([t]) && Marks([t]) == 1
  {
    assert [t][1..] == [];
  }

  lemma ClosedWrap(a: seq<Tok>)
    requires Closed(a)
    ensures Closed([TOpen] + a + [TClose])
  {
    DepthDeeper(a, 0, 1);
    assert [TClose][1..] == [];
    DepthConcat(a, [TClose], 1);
    assert [TOpen] + a + [TClose] == [TOpen] + (a + [TClose]);
    assert ([TOpen] + (a + [TClose]))[1..] == a + [TClose];
  }

  /** A closed stretch does not end by opening, nor begin by closing. */
  lemma ClosedEnds(a: seq<Tok>)
    requires Closed(a) && a != []
    ensures a[|a| - 1] != TOpen && a[0] != TClose
  {
    var init, last := a[..|a| - 1], a[|a| - 1];
    assert a == init + [last] && [last][1..] == [];
    DepthConcat(init, [last], 0);
  }

  /** Every token that is no parenthesis is a mark, and so is an empty pair. */
  function Marks(ts: seq<Tok>): nat
    decreases |ts|
  {
    if ts == [] then 0
    else
      (if ts[0] == TClose then 0
       else if ts[0] == TOpen then (if Peek(ts[1..]) == TClose then 1 else 0)
       else 1) + Marks(ts[1..])
  }

  lemma {:induction false} MarksConcat(a: seq<Tok>, b: seq<Tok>)
    requires a != [] ==> a[|a| - 1] != TOpen
    ensures Marks(a + b) == Marks(a) + Marks(b)
    decreases |a|
  {
    if a == [] {
      assert a + b == b;
    } else {
      assert (a + b)[1..] == a[1..] + b;
      if |a| > 1 { assert a[1..][|a| - 2] == a[|a| - 1]; }
      MarksConcat(a[1..], b);
    }
  }

  lemma MarksClosed(a: seq<Tok>, b: seq<Tok>)
    requires Closed(a)
    ensures Marks(a + b) == Marks(a) + Marks(b)
  {
    if a != [] { ClosedEnds(a); }
    MarksConcat(a, b);
  }

  lemma MarksWrap(a: seq<Tok>)
    requires Closed(a)
    ensures Marks([TOpen] + a + [TClose]) == if a == [] then 1 else Marks(a)
  {
    var all := [TOpen] + a + [TClose];
    assert all[1..] == a + [TClose];
    assert [TClose][1..] == [];
    MarksClosed(a, [TClose]);
    if a != [] {
      ClosedEnds(a);
      assert (a + [TClose])[0] == a[0];
    }
  }

  lemma {:induction false} OnlyOpening(z: seq<Tok>, d: nat)
    requires Marks(z) == 0 && z != [] && z[0] == TOpen
    ensures Depth(z, d) == Some(d + |z|)
    decreases |z|
  {
    if |z| > 1 {
      assert z[1..][0] == z[1] && z[1] != TClose;
      OnlyOpening(z[1..], d + 1);
    } else {
      assert z[1..] == [];
    }
  }

  /** Of two closed stretches at one place, as many marks in each, none is longer. */
  lemma SameStretch(x: seq<Tok>, y: seq<Tok>, s: seq<Tok>, t: seq<Tok>)
    requires x + s == y + t && Closed(x) && Closed(y) && Marks(x) == Marks(y)
    ensures x == y && s == t
  {
    if |x| <= |y| { NotLonger(x, y, s, t); } else { NotLonger(y, x, t, s); }
  }

  lemma NotLonger(x: seq<Tok>, y: seq<Tok>, s: seq<Tok>, t: seq<Tok>)
    requires x + s == y + t && Closed(x) && Closed(y) && Marks(x) == Marks(y) && |x| <= |y|
    ensures x == y && s == t
  {
    var z := y[|x|..];
    assert x == (x + s)[..|x|];
    assert (y + t)[..|x|] == y[..|x|];
    assert y == x + z;
    ClosedConcat(x, z);
    MarksClosed(x, z);
    if z != [] {
      ClosedEnds(z);
      OnlyOpening(z, 0);
    }
    assert s == (x + s)[|x|..] && t == (y + t)[|y|..];
  }

  /** A pair of parentheses closes at one place only. */
  lemma SameWrap(a: seq<Tok>, b: seq<Tok>, s: seq<Tok>, t: seq<Tok>)
    requires [TOpen] + a + [TClose] + s == [TOpen] + b + [TClose] + t && Closed(a) && Closed(b)
    ensures a == b && s == t
  {
    if |a| <= |b| { WrapNotLonger(a, b, s, t); } else { WrapNotLonger(b, a, t, s); }
  }

  lemma WrapNotLonger(a: seq<Tok>, b: seq<Tok>, s: seq<Tok>, t: seq<Tok>)
    requires [TOpen] + a + [TClose] + s == [TOpen] + b + [TClose] + t && Closed(a) && Closed(b) && |a| <= |b|
    ensures a == b && s == t
  {
    var x, y := [TOpen] + a + [TClose] + s, [TOpen] + b + [TClose] + t;
    assert a == x[1..1 + |a|] == y[1..1 + |a|] == b[..|a|];
    if |a| < |b| {
      assert b[|a|] == y[1 + |a|] == x[1 + |a|] == TClose;
      var rest := b[|a| + 1..];
      assert b == a + ([TClose] + rest);
      DepthConcat(a, [TClose] + rest, 0);
    } else {
      assert a == b;
      assert s == x[|a| + 2..] && t == y[|b| + 2..];
    }
  }

  /** A closed stretch that is part of a pair of parentheses is none of its starts. */
  lemma NoWrap(a: seq<Tok>, b: seq<Tok>, inner: seq<Tok>)
    requires [TOpen] + inner + [TClose] == a + b && Closed(a) && Closed(inner)
    ensures a == [] || b == []
  {
    if a != [] && b != [] {
      var all, k := a + b, |a| - 1;
      assert a == all[..|a|];
      assert all[..|a|] == [TOpen] + inner[..k];
      assert inner == inner[..k] + inner[k..];
      assert a[1..] == inner[..k];
      DepthConcat(inner[..k], inner[k..], 0);
      DepthDeeper(inner[..k], 0, 1);
    }
  }

  // ------------------------------------------------------------- marks of a tree

  function Size(e: Expr): nat {
    match e
    case App(f, args) => Size(f) + SizeAll(args)
    case Binop(_, l, r) => Size(l) + 1 + Size(r)
    case Neg(x) => 1 + Size(x)
    case Not(x) => 1 + Size(x)
    case Borrow(x) => 1 + Size(x)
    case Proj(x, _) => Size(x) + 2
    case Tuple(xs) => SizeItems(xs)
    case List(xs) => 1 + SizeItems(xs) + 1
    case Lambda(ps, b) => 1 + |ps| + 1 + Size(b)
    case _ => 1
  }

  function SizeAll(es: seq<Expr>): nat {
    if es == [] then 0 else Size(es[0]) + SizeAll(es[1..])
  }

  /** Items have commas between. */
  function SizeItems(es: seq<Expr>): nat {
    if es == [] then 0 else if |es| == 1 then Size(es[0]) else Size(es[0]) + 1 + SizeItems(es[1..])
  }

  lemma {:induction false} SizePositive(e: Expr)
    requires Producible(e)
    ensures Size(e) >= 1
    decreases e
  {
    match e
    case App(f, args) => SizePositive(f);
    case Proj(x, _) => SizePositive(x);
    case Tuple(xs) => SizePositive(xs[0]);
    case _ =>
  }

  /** Closed, with `n` marks. */
  predicate Stretch(ts: seq<Tok>, n: nat) { Closed(ts) && Marks(ts) == n }

  lemma StretchConcat(a: seq<Tok>, b: seq<Tok>, m: nat, n: nat)
    requires Stretch(a, m) && Stretch(b, n)
    ensures Stretch(a + b, m + n)
  {
    ClosedConcat(a, b);
    MarksClosed(a, b);
  }

  lemma StretchOne(t: Tok)
    requires !Paren(t)
    ensures Stretch([t], 1)
  {
    ClosedOne(t);
  }

  lemma StretchNone()
    ensures Stretch([], 0)
  {}

  lemma StretchWrap(a: seq<Tok>, n: nat)
    requires Stretch(a, n) && n >= 1
    ensures Stretch([TOpen] + a + [TClose], n)
  {
    ClosedWrap(a);
    MarksWrap(a);
    assert a != [];
  }

  lemma {:induction false} NameStretch(ps: seq<string>)
    ensures Stretch(NameToks(ps), |ps|)
  {
    hide Stretch;
    if ps == [] {
      StretchNone();
    } else {
      NameStretch(ps[1..]);
      StretchOne(TName(ps[0]));
      StretchConcat([TName(ps[0])], NameToks(ps[1..]), 1, |ps| - 1);
    }
  }

  /** What is printed of an expression is a closed stretch with its marks. */
  lemma {:induction false} FlatStretch(e: Expr, need: nat)
    requires Producible(e)
    ensures Stretch(Flat(e, need), Size(e))
    decreases e, 2
  {
    hide Stretch, Size;
    RawStretch(e);
    SizePositive(e);
    if Power(e) < need { StretchWrap(Raw(e), Size(e)); }
  }

  lemma {:induction false} RawStretch(e: Expr)
    requires Producible(e)
    ensures Stretch(Raw(e), Size(e))
    decreases e, 1
  {
    hide Stretch, Flat, FlatArgs, FlatItems, SizeAll, SizeItems;
    match e
    case App(_, _) => AppStretch(e);
    case Binop(_, _, _) => BinopStretch(e);
    case Neg(x) => PrefixStretch(TOp(Sub), x);
    case Not(x) => PrefixStretch(TBang, x);
    case Borrow(x) => PrefixStretch(TAmp, x);
    case Proj(_, _) => ProjStretch(e);
    case Tuple(_) => TupleStretch(e);
    case List(_) => ListStretch(e);
    case Lambda(_, _) => LambdaStretch(e);
    case Unit => UnitStretch();
    case Int(n) => StretchOne(TInt(n));
    case Float(x) => StretchOne(TFloat(x));
    case Str(s) => StretchOne(TStr(s));
    case Char(c) => StretchOne(TChar(c));
    case Bool(b) => StretchOne(TBool(b));
    case Var(n) => StretchOne(TName(n));
    case Ctor(n) => StretchOne(TCtor(n));
  }

  lemma StretchThree(a: seq<Tok>, b: seq<Tok>, c: seq<Tok>, k: nat, m: nat, n: nat)
    requires Stretch(a, k) && Stretch(b, m) && Stretch(c, n)
    ensures Stretch(a + b + c, k + m + n)
  {
    hide Stretch;
    StretchConcat(a, b, k, m);
    StretchConcat(a + b, c, k + m, n);
  }

  lemma FieldStretch(f: string)
    ensures Stretch([TDot, TName(f)], 2)
  {
    hide Stretch;
    StretchOne(TDot);
    StretchOne(TName(f));
    StretchConcat([TDot], [TName(f)], 1, 1);
    assert [TDot] + [TName(f)] == [TDot, TName(f)];
  }

  lemma {:induction false} TupleStretch(e: Expr)
    requires e.Tuple? && Producible(e)
    ensures Stretch(Raw(e), Size(e))
    decreases e, 0, |e.items| + 1
  {
    hide Stretch, Flat, FlatItems, SizeItems;
    SizePositive(e);
    ItemsStretch(e, e.items);
    StretchWrap(FlatItems(e, e.items), Size(e));
  }

  lemma {:induction false} AppStretch(e: Expr)
    requires e.App? && Producible(e)
    ensures Stretch(Raw(e), Size(e))
    decreases e, 0, |e.args| + 1
  {
    hide Stretch, Flat, FlatArgs, SizeAll;
    FlatStretch(e.head, 10);
    ArgsStretch(e, e.args);
    StretchConcat(Flat(e.head, 10), FlatArgs(e, e.args), Size(e.head), SizeAll(e.args));
  }

  lemma {:induction false} ProjStretch(e: Expr)
    requires e.Proj? && Producible(e)
    ensures Stretch(Raw(e), Size(e))
    decreases e, 0
  {
    hide Stretch, Flat;
    FlatStretch(e.of, 10);
    FieldStretch(e.field);
    StretchConcat(Flat(e.of, 10), [TDot, TName(e.field)], Size(e.of), 2);
  }

  lemma {:induction false} BinopStretch(e: Expr)
    requires e.Binop? && Producible(e)
    ensures Stretch(Raw(e), Size(e))
    decreases e, 0
  {
    hide Stretch, Flat;
    var p := Prec(e.op);
    FlatStretch(e.left, p);
    FlatStretch(e.right, p + 1);
    StretchOne(TOp(e.op));
    StretchThree(Flat(e.left, p), [TOp(e.op)], Flat(e.right, p + 1), Size(e.left), 1, Size(e.right));
  }

  lemma {:induction false} ListStretch(e: Expr)
    requires e.List? && Producible(e)
    ensures Stretch(Raw(e), Size(e))
    decreases e, 0, |e.items| + 1
  {
    hide Stretch, Flat, FlatItems, SizeItems;
    ItemsStretch(e, e.items);
    StretchOne(TOpenList);
    StretchOne(TCloseList);
    StretchThree([TOpenList], FlatItems(e, e.items), [TCloseList], 1, SizeItems(e.items), 1);
  }

  lemma {:induction false} LambdaStretch(e: Expr)
    requires e.Lambda? && Producible(e)
    ensures Stretch(Raw(e), Size(e))
    decreases e, 0
  {
    hide Stretch, Flat;
    FlatStretch(e.body, 0);
    NameStretch(e.params);
    StretchOne(TBackslash);
    StretchOne(TArrow);
    StretchThree([TBackslash], NameToks(e.params), [TArrow], 1, |e.params|, 1);
    StretchConcat([TBackslash] + NameToks(e.params) + [TArrow], Flat(e.body, 0), 1 + |e.params| + 1, Size(e.body));
  }

  lemma UnitStretch()
    ensures Stretch([TOpen, TClose], 1)
  {
    assert [TOpen, TClose] == [TOpen] + [] + [TClose];
    ClosedWrap([]);
    MarksWrap([]);
  }

  lemma {:induction false} PrefixStretch(t: Tok, x: Expr)
    requires !Paren(t) && Producible(x)
    ensures Stretch([t] + Flat(x, 10), 1 + Size(x))
    decreases x, 3
  {
    hide Stretch;
    FlatStretch(x, 10);
    StretchOne(t);
    StretchConcat([t], Flat(x, 10), 1, Size(x));
  }

  lemma {:induction false} ArgsStretch(parent: Expr, es: seq<Expr>)
    requires forall i :: 0 <= i < |es| ==> es[i] < parent && Producible(es[i])
    ensures Stretch(FlatArgs(parent, es), SizeAll(es))
    decreases parent, 0, |es|
  {
    hide Stretch, Flat, Size;
    if es == [] {
      StretchNone();
    } else {
      FlatStretch(es[0], 10);
      ArgsStretch(parent, es[1..]);
      StretchConcat(Flat(es[0], 10), FlatArgs(parent, es[1..]), Size(es[0]), SizeAll(es[1..]));
    }
  }

  lemma {:induction false} ItemsStretch(parent: Expr, es: seq<Expr>)
    requires forall i :: 0 <= i < |es| ==> es[i] < parent && Producible(es[i])
    ensures Stretch(FlatItems(parent, es), SizeItems(es))
    decreases parent, 0, |es|
  {
    hide Stretch, Flat, Size;
    if es == [] {
      StretchNone();
    } else {
      FlatStretch(es[0], 0);
      if |es| > 1 {
        ItemsStretch(parent, es[1..]);
        StretchOne(TComma);
        StretchThree(Flat(es[0], 0), [TComma], FlatItems(parent, es[1..]), Size(es[0]), 1, SizeItems(es[1..]));
      }
    }
  }

  // --------------------------------------------------------- what a parse takes

  /** Going from `ts` to `rest` takes a closed stretch with `n` marks. */
  predicate Takes(ts: seq<Tok>, rest: seq<Tok>, n: nat) {
    |rest| <= |ts| && ts[|ts| - |rest|..] == rest && Stretch(ts[..|ts| - |rest|], n)
  }

  /** No literal token carries a sign. */
  predicate Signless(ts: seq<Tok>) {
    forall i :: 0 <= i < |ts| ==> (ts[i].TInt? ==> ts[i].n >= 0) && (ts[i].TFloat? ==> ts[i].x >= 0.0)
  }

  lemma TakesNone(ts: seq<Tok>)
    ensures Takes(ts, ts, 0)
  {
    assert ts[..0] == [];
    StretchNone();
  }

  lemma TakesOne(ts: seq<Tok>)
    requires ts != [] && !Paren(ts[0])
    ensures Takes(ts, ts[1..], 1)
  {
    assert ts[..1] == [ts[0]];
    StretchOne(ts[0]);
  }

  lemma TakesThen(a: seq<Tok>, b: seq<Tok>, c: seq<Tok>, m: nat, n: nat)
    requires Takes(a, b, m) && Takes(b, c, n)
    ensures Takes(a, c, m + n) && (Signless(a) ==> Signless(b))
  {
    hide Stretch;
    var i, j := |a| - |b|, |b| - |c|;
    assert a[..i] + b[..j] == a[..i + j];
    StretchConcat(a[..i], b[..j], m, n);
    assert a[i + j..] == a[i..][j..];
  }

  lemma TakesWrap(ts: seq<Tok>, rest: seq<Tok>, n: nat)
    requires Peek(ts) == TOpen && Takes(ts[1..], rest, n) && n >= 1 && Peek(rest) == TClose
    ensures Takes(ts, rest[1..], n)
  {
    hide Stretch;
    var k := |ts| - 1 - |rest|;
    assert ts[..k + 2] == [TOpen] + ts[1..][..k] + [TClose] by {
      assert ts[k + 1..] == ts[1..][k..];
    }
    StretchWrap(ts[1..][..k], n);
    assert ts[k + 2..] == ts[1..][k..][1..];
  }

  lemma TakesUnit(ts: seq<Tok>)
    requires Peek(ts) == TOpen && Peek(ts[1..]) == TClose
    ensures Takes(ts, ts[2..], 1)
  {
    hide Stretch;
    assert ts[..2] == [TOpen, TClose];
    UnitStretch();
  }

  /** The parse takes as many marks as its tree has, and the tree is of the fragment. */
  predicate Made(ts: seq<Tok>, r: P<Expr>) {
    r.Ok? ==> Takes(ts, r.rest, Size(r.v)) && (Signless(ts) ==> Producible(r.v))
  }

  /** The same of a parse that adds to a tree already there. */
  predicate Grown(lhs: Expr, ts: seq<Tok>, r: P<Expr>) {
    r.Ok? ==>
      && Size(r.v) >= Size(lhs) && Takes(ts, r.rest, Size(r.v) - Size(lhs))
      && (Signless(ts) && Producible(lhs) ==> Producible(r.v))
  }

  predicate AllProducible(es: seq<Expr>) { forall i :: 0 <= i < |es| ==> Producible(es[i]) }

  predicate MadeArgs(ts: seq<Tok>, r: P<seq<Expr>>) {
    r.Ok? ==> Takes(ts, r.rest, SizeAll(r.v)) && (Signless(ts) ==> AllProducible(r.v))
  }

  predicate MadeItems(ts: seq<Tok>, r: P<seq<Expr>>) {
    r.Ok? ==> Takes(ts, r.rest, SizeItems(r.v)) && (Signless(ts) ==> AllProducible(r.v))
  }

  lemma {:induction false} ExprMade(ts: seq<Tok>)
    ensures Made(ts, PExpr(ts))
    decreases |ts|, 9
  {
    hide Made, PBin;
    BinMade(ts, 1);
  }

  lemma {:induction false} BinMade(ts: seq<Tok>, min: nat)
    ensures Made(ts, PBin(ts, min))
    decreases |ts|, 8
  {
    hide PUnary, PLoop, Takes, Signless, Producible, Size;
    UnaryMade(ts);
    if PUnary(ts).Ok? {
      var lhs, rest := PUnary(ts).v, PUnary(ts).rest;
      LoopGrown(lhs, rest, min);
      var r := PLoop(lhs, rest, min);
      if r.Ok? { TakesThen(ts, rest, r.rest, Size(lhs), Size(r.v) - Size(lhs)); }
    }
  }

  lemma {:induction false} LoopGrown(lhs: Expr, ts: seq<Tok>, min: nat)
    ensures Grown(lhs, ts, PLoop(lhs, ts, min))
    decreases |ts|, 1
  {
    hide PBin, PLoop, Takes, Signless;
    if Peek(ts).TOp? && Prec(ts[0].op) >= min {
      var p := Prec(ts[0].op) + 1;
      LoopStep(lhs, ts, min);
      BinMade(ts[1..], p);
      TakesOne(ts);
      var b := PBin(ts[1..], p);
      if b.Ok? {
        var e := Binop(ts[0].op, lhs, b.v);
        LoopGrown(e, b.rest, min);
        TakesThen(ts, ts[1..], b.rest, 1, Size(b.v));
        var r := PLoop(e, b.rest, min);
        if r.Ok? {
          TakesThen(ts[1..], b.rest, r.rest, Size(b.v), Size(r.v) - Size(e));
          TakesThen(ts, b.rest, r.rest, 1 + Size(b.v), Size(r.v) - Size(e));
        }
      }
    } else {
      LoopStops(lhs, ts, min);
      TakesNone(ts);
    }
  }

  lemma {:induction false} UnaryMade(ts: seq<Tok>)
    ensures Made(ts, PUnary(ts))
    decreases |ts|, 7
  {
    hide PApp, Takes, Signless;
    if Peek(ts) == TOp(Sub) || Peek(ts) == TBang {
      UnaryMade(ts[1..]);
      TakesOne(ts);
      var r := PUnary(ts[1..]);
      if r.Ok? { TakesThen(ts, ts[1..], r.rest, 1, Size(r.v)); }
    } else {
      AppMade(ts);
    }
  }

  lemma {:induction false} AppMade(ts: seq<Tok>)
    ensures Made(ts, PApp(ts))
    decreases |ts|, 6, 1
  {
    hide PPostfix, PArgs, Takes, Signless;
    PostfixMade(ts);
    if PPostfix(ts).Ok? {
      var h, rest := PPostfix(ts).v, PPostfix(ts).rest;
      ArgsMade(rest);
      var r := PArgs(rest);
      if r.Ok? { TakesThen(ts, rest, r.rest, Size(h), SizeAll(r.v)); }
    }
  }

  lemma {:induction false} ArgsMade(ts: seq<Tok>)
    ensures MadeArgs(ts, PArgs(ts))
    decreases |ts|, 6, 0
  {
    hide PPostfix, PArgs, Takes, Signless, Size, Producible;
    if !StartsAtom(Peek(ts)) {
      ArgsStop(ts);
      TakesNone(ts);
    } else if PPostfix(ts).Ok? {
      PostfixMade(ts);
      ArgsStep(ts);
      var a, rest := PPostfix(ts).v, PPostfix(ts).rest;
      ArgsMade(rest);
      var r := PArgs(rest);
      if r.Ok? {
        TakesThen(ts, rest, r.rest, Size(a), SizeAll(r.v));
        assert ([a] + r.v)[1..] == r.v;
      }
    } else {
      ArgsFail(ts);
    }
  }

  lemma ArgsFail(ts: seq<Tok>)
    requires StartsAtom(Peek(ts)) && PPostfix(ts).Err?
    ensures PArgs(ts).Err?
  {
    hide PPostfix;
  }

  lemma {:induction false} PostfixMade(ts: seq<Tok>)
    ensures Made(ts, PPostfix(ts))
    decreases |ts|, 5
  {
    hide PAtom, PFields, Takes, Signless;
    if Peek(ts) == TAmp {
      PostfixMade(ts[1..]);
      TakesOne(ts);
      var r := PPostfix(ts[1..]);
      if r.Ok? { TakesThen(ts, ts[1..], r.rest, 1, Size(r.v)); }
    } else {
      AtomMade(ts);
      if PAtom(ts).Ok? {
        var e, rest := PAtom(ts).v, PAtom(ts).rest;
        FieldsGrown(e, rest);
        var r := PFields(e, rest);
        if r.Ok? { TakesThen(ts, rest, r.rest, Size(e), Size(r.v) - Size(e)); }
      }
    }
  }

  lemma FieldsStep(e: Expr, ts: seq<Tok>)
    ensures PFields(e, ts) == if Peek(ts) != TDot then Ok(e, ts)
                              else if Peek(ts[1..]).TName? then PFields(Proj(e, ts[1].name), ts[2..])
                              else Err
  {}

  lemma {:induction false} FieldsGrown(e: Expr, ts: seq<Tok>)
    ensures Grown(e, ts, PFields(e, ts))
    decreases |ts|
  {
    hide Takes, Signless, PFields;
    FieldsStep(e, ts);
    if Peek(ts) == TDot && Peek(ts[1..]).TName? {
      TakesOne(ts);
      TakesOne(ts[1..]);
      assert ts[1..][1..] == ts[2..];
      TakesThen(ts, ts[1..], ts[2..], 1, 1);
      FieldsGrown(Proj(e, ts[1].name), ts[2..]);
      var r := PFields(e, ts);
      if r.Ok? {
        TakesThen(ts[1..], ts[2..], r.rest, 1, Size(r.v) - Size(e) - 2);
        TakesThen(ts, ts[2..], r.rest, 2, Size(r.v) - Size(e) - 2);
      }
    } else {
      TakesNone(ts);
    }
  }

  lemma {:induction false} NamesMade(ts: seq<Tok>)
    ensures Takes(ts, PNames(ts).1, |PNames(ts).0|)
  {
    hide Takes;
    if Peek(ts).TName? {
      TakesOne(ts);
      NamesMade(ts[1..]);
      var r := PNames(ts[1..]);
      TakesThen(ts, ts[1..], r.1, 1, |r.0|);
    } else {
      TakesNone(ts);
    }
  }

  lemma {:induction false} AtomMade(ts: seq<Tok>)
    ensures Made(ts, PAtom(ts))
    decreases |ts|, 4
  {
    hide PExpr, PItems, PNames, Takes, Made;
    match Peek(ts)
    case TBackslash => LambdaMade(ts);
    case TOpen => OpenMade(ts);
    case TOpenList => ListMade(ts);
    case _ => LiteralMade(ts);
  }

  lemma LiteralMade(ts: seq<Tok>)
    requires Peek(ts) != TBackslash && Peek(ts) != TOpen && Peek(ts) != TOpenList
    ensures Made(ts, PAtom(ts))
  {
    hide PExpr, PItems, PNames, Takes;
    if ts != [] && !Paren(ts[0]) { TakesOne(ts); }
  }

  lemma {:induction false} LambdaMade(ts: seq<Tok>)
    requires Peek(ts) == TBackslash
    ensures Made(ts, PAtom(ts))
    decreases |ts|, 3
  {
    hide PExpr, PItems, PNames, Takes, Signless;
    var (ps, rest) := PNames(ts[1..]);
    TakesOne(ts);
    NamesMade(ts[1..]);
    TakesThen(ts, ts[1..], rest, 1, |ps|);
    if Peek(rest) == TArrow {
      TakesOne(rest);
      TakesThen(ts, rest, rest[1..], 1 + |ps|, 1);
      TakesThen(ts[1..], rest, rest[1..], |ps|, 1);
      ExprMade(rest[1..]);
      var r := PExpr(rest[1..]);
      if r.Ok? { TakesThen(ts, rest[1..], r.rest, 1 + |ps| + 1, Size(r.v)); }
    }
  }

  lemma {:induction false} SizeItemsPositive(xs: seq<Expr>, ts: seq<Tok>, rest: seq<Tok>)
    requires Takes(ts, rest, SizeItems(xs)) && |rest| < |ts| && Peek(ts) != TClose
    ensures SizeItems(xs) >= 1
  {
    var a := ts[..|ts| - |rest|];
    if Marks(a) == 0 { OnlyOpening(a, 0); }
  }

  lemma {:induction false} OpenMade(ts: seq<Tok>)
    requires Peek(ts) == TOpen
    ensures Made(ts, PAtom(ts))
    decreases |ts|, 3
  {
    hide PExpr, PItems, PNames, Takes, Signless;
    if Peek(ts[1..]) == TClose {
      TakesUnit(ts);
    } else {
      ItemsMade(ts[1..]);
      var r := PItems(ts[1..]);
      if r.Ok? && Peek(r.rest) == TClose {
        SizeItemsPositive(r.v, ts[1..], r.rest);
        TakesWrap(ts, r.rest, SizeItems(r.v));
        TailSignless(ts);
      }
    }
  }

  lemma TailSignless(ts: seq<Tok>)
    requires ts != []
    ensures Signless(ts) ==> Signless(ts[1..])
  {}

  lemma {:induction false} ListMade(ts: seq<Tok>)
    requires Peek(ts) == TOpenList
    ensures Made(ts, PAtom(ts))
    decreases |ts|, 3
  {
    hide PExpr, PItems, PNames, Takes, Signless;
    TakesOne(ts);
    TailSignless(ts);
    if Peek(ts[1..]) == TCloseList {
      TakesOne(ts[1..]);
      assert ts[1..][1..] == ts[2..];
      TakesThen(ts, ts[1..], ts[2..], 1, 1);
    } else {
      ItemsMade(ts[1..]);
      var r := PItems(ts[1..]);
      if r.Ok? && Peek(r.rest) == TCloseList {
        TakesOne(r.rest);
        TakesThen(ts, ts[1..], r.rest, 1, SizeItems(r.v));
        TakesThen(ts, r.rest, r.rest[1..], 1 + SizeItems(r.v), 1);
      }
    }
  }

  lemma {:induction false} ItemsMade(ts: seq<Tok>)
    ensures MadeItems(ts, PItems(ts))
    decreases |ts|, 10
  {
    hide PExpr, PItems, Takes, Signless, Size, Producible;
    ExprMade(ts);
    var x := PExpr(ts);
    ItemsStep(ts);
    if x.Ok? && Peek(x.rest) == TComma {
      TakesOne(x.rest);
      TakesThen(ts, x.rest, x.rest[1..], Size(x.v), 1);
      ItemsMade(x.rest[1..]);
      var r := PItems(x.rest[1..]);
      TailSignless(x.rest);
      TakesThen(ts, x.rest, x.rest[1..], Size(x.v), 1);
      if r.Ok? {
        TakesThen(ts, x.rest[1..], r.rest, Size(x.v) + 1, SizeItems(r.v));
        assert ([x.v] + r.v)[1..] == r.v;
      }
    }
  }

  lemma ItemsStep(ts: seq<Tok>)
    ensures PItems(ts) ==
              match PExpr(ts)
              case Err => Err
              case Ok(x, rest) =>
                if Peek(rest) != TComma then Ok([x], rest)
                else match PItems(rest[1..])
                     case Err => Err
                     case Ok(more, after) => Ok([x] + more, after)
  {
    hide PExpr;
  }

  // ------------------------------------------------------ loops, turn by turn

  /** The loop over operators, started with `lhs` before `ts`, comes to `e` before `rest`. */
  predicate Turns(lhs: Expr, ts: seq<Tok>, min: nat, e: Expr, rest: seq<Tok>)
    decreases |ts|
  {
    || (lhs == e && ts == rest)
    || (&& Peek(ts).TOp? && Prec(ts[0].op) >= min
        && var b := PBin(ts[1..], Prec(ts[0].op) + 1);
           b.Ok? && Turns(Binop(ts[0].op, lhs, b.v), b.rest, min, e, rest))
  }

  /** An operand and then the loop. */
  predicate Reaches(ts: seq<Tok>, min: nat, e: Expr, rest: seq<Tok>) {
    PUnary(ts).Ok? && Turns(PUnary(ts).v, PUnary(ts).rest, min, e, rest)
  }

  lemma {:induction false} LoopTurns(lhs: Expr, ts: seq<Tok>, min: nat)
    requires PLoop(lhs, ts, min).Ok?
    ensures Turns(lhs, ts, min, PLoop(lhs, ts, min).v, PLoop(lhs, ts, min).rest)
    decreases |ts|
  {
    hide PBin, PLoop;
    if Peek(ts).TOp? && Prec(ts[0].op) >= min {
      LoopStep(lhs, ts, min);
      var b := PBin(ts[1..], Prec(ts[0].op) + 1);
      if b.Ok? { LoopTurns(Binop(ts[0].op, lhs, b.v), b.rest, min); }
    } else {
      LoopStops(lhs, ts, min);
    }
  }

  lemma BinReaches(ts: seq<Tok>, min: nat)
    requires PBin(ts, min).Ok?
    ensures Reaches(ts, min, PBin(ts, min).v, PBin(ts, min).rest)
  {
    hide PUnary, PLoop, Turns;
    LoopTurns(PUnary(ts).v, PUnary(ts).rest, min);
  }

  lemma TurnsStep(lhs: Expr, ts: seq<Tok>, min: nat, e: Expr, rest: seq<Tok>) returns (b: P<Expr>)
    requires Turns(lhs, ts, min, e, rest) && !(lhs == e && ts == rest)
    ensures Peek(ts).TOp? && b == PBin(ts[1..], Prec(ts[0].op) + 1) && b.Ok?
    ensures Turns(Binop(ts[0].op, lhs, b.v), b.rest, min, e, rest)
  {
    hide PBin;
    b := PBin(ts[1..], Prec(ts[0].op) + 1);
  }

  lemma {:induction false} TurnsGrown(lhs: Expr, ts: seq<Tok>, min: nat, e: Expr, rest: seq<Tok>)
    requires Turns(lhs, ts, min, e, rest)
    ensures Size(e) >= Size(lhs) && Takes(ts, rest, Size(e) - Size(lhs))
    decreases |ts|
  {
    hide PBin, Takes, Signless, Producible, Turns;
    if lhs == e && ts == rest {
      TakesNone(ts);
    } else {
      var b := TurnsStep(lhs, ts, min, e, rest);
      var next := Binop(ts[0].op, lhs, b.v);
      TakesOne(ts);
      BinMade(ts[1..], Prec(ts[0].op) + 1);
      TurnsGrown(next, b.rest, min, e, rest);
      TakesThen(ts, ts[1..], b.rest, 1, Size(b.v));
      TakesThen(ts, b.rest, rest, 1 + Size(b.v), Size(e) - Size(next));
    }
  }

  lemma ReachesTakes(ts: seq<Tok>, min: nat, e: Expr, rest: seq<Tok>)
    requires Reaches(ts, min, e, rest)
    ensures Takes(ts, rest, Size(e))
  {
    hide PUnary, Turns, Takes, Signless;
    var u := PUnary(ts);
    UnaryMade(ts);
    TurnsGrown(u.v, u.rest, min, e, rest);
    TakesThen(ts, u.rest, rest, Size(u.v), Size(e) - Size(u.v));
  }

  /** Where the loop turned, its last turn made the root. */
  lemma {:induction false} LastTurn(lhs: Expr, ts: seq<Tok>, min: nat, e: Expr, rest: seq<Tok>) returns (mid: seq<Tok>)
    requires Turns(lhs, ts, min, e, rest) && !(lhs == e && ts == rest)
    ensures e.Binop? && Turns(lhs, ts, min, e.left, mid)
    ensures Peek(mid) == TOp(e.op) && PBin(mid[1..], Prec(e.op) + 1) == Ok(e.right, rest)
    decreases |ts|
  {
    hide PBin;
    var b := PBin(ts[1..], Prec(ts[0].op) + 1);
    var next := Binop(ts[0].op, lhs, b.v);
    if next == e && b.rest == rest {
      mid := ts;
    } else {
      mid := LastTurn(next, b.rest, min, e, rest);
    }
  }

  lemma {:induction false} TurnsShorten(lhs: Expr, ts: seq<Tok>, min: nat, e: Expr, rest: seq<Tok>)
    requires Turns(lhs, ts, min, e, rest)
    ensures |rest| <= |ts| && (|rest| == |ts| ==> lhs == e && ts == rest)
    decreases |ts|
  {
    hide PBin;
    if !(lhs == e && ts == rest) {
      var b := PBin(ts[1..], Prec(ts[0].op) + 1);
      TurnsShorten(Binop(ts[0].op, lhs, b.v), b.rest, min, e, rest);
    }
  }

  /** The loop over fields, turn by turn. */
  predicate Fields(of: Expr, ts: seq<Tok>, e: Expr, rest: seq<Tok>)
    decreases |ts|
  {
    || (of == e && ts == rest)
    || (Peek(ts) == TDot && Peek(ts[1..]).TName? && Fields(Proj(of, ts[1].name), ts[2..], e, rest))
  }

  /** An atom and then the loop. */
  predicate Selects(ts: seq<Tok>, e: Expr, rest: seq<Tok>) {
    Peek(ts) != TAmp && PAtom(ts).Ok? && Fields(PAtom(ts).v, PAtom(ts).rest, e, rest)
  }

  lemma {:induction false} FieldsTurn(of: Expr, ts: seq<Tok>)
    requires PFields(of, ts).Ok?
    ensures Fields(of, ts, PFields(of, ts).v, PFields(of, ts).rest)
    decreases |ts|
  {
    hide PFields;
    FieldsStep(of, ts);
    if Peek(ts) == TDot { FieldsTurn(Proj(of, ts[1].name), ts[2..]); }
  }

  lemma PostfixSelects(ts: seq<Tok>)
    requires PPostfix(ts).Ok? && Peek(ts) != TAmp
    ensures Selects(ts, PPostfix(ts).v, PPostfix(ts).rest)
  {
    hide PAtom, PFields, Fields;
    FieldsTurn(PAtom(ts).v, PAtom(ts).rest);
  }

  lemma FieldTurned(of: Expr, ts: seq<Tok>, e: Expr, rest: seq<Tok>)
    requires Fields(of, ts, e, rest) && !(of == e && ts == rest)
    ensures Peek(ts) == TDot && Peek(ts[1..]).TName? && Fields(Proj(of, ts[1].name), ts[2..], e, rest)
  {}

  lemma {:induction false} FieldsTakes(of: Expr, ts: seq<Tok>, e: Expr, rest: seq<Tok>)
    requires Fields(of, ts, e, rest)
    ensures Size(e) >= Size(of) && Takes(ts, rest, Size(e) - Size(of))
    decreases |ts|
  {
    hide Takes, Signless, Fields;
    if of == e && ts == rest {
      TakesNone(ts);
    } else {
      FieldTurned(of, ts, e, rest);
      var next := Proj(of, ts[1].name);
      TakesOne(ts);
      TakesOne(ts[1..]);
      assert ts[1..][1..] == ts[2..];
      TakesThen(ts, ts[1..], ts[2..], 1, 1);
      FieldsTakes(next, ts[2..], e, rest);
      TakesThen(ts, ts[2..], rest, 2, Size(e) - Size(next));
    }
  }

  lemma SelectsTakes(ts: seq<Tok>, e: Expr, rest: seq<Tok>)
    requires Selects(ts, e, rest)
    ensures Takes(ts, rest, Size(e))
  {
    hide PAtom, Fields, Takes, Signless;
    var a := PAtom(ts);
    AtomMade(ts);
    FieldsTakes(a.v, a.rest, e, rest);
    TakesThen(ts, a.rest, rest, Size(a.v), Size(e) - Size(a.v));
  }

  lemma {:induction false} LastField(of: Expr, ts: seq<Tok>, e: Expr, rest: seq<Tok>) returns (mid: seq<Tok>)
    requires Fields(of, ts, e, rest) && !(of == e && ts == rest)
    ensures e.Proj? && Fields(of, ts, e.of, mid)
    ensures Peek(mid) == TDot && Peek(mid[1..]) == TName(e.field) && mid[2..] == rest
    decreases |ts|
  {
    var next := Proj(of, ts[1].name);
    if next == e && ts[2..] == rest {
      mid := ts;
    } else {
      mid := LastField(next, ts[2..], e, rest);
    }
  }

  lemma {:induction false} FieldsShorten(of: Expr, ts: seq<Tok>, e: Expr, rest: seq<Tok>)
    requires Fields(of, ts, e, rest)
    ensures |rest| <= |ts| && (|rest| == |ts| ==> of == e && ts == rest)
    decreases |ts|
  {
    if !(of == e && ts == rest) { FieldsShorten(Proj(of, ts[1].name), ts[2..], e, rest); }
  }

  // ------------------------------------------------- which rule made the root

  /** A closed stretch of the printing, and a parse that takes as many marks from
      its start, end at one place. */
  lemma SameCut(x: seq<Tok>, tail: seq<Tok>, rest: seq<Tok>, n: nat)
    requires Stretch(x, n) && Takes(x + tail, rest, n)
    ensures rest == tail
  {
    var ts := x + tail;
    var y := ts[..|ts| - |rest|];
    assert ts == y + rest;
    SameStretch(x, y, tail, rest);
  }

  predicate Compound(e: Expr) { e.App? || e.Binop? || e.Proj? || e.Tuple? }

  lemma CompoundOpens(ts: seq<Tok>)
    requires PAtom(ts).Ok? && Compound(PAtom(ts).v)
    ensures Peek(ts) == TOpen && Peek(ts[1..]) != TClose
  {
    hide PExpr, PItems, PNames;
  }

  lemma AtomOpens(ts: seq<Tok>)
    requires PAtom(ts).Ok? && Peek(ts) == TOpen && Peek(ts[1..]) != TClose
    ensures PItems(ts[1..]).Ok?
    ensures var e, rest, r := PAtom(ts).v, PAtom(ts).rest, PItems(ts[1..]);
            && Peek(r.rest) == TClose && r.rest[1..] == rest
            && (|r.v| == 1 ==> e == r.v[0]) && (|r.v| != 1 ==> e == Tuple(r.v))
  {
    hide PExpr, PItems, PNames;
  }

  lemma WrapParts(ts: seq<Tok>, close: seq<Tok>, n: nat) returns (inner: seq<Tok>)
    requires Peek(ts) == TOpen && Takes(ts[1..], close, n) && Peek(close) == TClose
    ensures Stretch(inner, n) && inner + close == ts[1..]
    ensures ts == [TOpen] + inner + [TClose] + close[1..] && close == [TClose] + close[1..]
  {
    hide Stretch;
    var k := |ts| - 1 - |close|;
    inner := ts[1..][..k];
    assert ts == [TOpen] + ts[1..] && ts[1..] == inner + close;
  }

  /** A tree no atom makes by itself came out of parentheses. */
  lemma AtomWrapped(ts: seq<Tok>, e: Expr, rest: seq<Tok>) returns (inner: seq<Tok>)
    requires PAtom(ts) == Ok(e, rest) && Compound(e)
    ensures Closed(inner) && ts == [TOpen] + inner + [TClose] + rest
  {
    hide PAtom, PItems, SizeItems, Takes, Signless;
    CompoundOpens(ts);
    AtomOpens(ts);
    ItemsMade(ts[1..]);
    var r := PItems(ts[1..]);
    inner := WrapParts(ts, r.rest, SizeItems(r.v));
  }

  lemma OneItem(ts: seq<Tok>)
    requires PItems(ts).Ok? && |PItems(ts).v| == 1
    ensures PExpr(ts) == Ok(PItems(ts).v[0], PItems(ts).rest) && Peek(PItems(ts).rest) != TComma
  {
    hide PExpr, PItems;
    ItemsStep(ts);
  }

  lemma UnaryCases(ts: seq<Tok>, e: Expr, rest: seq<Tok>)
    requires PUnary(ts) == Ok(e, rest)
    ensures Peek(ts) == TOp(Sub) ==> e.Neg? && PUnary(ts[1..]) == Ok(e.operand, rest)
    ensures Peek(ts) == TBang ==> e.Not? && PUnary(ts[1..]) == Ok(e.operand, rest)
    ensures Peek(ts) != TOp(Sub) && Peek(ts) != TBang ==> PApp(ts) == Ok(e, rest)
  {
    hide PApp;
  }

  lemma AppCases(ts: seq<Tok>, e: Expr, rest: seq<Tok>)
    requires PApp(ts) == Ok(e, rest)
    ensures || PPostfix(ts) == Ok(e, rest)
            || (&& e.App? && PPostfix(ts).Ok? && PPostfix(ts).v == e.head
                && PArgs(PPostfix(ts).rest) == Ok(e.args, rest))
  {
    hide PPostfix, PArgs;
    var h := PPostfix(ts);
    ArgsShorten(h.rest);
  }

  lemma {:induction false} ArgsShorten(ts: seq<Tok>)
    requires PArgs(ts).Ok?
    ensures |PArgs(ts).rest| == |ts| || PArgs(ts).v == [] ==> PArgs(ts) == Ok([], ts)
  {
    hide PPostfix;
  }

  lemma PostCases(ts: seq<Tok>, e: Expr, rest: seq<Tok>)
    requires PPostfix(ts) == Ok(e, rest)
    ensures Peek(ts) == TAmp ==> e.Borrow? && PPostfix(ts[1..]) == Ok(e.operand, rest)
    ensures Peek(ts) != TAmp ==> Selects(ts, e, rest)
  {
    hide PAtom, PFields, Selects;
    if Peek(ts) != TAmp { PostfixSelects(ts); }
  }

  lemma SelectsAtom(ts: seq<Tok>, e: Expr, rest: seq<Tok>)
    requires Selects(ts, e, rest) && !e.Proj?
    ensures PAtom(ts) == Ok(e, rest)
  {
    hide PAtom, Fields;
    var a := PAtom(ts);
    if !(a.v == e && a.rest == rest) { var mid := LastField(a.v, a.rest, e, rest); }
  }

  lemma ReachesUnary(ts: seq<Tok>, min: nat, e: Expr, rest: seq<Tok>)
    requires Reaches(ts, min, e, rest) && !e.Binop?
    ensures PUnary(ts) == Ok(e, rest)
  {
    hide PUnary, Turns;
    var u := PUnary(ts);
    if !(u.v == e && u.rest == rest) { var mid := LastTurn(u.v, u.rest, min, e, rest); }
  }

  lemma UnaryPostfix(ts: seq<Tok>, e: Expr, rest: seq<Tok>)
    requires PUnary(ts) == Ok(e, rest) && !Prefixed(e) && !e.App?
    ensures PPostfix(ts) == Ok(e, rest)
  {
    hide PUnary, PApp, PPostfix;
    UnaryCases(ts, e, rest);
    AppCases(ts, e, rest);
  }

  lemma PostfixAtom(ts: seq<Tok>, e: Expr, rest: seq<Tok>)
    requires PPostfix(ts) == Ok(e, rest) && !e.Borrow? && !e.Proj?
    ensures PAtom(ts) == Ok(e, rest)
  {
    hide PPostfix, Selects;
    PostCases(ts, e, rest);
    SelectsAtom(ts, e, rest);
  }

  /** A closed start of a pair of parentheses is no proper part of it. */
  lemma NotWhole(x: seq<Tok>, y: seq<Tok>, inner: seq<Tok>, rest: seq<Tok>)
    requires x + (y + rest) == [TOpen] + inner + [TClose] + rest && Closed(x) && Closed(inner)
    ensures x == [] || y == []
  {
    hide Closed;
    var all := x + (y + rest);
    var n := |all| - |rest|;
    assert all[..n] == x + y;
    assert all[..n] == [TOpen] + inner + [TClose];
    NoWrap(x, y, inner);
  }

  lemma Filled(x: seq<Tok>, n: nat)
    requires Stretch(x, n) && n >= 1
    ensures x != []
  {}

  lemma FlatFilled(e: Expr, need: nat)
    requires Producible(e)
    ensures Flat(e, need) != [] && Stretch(Flat(e, need), Size(e)) && Closed(Flat(e, need))
  {
    hide Flat, Size;
    FlatStretch(e, need);
    SizePositive(e);
    Filled(Flat(e, need), Size(e));
  }

  // ---------------------------------------------------- an atom in parentheses

  lemma AtomEnds(ts: seq<Tok>, inner: seq<Tok>, rest: seq<Tok>)
    requires ts == [TOpen] + inner + [TClose] + rest && Closed(inner) && inner != [] && PAtom(ts).Ok?
    ensures PAtom(ts).rest == rest
  {
    hide PAtom, PItems, SizeItems, Takes, Signless, Closed, Marks;
    ClosedEnds(inner);
    assert ts[1..][0] == inner[0];
    AtomOpens(ts);
    ItemsMade(ts[1..]);
    var r := PItems(ts[1..]);
    var other := WrapParts(ts, r.rest, SizeItems(r.v));
    SameWrap(inner, other, rest, r.rest[1..]);
  }

  /** Where the atom leaves what is left in the end, nothing was added to it. */
  lemma NothingMore(ts: seq<Tok>, min: nat, e: Expr, rest: seq<Tok>)
    requires Peek(ts) == TOpen && Reaches(ts, min, e, rest) && PAtom(ts).Ok? && PAtom(ts).rest == rest
    ensures PPostfix(ts) == PUnary(ts) == Ok(e, rest)
  {
    hide PAtom, PArgs, Turns, Fields, PFields;
    var a, h, u := PAtom(ts), PPostfix(ts), PUnary(ts);
    UnaryIsApp(ts);
    TurnsShorten(u.v, u.rest, min, e, rest);
    FieldsTurn(a.v, a.rest);
    FieldsShorten(a.v, a.rest, h.v, h.rest);
    ArgsShorten(h.rest);
  }

  lemma ReachesAtom(ts: seq<Tok>, min: nat, e: Expr, rest: seq<Tok>)
    requires Reaches(ts, min, e, rest) && Peek(ts) == TOpen
    ensures PAtom(ts).Ok?
  {
    hide PAtom, PArgs, Turns, PFields, PUnary;
    UnaryIsApp(ts);
  }

  /** What stands between the parentheses of a printed expression parses to it. */
  lemma ParensTaken(e: Expr, ts: seq<Tok>, rest: seq<Tok>)
    requires Producible(e) && !e.Tuple? && Raw(e) != [] && Raw(e)[0] != TClose
    requires ts == [TOpen] + Raw(e) + [TClose] + rest && PAtom(ts) == Ok(e, rest)
    ensures PExpr(Raw(e) + ([TClose] + rest)) == Ok(e, [TClose] + rest)
  {
    hide PAtom, PItems, PExpr, Takes, Raw, Producible, Size;
    var tail := [TClose] + rest;
    assert ts[1..] == Raw(e) + tail;
    assert Peek(ts[1..]) == Raw(e)[0];
    AtomOpens(ts);
    var r := PItems(ts[1..]);
    ItemsMade(ts[1..]);
    OneItem(ts[1..]);
    assert r.v == [e];
    RawStretch(e);
    SameCut(Raw(e), tail, r.rest, Size(e));
  }

  lemma RawFilled(e: Expr)
    requires Producible(e)
    ensures Raw(e) != [] && Raw(e)[0] != TClose && Closed(Raw(e))
  {
    hide Raw, Size, Producible, Closed, Marks;
    RawStretch(e);
    SizePositive(e);
    assert Stretch(Raw(e), Size(e)) && Closed(Raw(e));
    Filled(Raw(e), Size(e));
    ClosedEnds(Raw(e));
  }

  // -------------------------------------------------------------- the induction

  /** A printing that the loop over operators reads back is of a printable tree. */
  lemma {:induction false} LoopPrintable(e: Expr, q: nat, min: nat, rest: seq<Tok>)
    requires Producible(e) && q <= 10 && Reaches(Flat(e, q) + rest, min, e, rest)
    ensures Printable(e)
    decreases e, 5
  {
    hide Printable, Producible, Reaches, Raw, PPostfix, PUnary, PAtom, Closed;
    var ts := Flat(e, q) + rest;
    if Power(e) < q {
      RawFilled(e);
      assert ts == [TOpen] + Raw(e) + [TClose] + rest;
      ReachesAtom(ts, min, e, rest);
      AtomEnds(ts, Raw(e), rest);
      NothingMore(ts, min, e, rest);
      assert Flat(e, 10) == Flat(e, q);
      PostPrintable(e, rest);
    } else if e.Binop? || e.App? || e.Lambda? || Prefixed(e) {
      BarePrintable(e, min, rest);
    } else {
      ReachesUnary(ts, min, e, rest);
      UnaryPostfix(ts, e, rest);
      FullPower(e);
      PostPrintable(e, rest);
    }
  }

  lemma FullPower(e: Expr)
    requires Producible(e) && !e.Binop? && !e.App? && !e.Lambda?
    ensures Power(e) == 10
  {}

  /** The same where it is printed bare and no atom makes it. */
  lemma {:induction false} BarePrintable(e: Expr, min: nat, rest: seq<Tok>)
    requires Producible(e) && (e.Binop? || e.App? || e.Lambda? || Prefixed(e))
    requires Reaches(Raw(e) + rest, min, e, rest)
    ensures Printable(e)
    decreases e, 1
  {
    hide Printable, Producible, Raw, Reaches, PUnary;
    if e.Binop? {
      BareBinop(e, min, rest);
    } else {
      ReachesUnary(Raw(e) + rest, min, e, rest);
      if e.App? { BareApp(e, rest); }
      else if e.Lambda? { BareLambda(e, rest); }
      else { BarePrefix(e, rest); }
    }
  }

  lemma {:induction false} BareBinop(e: Expr, min: nat, rest: seq<Tok>)
    requires Producible(e) && e.Binop? && Reaches(Raw(e) + rest, min, e, rest)
    ensures Printable(e)
    decreases e, 0
  {
    hide Flat, PUnary, PBin, PAtom, PPostfix, Turns, Takes, Closed, Stretch;
    var op, l, r := e.op, e.left, e.right;
    var x, y := Flat(l, Prec(op)), Flat(r, Prec(op) + 1);
    var right := y + rest;
    var tail := [TOp(op)] + right;
    var ts := Raw(e) + rest;
    assert ts == x + tail;
    FlatFilled(l, Prec(op));
    var u := PUnary(ts);
    if u == Ok(e, rest) {
      UnaryPostfix(ts, e, rest);
      PostfixAtom(ts, e, rest);
      var inner := AtomWrapped(ts, e, rest);
      assert x + (([TOp(op)] + y) + rest) == ts;
      NotWhole(x, [TOp(op)] + y, inner, rest);
    } else {
      var mid := LastTurn(u.v, u.rest, min, e, rest);
      assert Reaches(ts, min, l, mid);
      ReachesTakes(ts, min, l, mid);
      SameCut(x, tail, mid, Size(l));
      LoopPrintable(l, Prec(op), min, tail);
      assert tail[1..] == right;
      BinReaches(right, Prec(op) + 1);
      LoopPrintable(r, Prec(op) + 1, Prec(op) + 1, rest);
    }
  }

  lemma {:induction false} BareApp(e: Expr, rest: seq<Tok>)
    requires Producible(e) && e.App? && PUnary(Raw(e) + rest) == Ok(e, rest)
    ensures Printable(e)
    decreases e, 0
  {
    hide Flat, FlatArgs, PUnary, PApp, PArgs, PAtom, PPostfix, Takes, Closed, Stretch;
    var f, args := e.head, e.args;
    var x, y := Flat(f, 10), FlatArgs(e, args);
    var ts := Raw(e) + rest;
    assert ts == x + (y + rest);
    FlatFilled(f, 10);
    ArgsFilled(e, args);
    UnaryCases(ts, e, rest);
    AppCases(ts, e, rest);
    if PPostfix(ts) == Ok(e, rest) {
      PostfixAtom(ts, e, rest);
      var inner := AtomWrapped(ts, e, rest);
      NotWhole(x, y, inner, rest);
    } else {
      PostfixMade(ts);
      SameCut(x, y + rest, PPostfix(ts).rest, Size(f));
      PostPrintable(f, y + rest);
      ArgsPrintable(e, args, rest);
    }
  }

  lemma ArgsFilled(parent: Expr, es: seq<Expr>)
    requires es != [] && forall i :: 0 <= i < |es| ==> es[i] < parent && Producible(es[i])
    ensures FlatArgs(parent, es) != []
  {
    hide Flat;
    FlatFilled(es[0], 10);
  }

  lemma {:induction false} ArgsPrintable(parent: Expr, es: seq<Expr>, rest: seq<Tok>)
    requires forall i :: 0 <= i < |es| ==> es[i] < parent && Producible(es[i])
    requires PArgs(FlatArgs(parent, es) + rest) == Ok(es, rest)
    ensures forall i :: 0 <= i < |es| ==> Printable(es[i]) && !Prefixed(es[i])
    decreases parent, 0, |es|
  {
    hide Flat, PPostfix, PArgs, Takes, Stretch, Printable, Producible, Prefixed;
    if es != [] {
      var x, tail := Flat(es[0], 10), FlatArgs(parent, es[1..]) + rest;
      var ts := FlatArgs(parent, es) + rest;
      assert ts == x + tail;
      FirstTaken(ts, es, rest);
      PostfixMade(ts);
      FlatFilled(es[0], 10);
      SameCut(x, tail, PPostfix(ts).rest, Size(es[0]));
      PostPrintable(es[0], tail);
      ArgsPrintable(parent, es[1..], rest);
      forall i | 0 <= i < |es| ensures Printable(es[i]) && !Prefixed(es[i]) {
        if i > 0 { assert es[i] == es[1..][i - 1]; }
      }
    }
  }

  lemma FirstTaken(ts: seq<Tok>, es: seq<Expr>, rest: seq<Tok>)
    requires PArgs(ts) == Ok(es, rest) && es != []
    ensures PPostfix(ts).Ok? && PPostfix(ts).v == es[0] && PArgs(PPostfix(ts).rest) == Ok(es[1..], rest)
  {
    hide PPostfix;
    var more := PArgs(PPostfix(ts).rest).v;
    assert ([es[0]] + more)[1..] == more;
  }

  lemma {:induction false} BareLambda(e: Expr, rest: seq<Tok>)
    requires Producible(e) && e.Lambda? && PUnary(Raw(e) + rest) == Ok(e, rest)
    ensures Printable(e)
    decreases e, 0
  {
    hide Flat, PUnary, PAtom, PPostfix, PBin, NameToks, PNames;
    var b := e.body;
    var body := Flat(b, 0) + rest;
    var names := NameToks(e.params) + ([TArrow] + body);
    var ts := Raw(e) + rest;
    assert ts == [TBackslash] + names && ts[1..] == names && ([TArrow] + body)[1..] == body;
    UnaryPostfix(ts, e, rest);
    PostfixAtom(ts, e, rest);
    NamesBack(e.params, [TArrow] + body);
    LambdaBody(ts, e.params, body);
    BinReaches(body, 1);
    LoopPrintable(b, 0, 1, rest);
  }

  lemma LambdaBody(ts: seq<Tok>, ps: seq<string>, body: seq<Tok>)
    requires Peek(ts) == TBackslash && PNames(ts[1..]) == (ps, [TArrow] + body) && PAtom(ts).Ok?
    ensures PBin(body, 1).Ok? && PAtom(ts) == Ok(Lambda(ps, PBin(body, 1).v), PBin(body, 1).rest)
  {
    hide PNames, PBin;
    assert ([TArrow] + body)[1..] == body;
  }

  lemma {:induction false} BarePrefix(e: Expr, rest: seq<Tok>)
    requires Producible(e) && Prefixed(e) && PUnary(Raw(e) + rest) == Ok(e, rest)
    ensures Printable(e)
    decreases e, 0
  {
    hide Flat, PUnary;
    var ts := Flat(e.operand, 10) + rest;
    assert Raw(e) + rest == [Raw(e)[0]] + ts && (Raw(e) + rest)[1..] == ts;
    UnaryCases(Raw(e) + rest, e, rest);
    UnaryReaches(ts, e.operand, rest);
    LoopPrintable(e.operand, 10, 1, rest);
  }

  lemma UnaryReaches(ts: seq<Tok>, e: Expr, rest: seq<Tok>)
    requires PUnary(ts) == Ok(e, rest)
    ensures Reaches(ts, 1, e, rest)
  {
    hide PUnary;
  }

  /** A printing that is read back where an atom is wanted. */
  lemma {:induction false} PostPrintable(e: Expr, rest: seq<Tok>)
    requires Producible(e) && PPostfix(Flat(e, 10) + rest) == Ok(e, rest)
    ensures Printable(e) && !Prefixed(e)
    decreases e, 4
  {
    hide Flat, PPostfix, Selects;
    var ts := Flat(e, 10) + rest;
    PostCases(ts, e, rest);
    if Peek(ts) == TAmp {
      BorrowFlat(e);
      assert ts[1..] == Flat(e.operand, 10) + rest;
      PostPrintable(e.operand, rest);
    } else {
      SelectPrintable(e, rest);
    }
  }

  lemma BorrowFlat(e: Expr)
    requires e.Borrow?
    ensures Flat(e, 10) == [TAmp] + Flat(e.operand, 10)
  {}

  /** The same short of the fields that follow. */
  lemma {:induction false} SelectPrintable(e: Expr, rest: seq<Tok>)
    requires Producible(e) && Selects(Flat(e, 10) + rest, e, rest)
    ensures Printable(e) && !Prefixed(e) && !e.Borrow?
    decreases e, 3
  {
    hide Producible, Printable, Fields, Raw, PAtom, PBin, Reaches;
    var ts := Flat(e, 10) + rest;
    if e.Proj? {
      ProjPrintable(e, rest);
    } else {
      SelectsAtom(ts, e, rest);
      if Power(e) < 10 {
        RawFilled(e);
        assert ts == [TOpen] + Raw(e) + [TClose] + rest;
        LowPower(e);
        ParensTaken(e, ts, rest);
        ExprIs(Raw(e) + ([TClose] + rest));
        BinReaches(Raw(e) + ([TClose] + rest), 1);
        BarePrintable(e, 1, [TClose] + rest);
      } else {
        AtomPrintable(e, rest);
      }
    }
  }

  lemma LowPower(e: Expr)
    requires Producible(e) && Power(e) < 10
    ensures e.Binop? || e.App? || e.Lambda?
  {}

  lemma {:induction false} ProjPrintable(e: Expr, rest: seq<Tok>)
    requires Producible(e) && e.Proj? && Selects(Flat(e, 10) + rest, e, rest)
    ensures Printable(e)
    decreases e, 0
  {
    hide PAtom, Fields, Closed, Stretch, Takes;
    var of := e.of;
    var x, y := Flat(of, 10), [TDot, TName(e.field)];
    var ts := Flat(e, 10) + rest;
    assert Flat(e, 10) == x + y;
    assert ts == x + (y + rest);
    FlatFilled(of, 10);
    var a := PAtom(ts);
    if a == Ok(e, rest) {
      var inner := AtomWrapped(ts, e, rest);
      NotWhole(x, y, inner, rest);
    } else {
      var mid := LastField(a.v, a.rest, e, rest);
      assert Selects(ts, of, mid);
      SelectsTakes(ts, of, mid);
      SameCut(x, y + rest, mid, Size(of));
      SelectPrintable(of, y + rest);
    }
  }

  lemma {:induction false} AtomPrintable(e: Expr, rest: seq<Tok>)
    requires Producible(e) && Power(e) == 10 && !e.Proj? && PAtom(Raw(e) + rest) == Ok(e, rest)
    ensures Printable(e) && !Prefixed(e) && !e.Borrow?
    decreases e, 2
  {
    hide PAtom;
    match e
    case Tuple(_) => TuplePrintable(e, rest);
    case List(_) => ListPrintable(e, rest);
    case Neg(_) => NoAtom(Raw(e) + rest);
    case Not(_) => NoAtom(Raw(e) + rest);
    case Borrow(_) => NoAtom(Raw(e) + rest);
    case _ =>
  }

  lemma NoAtom(ts: seq<Tok>)
    ensures Peek(ts).TOp? || Peek(ts) == TBang || Peek(ts) == TAmp ==> PAtom(ts).Err?
  {
    hide PExpr, PItems, PNames;
  }

  lemma {:induction false} TuplePrintable(e: Expr, rest: seq<Tok>)
    requires Producible(e) && e.Tuple? && PAtom(Raw(e) + rest) == Ok(e, rest)
    ensures Printable(e)
    decreases e, 1
  {
    hide Flat, PAtom, PItems, FlatItems;
    var xs := e.items;
    var tail := [TClose] + rest;
    var ts := Raw(e) + rest;
    assert ts == [TOpen] + (FlatItems(e, xs) + tail);
    assert ts[1..] == FlatItems(e, xs) + tail;
    ItemsFilled(e, xs);
    AtomOpens(ts);
    var r := PItems(ts[1..]);
    ItemsMade(ts[1..]);
    if |r.v| == 1 {
      OneItem(ts[1..]);
      TupleInside(e, tail);
    } else {
      assert r.v == xs;
      ItemsStretch(e, xs);
      SameCut(FlatItems(e, xs), tail, r.rest, SizeItems(xs));
      ItemsPrintable(e, xs, tail);
    }
  }

  lemma ItemsFilled(parent: Expr, xs: seq<Expr>)
    requires xs != [] && forall i :: 0 <= i < |xs| ==> xs[i] < parent && Producible(xs[i])
    ensures FlatItems(parent, xs) != [] && FlatItems(parent, xs)[0] != TClose
  {
    hide Flat, Closed;
    FlatFilled(xs[0], 0);
    ClosedEnds(Flat(xs[0], 0));
  }

  /** The items of a tuple, without its parentheses, are not the tuple. */
  lemma TupleInside(e: Expr, tail: seq<Tok>)
    requires Producible(e) && e.Tuple?
    ensures PExpr(FlatItems(e, e.items) + tail) != Ok(e, tail)
  {
    hide Flat, PBin, PUnary, PPostfix, PAtom, Reaches, Closed, Producible;
    var xs := e.items;
    var ts := FlatItems(e, xs) + tail;
    if PExpr(ts) == Ok(e, tail) {
      assert |xs| >= 2 && Producible(xs[0]) by { TupleParts(e); }
      var x, y := Flat(xs[0], 0), [TComma] + FlatItems(e, xs[1..]);
      assert ts == x + (y + tail);
      FlatFilled(xs[0], 0);
      BinReaches(ts, 1);
      ReachesUnary(ts, 1, e, tail);
      UnaryPostfix(ts, e, tail);
      PostfixAtom(ts, e, tail);
      var inner := AtomWrapped(ts, e, tail);
      NotWhole(x, y, inner, tail);
    }
  }

  lemma TupleParts(e: Expr)
    requires Producible(e) && e.Tuple?
    ensures |e.items| >= 2 && forall i :: 0 <= i < |e.items| ==> Producible(e.items[i])
  {}

  lemma ExprCut(x: seq<Tok>, tail: seq<Tok>)
    requires PExpr(x + tail).Ok? && Stretch(x, Size(PExpr(x + tail).v))
    ensures PExpr(x + tail).rest == tail
  {
    hide PExpr, Takes, Stretch, Signless, Producible, Size;
    ExprMade(x + tail);
    SameCut(x, tail, PExpr(x + tail).rest, Size(PExpr(x + tail).v));
  }

  lemma {:induction false} ItemsPrintable(parent: Expr, xs: seq<Expr>, rest: seq<Tok>)
    requires xs != [] && forall i :: 0 <= i < |xs| ==> xs[i] < parent && Producible(xs[i])
    requires PItems(FlatItems(parent, xs) + rest) == Ok(xs, rest)
    ensures forall i :: 0 <= i < |xs| ==> Printable(xs[i])
    decreases parent, 0, |xs|
  {
    hide Flat, PBin, PItems, Reaches, Stretch, Closed, Printable, Producible, Size;
    var ts := FlatItems(parent, xs) + rest;
    var more := if |xs| == 1 then [] else [TComma] + FlatItems(parent, xs[1..]);
    var x, tail := Flat(xs[0], 0), more + rest;
    assert ts == x + tail;
    FirstItemTaken(ts, xs, rest);
    FlatFilled(xs[0], 0);
    ExprCut(x, tail);
    BinReaches(ts, 1);
    LoopPrintable(xs[0], 0, 1, tail);
    if |xs| > 1 {
      assert tail[1..] == FlatItems(parent, xs[1..]) + rest;
      ItemsPrintable(parent, xs[1..], rest);
    }
    forall i | 0 <= i < |xs| ensures Printable(xs[i]) {
      if i > 0 { assert xs[i] == xs[1..][i - 1]; }
    }
  }

  lemma FirstItemTaken(ts: seq<Tok>, xs: seq<Expr>, rest: seq<Tok>)
    requires PItems(ts) == Ok(xs, rest)
    ensures PExpr(ts).Ok? && xs != [] && PExpr(ts).v == xs[0]
    ensures |xs| > 1 ==> Peek(PExpr(ts).rest) == TComma && PItems(PExpr(ts).rest[1..]) == Ok(xs[1..], rest)
  {
    hide PExpr, PItems;
    ItemsStep(ts);
    var r := PExpr(ts).rest;
    if Peek(r) == TComma {
      var more := PItems(r[1..]).v;
      assert ([xs[0]] + more)[1..] == more;
    }
  }

  lemma {:induction false} ListPrintable(e: Expr, rest: seq<Tok>)
    requires Producible(e) && e.List? && PAtom(Raw(e) + rest) == Ok(e, rest)
    ensures Printable(e)
    decreases e, 1
  {
    hide Flat, PAtom, PItems, FlatItems;
    var xs := e.items;
    var tail := [TCloseList] + rest;
    var ts := Raw(e) + rest;
    assert ts == [TOpenList] + (FlatItems(e, xs) + tail);
    assert ts[1..] == FlatItems(e, xs) + tail;
    if xs != [] {
      ListItems(ts, xs, rest);
      ItemsPrintable(e, xs, tail);
    }
  }

  lemma ListItems(ts: seq<Tok>, xs: seq<Expr>, rest: seq<Tok>)
    requires Peek(ts) == TOpenList && PAtom(ts) == Ok(List(xs), rest) && xs != []
    ensures PItems(ts[1..]) == Ok(xs, [TCloseList] + rest)
  {
    hide PExpr, PItems, PNames;
    var r := PItems(ts[1..]);
    assert r.rest == [TCloseList] + r.rest[1..];
  }

  // ------------------------------------------------------------------- the results

  /** Whatever the parser makes of tokens whose literals carry no sign is of the
      fragment. */
  lemma ParsedProducible(ts: seq<Tok>)
    requires Signless(ts) && PExpr(ts).Ok?
    ensures Producible(PExpr(ts).v)
  {
    hide PExpr, Takes;
    ExprMade(ts);
  }

  /** Printing an expression of the fragment and parsing it gives it back, before
      any suffix that cannot continue it, exactly where it is printable. */
  lemma ExprRoundTripIff(e: Expr, need: nat, rest: seq<Tok>)
    requires Producible(e) && need <= 7 && NoGlue(rest)
    requires Peek(rest).TOp? ==> Prec(Peek(rest).op) < need
    ensures PBin(Flat(e, need) + rest, if need == 0 then 1 else need) == Ok(e, rest) <==> Printable(e)
  {
    hide Printable, Producible, PBin, Flat, Reaches;
    var p := if need == 0 then 1 else need;
    if Printable(e) { ExprRoundTrip(e, need, rest); }
    if PBin(Flat(e, need) + rest, p) == Ok(e, rest) {
      BinReaches(Flat(e, need) + rest, p);
      LoopPrintable(e, need, p, rest);
    }
  }
}
