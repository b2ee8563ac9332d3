/** Parsing undoes printing (src/view.rs, src/parser.rs). */
module RoundTrip {
  import opened Ast
  import opened Printer
  import opened Parsing

  predicate Prefixed(e: Expr) { e.Neg? || e.Not? }

  /** Literals carry no sign, calls have arguments, tuples two parts or more; and no
      sign is a head, an argument, or under a borrow or a field, and no borrow under
      a field. `RoundTripExact` shows that the second half is necessary. */
  predicate Printable(e: Expr)
    decreases e
  {
    match e
    case Int(n) => n >= 0
    case Float(x) => x >= 0.0
    case Neg(x) => Printable(x)
    case Not(x) => Printable(x)
    case Borrow(x) => Printable(x) && !Prefixed(x)
    case Proj(x, _) => Printable(x) && !Prefixed(x) && !x.Borrow?
    case App(f, args) =>
      && Printable(f) && !Prefixed(f) && args != []
      && forall i :: 0 <= i < |args| ==> Printable(args[i]) && !Prefixed(args[i])
    case Binop(_, l, r) => Printable(l) && Printable(r)
    case Tuple(xs) => |xs| >= 2 && forall i :: 0 <= i < |xs| ==> Printable(xs[i])
    case List(xs) => forall i :: 0 <= i < |xs| ==> Printable(xs[i])
    case Lambda(_, b) => Printable(b)
    case Match(_, _) => false
    case Bind(_, _, _) => false
    case Let(_, _, _) => false
    case Record(_, _) => false
    case Arena(_, _) => false
    case _ => true
  }

  /** Nothing here extends an application or reads a field. */
  predicate NoGlue(ts: seq<Tok>) { !StartsAtom(Peek(ts)) && Peek(ts) != TDot }

  /** Any operator here binds at most as tightly as `q`. */
  predicate OpAtMost(ts: seq<Tok>, q: nat) { Peek(ts).TOp? ==> Prec(Peek(ts).op) <= q }

  // --------------------------------------------------------------- first tokens

  lemma PeekApp(a: seq<Tok>, b: seq<Tok>)
    requires a != []
    ensures Peek(a + b) == a[0] && (a + b)[1..] == a[1..] + b
  {}

  lemma {:induction false} FirstAtom(e: Expr)
    requires Printable(e) && !Prefixed(e)
    ensures Flat(e, 10) != [] && StartsAtom(Flat(e, 10)[0]) && (!e.Borrow? ==> Flat(e, 10)[0] != TAmp)
    decreases e
  {
    if e.Proj? { FirstAtom(e.of); }
  }

  lemma {:induction false} FirstRaw(e: Expr)
    requires Printable(e)
    ensures Raw(e) != [] && Raw(e)[0] != TClose && Raw(e)[0] != TCloseList
    decreases e
  {
    match e
    case App(f, _) => FirstAtom(f);
    case Proj(x, _) => FirstAtom(x);
    case Binop(_, l, _) => FirstRaw(l);
    case _ =>
  }

  lemma FirstFlat(e: Expr, need: nat)
    requires Printable(e)
    ensures Flat(e, need) != [] && Flat(e, need)[0] != TClose && Flat(e, need)[0] != TCloseList
  {
    FirstRaw(e);
  }

  // ------------------------------------------------------------ parser one step

  lemma LoopStops(e: Expr, ts: seq<Tok>, min: nat)
    requires Peek(ts).TOp? ==> Prec(Peek(ts).op) < min
    ensures PLoop(e, ts, min) == Ok(e, ts)
  {}

  lemma FieldsStop(e: Expr, ts: seq<Tok>)
    requires Peek(ts) != TDot
    ensures PFields(e, ts) == Ok(e, ts)
  {}

  lemma ArgsStop(ts: seq<Tok>)
    requires !StartsAtom(Peek(ts))
    ensures PArgs(ts) == Ok([], ts)
  {}

  lemma UnaryIsApp(ts: seq<Tok>)
    requires Peek(ts) != TOp(Sub) && Peek(ts) != TBang
    ensures PUnary(ts) == PApp(ts)
  {}

  /** One atom and nothing that extends it. */
  lemma AtomAlone(ts: seq<Tok>, e: Expr, rest: seq<Tok>)
    requires PPostfix(ts) == Ok(e, rest) && StartsAtom(Peek(ts)) && NoGlue(rest)
    ensures PUnary(ts) == Ok(e, rest)
  {
    hide PPostfix;
    UnaryIsApp(ts);
    ArgsStop(rest);
  }

  lemma BinFrom(ts: seq<Tok>, e: Expr, rest: seq<Tok>, p: nat)
    requires PUnary(ts) == Ok(e, rest)
    ensures PBin(ts, p) == PLoop(e, rest, p)
  {}

  lemma LoopGoes(lhs: Expr, op: BinOp, ts: seq<Tok>, p: nat, rhs: Expr, rest: seq<Tok>)
    requires Prec(op) >= p && PBin(ts, Prec(op) + 1) == Ok(rhs, rest)
    ensures PLoop(lhs, [TOp(op)] + ts, p) == PLoop(Binop(op, lhs, rhs), rest, p)
  {
    hide PBin;
    PeekApp([TOp(op)], ts);
    assert ([TOp(op)] + ts)[1..] == ts;
  }

  // ---------------------------------------------------------------- the lemmas

  /** An atom, up to its fields. */
  lemma {:induction false} AtomBack(e: Expr, rest: seq<Tok>)
    requires Printable(e) && Power(e) == 10 && !Prefixed(e) && !e.Borrow?
    ensures PPostfix(Raw(e) + rest) == PFields(e, rest)
    decreases e, 2, 0
  {
    hide Printable, PFields, PItems;
    if e.Proj? {
      ProjBack(e, rest);
    } else if e.Tuple? {
      TupleBack(e, rest);
    } else if e.List? {
      ListBack(e, rest);
    } else if e.Unit? {
      var ts := [TOpen, TClose] + rest;
      assert ts[1..] == [TClose] + rest && ts[2..] == rest;
    } else {
      LiteralBack(e, rest);
    }
  }

  lemma LiteralBack(e: Expr, rest: seq<Tok>)
    requires Printable(e) && Power(e) == 10 && !Prefixed(e) && !e.Borrow? && !e.Proj? && !e.Tuple? && !e.List?
    requires !e.Unit?
    ensures PPostfix(Raw(e) + rest) == PFields(e, rest)
  {
    hide PFields, PItems, PExpr;
    var ts := Raw(e) + rest;
    assert |Raw(e)| == 1 && ts[1..] == rest && Peek(ts) == Raw(e)[0];
  }

  lemma {:induction false} ProjBack(e: Expr, rest: seq<Tok>)
    requires e.Proj? && Printable(e)
    ensures PPostfix(Raw(e) + rest) == PFields(e, rest)
    decreases e, 1, 0
  {
    hide PPostfix, Flat;
    var tail := [TDot, TName(e.field)] + rest;
    assert Raw(e) + rest == Flat(e.of, 10) + tail;
    PostBack(e.of, tail);
    assert tail[1..] == [TName(e.field)] + rest && tail[2..] == rest;
  }

  lemma OpenItems(ts: seq<Tok>, xs: seq<Expr>, rest: seq<Tok>)
    requires PItems(ts) == Ok(xs, [TClose] + rest) && Peek(ts) != TClose
    ensures PAtom([TOpen] + ts)
         == if |xs| != 1 then Ok(Tuple(xs), rest) else if NeedsNone(xs[0]) then Err else Ok(xs[0], rest)
  {
    hide PItems, PExpr;
    assert ([TOpen] + ts)[1..] == ts && ([TClose] + rest)[1..] == rest;
  }

  lemma {:induction false} TupleBack(e: Expr, rest: seq<Tok>)
    requires e.Tuple? && Printable(e)
    ensures PPostfix(Raw(e) + rest) == PFields(e, rest)
    decreases e, 1, 0
  {
    hide PAtom, PItems, FlatItems, PFields;
    var xs := e.items;
    var ts := FlatItems(e, xs) + ([TClose] + rest);
    assert Raw(e) + rest == [TOpen] + ts;
    ItemsBack(e, xs, [TClose] + rest);
    FirstItem(e, xs);
    OpenItems(ts, xs, rest);
  }

  lemma FirstItem(parent: Expr, xs: seq<Expr>)
    requires (forall i :: 0 <= i < |xs| ==> xs[i] < parent && Printable(xs[i])) && xs != []
    ensures FlatItems(parent, xs) != [] && FlatItems(parent, xs)[0] != TClose && FlatItems(parent, xs)[0] != TCloseList
  {
    FirstFlat(xs[0], 0);
  }

  lemma {:induction false} ListBack(e: Expr, rest: seq<Tok>)
    requires e.List? && Printable(e)
    ensures PPostfix(Raw(e) + rest) == PFields(e, rest)
    decreases e, 1, 0
  {
    hide PItems, FlatItems, PFields;
    var xs := e.items;
    var close := [TCloseList] + rest;
    var ts := FlatItems(e, xs) + close;
    assert Raw(e) + rest == [TOpenList] + ts;
    assert ([TOpenList] + ts)[1..] == ts && close[1..] == rest;
    if xs == [] {
      NoItems(e);
      assert ts == close && ([TOpenList] + ts)[2..] == rest;
    } else {
      ItemsBack(e, xs, close);
      FirstItem(e, xs);
    }
  }

  lemma NoItems(parent: Expr)
    ensures FlatItems(parent, []) == []
  {}

  lemma {:induction false} ItemsBack(parent: Expr, xs: seq<Expr>, rest: seq<Tok>)
    requires xs != [] && forall i :: 0 <= i < |xs| ==> xs[i] < parent && Printable(xs[i])
    requires Peek(rest) == TClose || Peek(rest) == TCloseList
    ensures PItems(FlatItems(parent, xs) + rest) == Ok(xs, rest)
    decreases parent, 0, |xs|
  {
    hide PBin, Flat, Printable, PLoop;
    if |xs| == 1 {
      WholeBack(xs[0], 0, 1, rest);
      LoopStops(xs[0], rest, 1);
      ItemsOne(Flat(xs[0], 0) + rest, xs[0], rest);
      assert FlatItems(parent, xs) == Flat(xs[0], 0) && [xs[0]] == xs;
    } else {
      var more := FlatItems(parent, xs[1..]) + rest;
      var tail := [TComma] + more;
      assert FlatItems(parent, xs) + rest == Flat(xs[0], 0) + tail;
      WholeBack(xs[0], 0, 1, tail);
      LoopStops(xs[0], tail, 1);
      ItemsBack(parent, xs[1..], rest);
      ItemsMore(Flat(xs[0], 0) + tail, xs[0], more, xs[1..], rest);
      assert [xs[0]] + xs[1..] == xs;
    }
  }

  lemma ItemsMore(ts: seq<Tok>, x: Expr, more: seq<Tok>, xs: seq<Expr>, rest: seq<Tok>)
    requires PExpr(ts) == Ok(x, [TComma] + more) && PItems(more) == Ok(xs, rest)
    ensures PItems(ts) == Ok([x] + xs, rest)
  {
    hide PExpr;
    assert ([TComma] + more)[1..] == more;
  }

  lemma ItemsOne(ts: seq<Tok>, x: Expr, rest: seq<Tok>)
    requires PExpr(ts) == Ok(x, rest) && Peek(rest) != TComma
    ensures PItems(ts) == Ok([x], rest)
  {
    hide PExpr;
  }

  /** What stands where an atom is wanted, up to its fields. */
  lemma {:induction false} PostBack(e: Expr, rest: seq<Tok>)
    requires Printable(e) && !Prefixed(e) && !e.Borrow?
    ensures PPostfix(Flat(e, 10) + rest) == PFields(e, rest)
    decreases e, 4, 0
  {
    hide Printable, PFields, PAtom, PItems, Raw, PExpr;
    if Power(e) == 10 {
      AtomBack(e, rest);
    } else {
      assert e.App? || e.Binop? || e.Lambda? by { Blocks(e); }
      var ts := Raw(e) + ([TClose] + rest);
      assert Flat(e, 10) + rest == [TOpen] + ts;
      BareBack(e, 0, 1, [TClose] + rest);
      LoopStops(e, [TClose] + rest, 1);
      assert PExpr(ts) == Ok(e, [TClose] + rest) by { ExprIs(ts); }
      ItemsOne(ts, e, [TClose] + rest);
      FirstRaw(e);
      OpenItems(ts, [e], rest);
    }
  }

  lemma ExprIs(ts: seq<Tok>)
    ensures PExpr(ts) == PBin(ts, 1)
  {}

  lemma Blocks(e: Expr)
    requires Printable(e) && Power(e) != 10
    ensures e.App? || e.Binop? || e.Lambda?
  {}

  lemma {:induction false} ArgBack(e: Expr, rest: seq<Tok>)
    requires Printable(e) && !Prefixed(e) && Peek(rest) != TDot
    ensures PPostfix(Flat(e, 10) + rest) == Ok(e, rest)
    decreases e, 5, 0
  {
    hide PAtom;
    if e.Borrow? {
      var ts := Flat(e.operand, 10) + rest;
      assert Flat(e, 10) + rest == [TAmp] + ts && ([TAmp] + ts)[1..] == ts;
      ArgBack(e.operand, rest);
    } else {
      PostBack(e, rest);
      FieldsStop(e, rest);
    }
  }

  lemma {:induction false} ArgsBack(parent: Expr, es: seq<Expr>, rest: seq<Tok>)
    requires forall i :: 0 <= i < |es| ==> es[i] < parent && Printable(es[i]) && !Prefixed(es[i])
    requires NoGlue(rest)
    ensures PArgs(FlatArgs(parent, es) + rest) == Ok(es, rest)
    decreases parent, 0, |es|
  {
    hide PPostfix, Flat, Printable;
    if es == [] {
      assert FlatArgs(parent, es) + rest == rest;
    } else {
      var tail := FlatArgs(parent, es[1..]) + rest;
      assert FlatArgs(parent, es) + rest == Flat(es[0], 10) + tail;
      FirstAtom(es[0]);
      PeekApp(Flat(es[0], 10), tail);
      FirstArg(parent, es[1..], rest);
      ArgBack(es[0], tail);
      ArgsBack(parent, es[1..], rest);
      assert [es[0]] + es[1..] == es;
    }
  }

  lemma FirstArg(parent: Expr, es: seq<Expr>, rest: seq<Tok>)
    requires forall i :: 0 <= i < |es| ==> es[i] < parent && Printable(es[i]) && !Prefixed(es[i])
    requires NoGlue(rest)
    ensures Peek(FlatArgs(parent, es) + rest) != TDot
  {
    hide Flat;
    if es == [] {
      assert FlatArgs(parent, es) + rest == rest;
    } else {
      FirstAtom(es[0]);
      PeekApp(FlatArgs(parent, es), rest);
    }
  }

  /** What stands under a prefix operator. */
  lemma {:induction false} UnaryBack(e: Expr, rest: seq<Tok>)
    requires Printable(e) && NoGlue(rest)
    ensures PUnary(Flat(e, 10) + rest) == Ok(e, rest)
    decreases e, 6, 0
  {
    hide PApp, PPostfix;
    if Prefixed(e) {
      PrefixBack(e, rest);
    } else {
      ArgBack(e, rest);
      FirstAtom(e);
      PeekApp(Flat(e, 10), rest);
      AtomAlone(Flat(e, 10) + rest, e, rest);
    }
  }

  lemma {:induction false} PrefixBack(e: Expr, rest: seq<Tok>)
    requires Printable(e) && Prefixed(e) && NoGlue(rest)
    ensures PUnary(Raw(e) + rest) == Ok(e, rest)
    decreases e, 1, 0
  {
    hide PApp;
    var x := e.operand;
    var ts := Flat(x, 10) + rest;
    var mark := if e.Neg? then TOp(Sub) else TBang;
    assert Raw(e) + rest == [mark] + ts && ([mark] + ts)[1..] == ts;
    UnaryBack(x, rest);
  }

  lemma {:induction false} AppBack(e: Expr, rest: seq<Tok>)
    requires e.App? && Printable(e) && NoGlue(rest)
    ensures PUnary(Raw(e) + rest) == Ok(e, rest)
    decreases e, 1, 0
  {
    hide PPostfix, PArgs, Flat, FlatArgs;
    var tail := FlatArgs(e, e.args) + rest;
    assert Raw(e) + rest == Flat(e.head, 10) + tail;
    FirstAtom(e.head);
    PeekApp(Flat(e.head, 10), tail);
    UnaryIsApp(Raw(e) + rest);
    FirstArg(e, e.args, rest);
    ArgBack(e.head, tail);
    ArgsBack(e, e.args, rest);
  }

  lemma {:induction false} NamesBack(ps: seq<string>, rest: seq<Tok>)
    requires !Peek(rest).TName?
    ensures PNames(NameToks(ps) + rest) == (ps, rest)
  {
    if ps == [] {
      assert NameToks(ps) + rest == rest;
    } else {
      var tail := NameToks(ps[1..]) + rest;
      var ts := [TName(ps[0])] + tail;
      assert NameToks(ps) + rest == ts && ts[1..] == tail && Peek(ts) == TName(ps[0]);
      NamesBack(ps[1..], rest);
      assert PNames(ts) == ([ps[0]] + PNames(tail).0, PNames(tail).1);
      assert [ps[0]] + ps[1..] == ps;
    }
  }

  lemma {:induction false} LambdaBack(e: Expr, rest: seq<Tok>)
    requires e.Lambda? && Printable(e) && NoGlue(rest) && !Peek(rest).TOp?
    ensures PUnary(Raw(e) + rest) == Ok(e, rest)
    decreases e, 1, 0
  {
    hide Flat, NameToks, PNames, PExpr, PApp;
    var body := Flat(e.body, 0) + rest;
    var ts := NameToks(e.params) + ([TArrow] + body);
    assert Raw(e) + rest == [TBackslash] + ts && ([TBackslash] + ts)[1..] == ts && ([TArrow] + body)[1..] == body;
    NamesBack(e.params, [TArrow] + body);
    WholeBack(e.body, 0, 1, rest);
    LoopStops(e.body, rest, 1);
    ExprIs(body);
    FieldsStop(e, rest);
    AtomAlone([TBackslash] + ts, e, rest);
  }

  /** An expression printed bare, where it binds tightly enough. */
  lemma {:induction false} BareBack(e: Expr, q: nat, p: nat, rest: seq<Tok>)
    requires Printable(e) && Power(e) >= q && 1 <= p && (p <= q || (q == 0 && p == 1)) && q <= 7
    requires NoGlue(rest) && OpAtMost(rest, q)
    ensures PBin(Raw(e) + rest, p) == PLoop(e, rest, p)
    decreases e, 3, 0
  {
    hide Printable, PUnary, PLoop, PBin, Raw;
    if e.Binop? {
      BinopBack(e, q, p, rest);
    } else {
      if e.App? { AppBack(e, rest); }
      else if e.Lambda? { LambdaBack(e, rest); }
      else if Prefixed(e) { PrefixBack(e, rest); }
      else if e.Borrow? { BorrowBack(e, rest); }
      else { AtomUnary(e, rest); }
      BinFrom(Raw(e) + rest, e, rest, p);
    }
  }

  lemma {:induction false} AtomUnary(e: Expr, rest: seq<Tok>)
    requires Printable(e) && !e.Binop? && !e.App? && !e.Lambda? && !Prefixed(e) && !e.Borrow? && NoGlue(rest)
    ensures PUnary(Raw(e) + rest) == Ok(e, rest)
    decreases e, 2, 1
  {
    hide Printable, PUnary, PPostfix, Raw;
    AtomPower(e);
    AtomBack(e, rest);
    FieldsStop(e, rest);
    FirstAtom(e);
    PeekApp(Raw(e), rest);
    AtomAlone(Raw(e) + rest, e, rest);
  }

  lemma AtomPower(e: Expr)
    requires Printable(e) && !e.Binop? && !e.App? && !e.Lambda?
    ensures Power(e) == 10
  {}

  lemma {:induction false} BorrowBack(e: Expr, rest: seq<Tok>)
    requires e.Borrow? && Printable(e) && NoGlue(rest)
    ensures PUnary(Raw(e) + rest) == Ok(e, rest)
    decreases e, 1, 0
  {
    hide PAtom;
    var ts := Flat(e.operand, 10) + rest;
    assert Raw(e) + rest == [TAmp] + ts && ([TAmp] + ts)[1..] == ts;
    ArgBack(e.operand, rest);
    AtomAlone([TAmp] + ts, e, rest);
  }

  lemma {:induction false} BinopBack(e: Expr, q: nat, p: nat, rest: seq<Tok>)
    requires e.Binop? && Printable(e) && Prec(e.op) >= q && 1 <= p && (p <= q || (q == 0 && p == 1)) && q <= 7
    requires NoGlue(rest) && OpAtMost(rest, q)
    ensures PBin(Raw(e) + rest, p) == PLoop(e, rest, p)
    decreases e, 1, 0
  {
    hide PBin, PLoop, Flat;
    var op, l, r := e.op, e.left, e.right;
    var right := Flat(r, Prec(op) + 1) + rest;
    var tail := [TOp(op)] + right;
    assert Raw(e) + rest == Flat(l, Prec(op)) + tail;
    WholeBack(l, Prec(op), p, tail);
    WholeBack(r, Prec(op) + 1, Prec(op) + 1, rest);
    LoopStops(r, rest, Prec(op) + 1);
    LoopGoes(l, op, right, p, r, rest);
  }

  /** Parsing at a level undoes printing for it: what is left is what follows, to
      be taken up by the loop over operators. */
  lemma {:induction false} WholeBack(e: Expr, q: nat, p: nat, rest: seq<Tok>)
    requires Printable(e) && 1 <= p && (p <= q || (q == 0 && p == 1)) && q <= 7
    requires NoGlue(rest) && OpAtMost(rest, q)
    ensures PBin(Flat(e, q) + rest, p) == PLoop(e, rest, p)
    decreases e, 6, 0
  {
    hide Printable, PUnary, PLoop, PBin, Raw, PPostfix;
    if Power(e) >= q {
      BareBack(e, q, p, rest);
    } else {
      assert Flat(e, q) == Flat(e, 10);
      assert !Prefixed(e);
      ArgBack(e, rest);
      FirstAtom(e);
      PeekApp(Flat(e, 10), rest);
      AtomAlone(Flat(e, 10) + rest, e, rest);
      BinFrom(Flat(e, 10) + rest, e, rest, p);
    }
  }

  /** Printing for a context and parsing at its level give the expression back,
      and leave alone any suffix that cannot continue it. */
  lemma ExprRoundTrip(e: Expr, need: nat, rest: seq<Tok>)
    requires Printable(e) && need <= 7 && NoGlue(rest)
    requires Peek(rest).TOp? ==> Prec(Peek(rest).op) < need
    ensures PBin(Flat(e, need) + rest, if need == 0 then 1 else need) == Ok(e, rest)
  {
    hide Printable, PBin, Flat;
    var p := if need == 0 then 1 else need;
    WholeBack(e, need, p, rest);
    LoopStops(e, rest, p);
  }

  // --------------------------------------------------------------------- types

  /** Tuples have two parts or more; every other type is as the parser makes it. */
  predicate PrintableTy(t: Ty)
    decreases t
  {
    match t
    case TCon(_, args) => forall i :: 0 <= i < |args| ==> PrintableTy(args[i])
    case TVar(_) => true
    case TFun(a, b) => PrintableTy(a) && PrintableTy(b)
    case TRef(x) => PrintableTy(x)
    case TEff(x) => PrintableTy(x)
    case TTuple(ts) => |ts| >= 2 && forall i :: 0 <= i < |ts| ==> PrintableTy(ts[i])
  }

  lemma {:induction false} FirstTy(t: Ty)
    requires PrintableTy(t)
    ensures TyApp(t) != [] && StartsTypeAtom(TyApp(t)[0])
    ensures TyToks(t) != [] && StartsTypeAtom(TyToks(t)[0])
    decreases t
  {
    if t.TFun? { FirstTy(t.dom); }
  }

  lemma {:induction false} FirstTyAtom(t: Ty)
    requires PrintableTy(t)
    ensures TyAtom(t) != [] && StartsTypeAtom(TyAtom(t)[0])
    decreases t
  {
    FirstTy(t);
  }

  lemma OpenTypes(ts: seq<Tok>, parts: seq<Ty>, rest: seq<Tok>)
    requires PTyItems(ts) == Ok(parts, [TClose] + rest) && Peek(ts) != TClose && parts != []
    ensures PTyAtom([TOpen] + ts) == Ok(if |parts| == 1 then parts[0] else TTuple(parts), rest)
    ensures PTyApp([TOpen] + ts) == PTyAtom([TOpen] + ts)
  {
    hide PTyItems;
    assert ([TOpen] + ts)[1..] == ts && ([TClose] + rest)[1..] == rest;
  }

  lemma TypesOne(ts: seq<Tok>, t: Ty, rest: seq<Tok>)
    requires PTy(ts) == Ok(t, rest) && Peek(rest) != TComma
    ensures PTyItems(ts) == Ok([t], rest)
  {
    hide PTy;
  }

  lemma TypesMore(ts: seq<Tok>, t: Ty, more: seq<Tok>, us: seq<Ty>, rest: seq<Tok>)
    requires PTy(ts) == Ok(t, [TComma] + more) && PTyItems(more) == Ok(us, rest)
    ensures PTyItems(ts) == Ok([t] + us, rest)
  {
    hide PTy;
    assert ([TComma] + more)[1..] == more;
  }

  lemma {:induction false} TypesBack(parent: Ty, ts: seq<Ty>, rest: seq<Tok>)
    requires ts != [] && (forall i :: 0 <= i < |ts| ==> ts[i] < parent && PrintableTy(ts[i])) && Peek(rest) == TClose
    ensures PTyItems(TyItems(parent, ts) + rest) == Ok(ts, rest)
    decreases parent, 0, |ts|
  {
    hide PTy, TyToks, PrintableTy;
    if |ts| == 1 {
      TypeRoundTrip(ts[0], rest);
      TypesOne(TyToks(ts[0]) + rest, ts[0], rest);
      assert TyItems(parent, ts) == TyToks(ts[0]) && [ts[0]] == ts;
    } else {
      var more := TyItems(parent, ts[1..]) + rest;
      assert TyItems(parent, ts) + rest == TyToks(ts[0]) + ([TComma] + more);
      TypeRoundTrip(ts[0], [TComma] + more);
      TypesBack(parent, ts[1..], rest);
      TypesMore(TyToks(ts[0]) + ([TComma] + more), ts[0], more, ts[1..], rest);
      assert [ts[0]] + ts[1..] == ts;
    }
  }

  /** A type in parentheses, where one alone stands. */
  lemma {:induction false} ParenTypeBack(t: Ty, rest: seq<Tok>)
    requires PrintableTy(t)
    ensures PTyAtom([TOpen] + TyToks(t) + [TClose] + rest) == Ok(t, rest)
    ensures PTyApp([TOpen] + TyToks(t) + [TClose] + rest) == Ok(t, rest)
    decreases t, 4, 0
  {
    hide PTy, PTyItems, TyToks, PTyApp, PTyAtom;
    var ts := TyToks(t) + ([TClose] + rest);
    assert [TOpen] + TyToks(t) + [TClose] + rest == [TOpen] + ts;
    TypeRoundTrip(t, [TClose] + rest);
    TypesOne(ts, t, [TClose] + rest);
    FirstTy(t);
    OpenTypes(ts, [t], rest);
  }

  lemma {:induction false} TupleTypeBack(t: Ty, rest: seq<Tok>)
    requires t.TTuple? && PrintableTy(t)
    ensures PTyAtom(TyApp(t) + rest) == Ok(t, rest) && PTyApp(TyApp(t) + rest) == Ok(t, rest)
    decreases t, 1, 0
  {
    hide PTyItems, TyItems, PTyApp, PTyAtom;
    var ts := TyItems(t, t.parts) + ([TClose] + rest);
    assert TyApp(t) + rest == [TOpen] + ts;
    TypesBack(t, t.parts, [TClose] + rest);
    FirstTypes(t, t.parts);
    OpenTypes(ts, t.parts, rest);
  }

  lemma FirstTypes(parent: Ty, ts: seq<Ty>)
    requires ts != [] && forall i :: 0 <= i < |ts| ==> ts[i] < parent && PrintableTy(ts[i])
    ensures TyItems(parent, ts) != [] && TyItems(parent, ts)[0] != TClose
  {
    FirstTy(ts[0]);
  }

  lemma {:induction false} TypeAtomBack(t: Ty, rest: seq<Tok>)
    requires PrintableTy(t)
    ensures PTyAtom(TyAtom(t) + rest) == Ok(t, rest)
    decreases t, 5, 0
  {
    hide PTyItems, TyItems, PTy, TyToks, TyAtoms;
    match t
    case TRef(x) =>
      var ts := TyAtom(x) + rest;
      assert TyAtom(t) + rest == [TAmp] + ts && ([TAmp] + ts)[1..] == ts;
      TypeAtomBack(x, rest);
    case TTuple(_) => TupleTypeBack(t, rest);
    case TVar(v) => assert TyAtom(t) + rest == [TName(v)] + rest && ([TName(v)] + rest)[1..] == rest;
    case TCon(n, args) =>
      if args != [] {
        ParenTypeBack(t, rest);
      } else {
        NoTypes(t);
        assert TyAtom(t) + rest == [TCtor(n)] + rest && ([TCtor(n)] + rest)[1..] == rest;
      }
    case TFun(_, _) => ParenTypeBack(t, rest);
    case TEff(_) => ParenTypeBack(t, rest);
  }

  lemma NoTypes(parent: Ty)
    ensures TyAtoms(parent, []) == []
  {}

  lemma {:induction false} TypeArgsBack(parent: Ty, ts: seq<Ty>, rest: seq<Tok>)
    requires (forall i :: 0 <= i < |ts| ==> ts[i] < parent && PrintableTy(ts[i])) && !StartsTypeAtom(Peek(rest))
    ensures PTyAtoms(TyAtoms(parent, ts) + rest) == Ok(ts, rest)
    decreases parent, 0, |ts|
  {
    hide PTyAtom, TyAtom, PrintableTy;
    if ts == [] {
      assert TyAtoms(parent, ts) + rest == rest;
    } else {
      var tail := TyAtoms(parent, ts[1..]) + rest;
      assert TyAtoms(parent, ts) + rest == TyAtom(ts[0]) + tail;
      FirstTyAtom(ts[0]);
      PeekApp(TyAtom(ts[0]), tail);
      TypeAtomBack(ts[0], tail);
      TypeArgsBack(parent, ts[1..], rest);
      assert [ts[0]] + ts[1..] == ts;
    }
  }

  lemma {:induction false} PlainAppBack(t: Ty, rest: seq<Tok>)
    requires !t.TFun? && PrintableTy(t) && !StartsTypeAtom(Peek(rest))
    ensures PTyApp(TyApp(t) + rest) == Ok(t, rest)
    decreases t, 2, 0
  {
    hide PTyItems, TyItems, PTy, TyToks, TyAtoms, PTyAtoms;
    match t
    case TRef(x) =>
      var ts := TyApp(x) + rest;
      assert TyApp(t) + rest == [TAmp] + ts && ([TAmp] + ts)[1..] == ts;
      TypeAppBack(x, rest);
    case TEff(x) =>
      var ts := TyApp(x) + rest;
      assert TyApp(t) + rest == [TEffect] + ts && ([TEffect] + ts)[1..] == ts;
      TypeAppBack(x, rest);
    case TTuple(_) => TupleTypeBack(t, rest);
    case TVar(v) => assert TyApp(t) + rest == [TName(v)] + rest && ([TName(v)] + rest)[1..] == rest;
    case TCon(n, args) =>
      var ts := TyAtoms(t, args) + rest;
      assert TyApp(t) + rest == [TCtor(n)] + ts && ([TCtor(n)] + ts)[1..] == ts;
      TypeArgsBack(t, args, rest);
  }

  lemma {:induction false} TypeAppBack(t: Ty, rest: seq<Tok>)
    requires PrintableTy(t) && !StartsTypeAtom(Peek(rest))
    ensures PTyApp(TyApp(t) + rest) == Ok(t, rest)
    decreases t, 5, 0
  {
    hide PTyApp, TyApp, TyToks, PrintableTy;
    if t.TFun? {
      ParenTypeBack(t, rest);
      FunParens(t);
    } else {
      PlainAppBack(t, rest);
    }
  }

  lemma FunParens(t: Ty)
    requires t.TFun?
    ensures TyApp(t) == [TOpen] + TyToks(t) + [TClose]
  {}

  /** Parsing a printed type gives the type back and leaves what follows it. */
  lemma {:induction false} TypeRoundTrip(t: Ty, rest: seq<Tok>)
    requires PrintableTy(t) && !StartsTypeAtom(Peek(rest)) && Peek(rest) != TArrow
    ensures PTy(TyToks(t) + rest) == Ok(t, rest)
    decreases t, 3, 0
  {
    hide PTyApp, TyApp;
    if t.TFun? {
      var after := TyToks(t.cod) + rest;
      assert TyToks(t) + rest == TyApp(t.dom) + ([TArrow] + after) && ([TArrow] + after)[1..] == after;
      TypeAppBack(t.dom, [TArrow] + after);
      TypeRoundTrip(t.cod, rest);
    } else {
      assert TyToks(t) == TyApp(t);
      PlainAppBack(t, rest);
    }
  }

  // ------------------------------------------------------------------ patterns

  /** Literals carry no sign, and tuples have two parts or more; a wildcard is
      left out because it comes back as the name `_`. */
  predicate PrintablePat(p: Pat)
    decreases p
  {
    match p
    case PWild => false
    case PInt(n) => n >= 0
    case PFloat(x) => x >= 0.0
    case PCtor(_, args) => forall i :: 0 <= i < |args| ==> PrintablePat(args[i])
    case PList(ps) => forall i :: 0 <= i < |ps| ==> PrintablePat(ps[i])
    case PTuple(ps) => |ps| >= 2 && forall i :: 0 <= i < |ps| ==> PrintablePat(ps[i])
    case _ => true
  }

  lemma FirstPat(p: Pat)
    requires PrintablePat(p)
    ensures PatToks(p) != [] && StartsPatAtom(PatToks(p)[0]) && PatAtom(p) != [] && StartsPatAtom(PatAtom(p)[0])
  {}

  lemma PatsOne(ts: seq<Tok>, p: Pat, rest: seq<Tok>)
    requires PPat(ts) == Ok(p, rest) && Peek(rest) != TComma
    ensures PPatItems(ts) == Ok([p], rest)
  {
    hide PPat;
  }

  lemma PatsMore(ts: seq<Tok>, p: Pat, more: seq<Tok>, ps: seq<Pat>, rest: seq<Tok>)
    requires PPat(ts) == Ok(p, [TComma] + more) && PPatItems(more) == Ok(ps, rest)
    ensures PPatItems(ts) == Ok([p] + ps, rest)
  {
    hide PPat;
    assert ([TComma] + more)[1..] == more;
  }

  lemma {:induction false} PatsBack(parent: Pat, ps: seq<Pat>, rest: seq<Tok>)
    requires ps != [] && (forall i :: 0 <= i < |ps| ==> ps[i] < parent && PrintablePat(ps[i]))
    requires Peek(rest) == TClose || Peek(rest) == TCloseList
    ensures PPatItems(PatItems(parent, ps) + rest) == Ok(ps, rest)
    decreases parent, 0, |ps|
  {
    hide PPat, PatToks, PrintablePat;
    if |ps| == 1 {
      PatRoundTrip(ps[0], rest);
      PatsOne(PatToks(ps[0]) + rest, ps[0], rest);
      assert PatItems(parent, ps) == PatToks(ps[0]) && [ps[0]] == ps;
    } else {
      var more := PatItems(parent, ps[1..]) + rest;
      assert PatItems(parent, ps) + rest == PatToks(ps[0]) + ([TComma] + more);
      PatRoundTrip(ps[0], [TComma] + more);
      PatsBack(parent, ps[1..], rest);
      PatsMore(PatToks(ps[0]) + ([TComma] + more), ps[0], more, ps[1..], rest);
      assert [ps[0]] + ps[1..] == ps;
    }
  }

  lemma FirstPats(parent: Pat, ps: seq<Pat>)
    requires ps != [] && forall i :: 0 <= i < |ps| ==> ps[i] < parent && PrintablePat(ps[i])
    ensures PatItems(parent, ps) != [] && PatItems(parent, ps)[0] != TCloseList
  {
    FirstPat(ps[0]);
  }

  lemma OpenPats(ts: seq<Tok>, ps: seq<Pat>, rest: seq<Tok>)
    requires PPatItems(ts) == Ok(ps, [TClose] + rest) && ps != []
    ensures PPatAtom([TOpen] + ts) == Ok(if |ps| == 1 then ps[0] else PTuple(ps), rest)
  {
    hide PPatItems;
    assert ([TOpen] + ts)[1..] == ts && ([TClose] + rest)[1..] == rest;
  }

  lemma {:induction false} ListPatBack(p: Pat, rest: seq<Tok>)
    requires p.PList? && PrintablePat(p)
    ensures PPatAtom(PatToks(p) + rest) == Ok(p, rest)
    decreases p, 1, 0
  {
    hide PPatItems, PatItems;
    var close := [TCloseList] + rest;
    var ts := PatItems(p, p.items) + close;
    assert PatToks(p) + rest == [TOpenList] + ts && ([TOpenList] + ts)[1..] == ts && close[1..] == rest;
    if p.items == [] {
      NoPats(p);
      assert ts == close && ([TOpenList] + ts)[2..] == rest;
    } else {
      PatsBack(p, p.items, close);
      FirstPats(p, p.items);
    }
  }

  lemma NoPats(parent: Pat)
    ensures PatItems(parent, []) == [] && PatAtoms(parent, []) == []
  {}

  lemma {:induction false} TuplePatBack(p: Pat, rest: seq<Tok>)
    requires p.PTuple? && PrintablePat(p)
    ensures PPatAtom(PatToks(p) + rest) == Ok(p, rest)
    decreases p, 1, 0
  {
    hide PPatItems, PatItems, PPatAtom;
    var ts := PatItems(p, p.parts) + ([TClose] + rest);
    assert PatToks(p) + rest == [TOpen] + ts;
    PatsBack(p, p.parts, [TClose] + rest);
    OpenPats(ts, p.parts, rest);
  }

  lemma LiteralPatBack(p: Pat, rest: seq<Tok>)
    requires PrintablePat(p) && !p.PList? && !p.PTuple? && !p.PCtor?
    ensures PPatAtom(PatToks(p) + rest) == Ok(p, rest)
  {
    hide PPatItems;
    var ts := PatToks(p) + rest;
    assert |PatToks(p)| == 1 && ts[1..] == rest && Peek(ts) == PatToks(p)[0];
  }

  lemma {:induction false} PatAtomBack(p: Pat, rest: seq<Tok>)
    requires PrintablePat(p)
    ensures PPatAtom(PatAtom(p) + rest) == Ok(p, rest)
    decreases p, 3, 0
  {
    hide PPatItems, PPat, PatItems, PatAtoms, PatToks, PPatAtom;
    if p.PCtor? {
      if p.args == [] {
        BareCtorBack(p, rest);
      } else {
        var ts := PatToks(p) + ([TClose] + rest);
        assert PatAtom(p) + rest == [TOpen] + ts;
        CtorPatBack(p, [TClose] + rest);
        PatsOne(ts, p, [TClose] + rest);
        OpenPats(ts, [p], rest);
      }
    } else if p.PList? {
      ListPatBack(p, rest);
    } else if p.PTuple? {
      TuplePatBack(p, rest);
    } else {
      LiteralPatBack(p, rest);
    }
  }

  lemma BareCtorBack(p: Pat, rest: seq<Tok>)
    requires p.PCtor? && p.args == []
    ensures PPatAtom(PatToks(p) + rest) == Ok(p, rest)
  {
    NoPats(p);
    var ts := [TCtor(p.ctor)] + rest;
    assert PatToks(p) + rest == ts && ts[1..] == rest;
  }

  lemma {:induction false} PatArgsBack(parent: Pat, ps: seq<Pat>, rest: seq<Tok>)
    requires (forall i :: 0 <= i < |ps| ==> ps[i] < parent && PrintablePat(ps[i])) && !StartsPatAtom(Peek(rest))
    ensures PPatAtoms(PatAtoms(parent, ps) + rest) == Ok(ps, rest)
    decreases parent, 0, |ps|
  {
    hide PPatAtom, PatAtom, PrintablePat;
    if ps == [] {
      assert PatAtoms(parent, ps) + rest == rest;
    } else {
      var tail := PatAtoms(parent, ps[1..]) + rest;
      assert PatAtoms(parent, ps) + rest == PatAtom(ps[0]) + tail;
      FirstPat(ps[0]);
      PeekApp(PatAtom(ps[0]), tail);
      PatAtomBack(ps[0], tail);
      PatArgsBack(parent, ps[1..], rest);
      assert [ps[0]] + ps[1..] == ps;
    }
  }

  lemma {:induction false} CtorPatBack(p: Pat, rest: seq<Tok>)
    requires p.PCtor? && PrintablePat(p) && !StartsPatAtom(Peek(rest))
    ensures PPat(PatToks(p) + rest) == Ok(p, rest)
    decreases p, 1, 0
  {
    hide PPatAtoms, PatAtoms;
    var ts := PatAtoms(p, p.args) + rest;
    assert PatToks(p) + rest == [TCtor(p.ctor)] + ts && ([TCtor(p.ctor)] + ts)[1..] == ts;
    PatArgsBack(p, p.args, rest);
  }

  /** Parsing a printed pattern gives the pattern back and leaves what follows. */
  lemma {:induction false} PatRoundTrip(p: Pat, rest: seq<Tok>)
    requires PrintablePat(p) && !StartsPatAtom(Peek(rest))
    ensures PPat(PatToks(p) + rest) == Ok(p, rest)
    decreases p, 4, 0
  {
    hide PPatAtom, PrintablePat, PatToks;
    if p.PCtor? {
      CtorPatBack(p, rest);
    } else {
      PatAtomBack(p, rest);
      FirstPat(p);
      assert PatAtom(p) == PatToks(p);
      PeekApp(PatToks(p), rest);
      NotCtorFirst(p);
    }
  }

  lemma NotCtorFirst(p: Pat)
    requires PrintablePat(p) && !p.PCtor?
    ensures PatToks(p) != [] && !PatToks(p)[0].TCtor?
  {}

  /** A wildcard does not survive: `_` is read as a name. */
  lemma WildReadsAsName(rest: seq<Tok>)
    ensures PPat(PatToks(PWild) + rest) == Ok(PVar("_"), rest)
  {
    var ts := [TName("_")] + rest;
    assert PatToks(PWild) + rest == ts && ts[1..] == rest;
  }

  /** A sign among arguments does not survive either: it is printed bare, and
      read as the operator. */
  lemma SignReadsAsOperator(f: string, x: string)
    ensures var e := App(Var(f), [Neg(Var(x))]);
            PExpr(Flat(e, 0)) == Ok(Binop(Sub, Var(f), Var(x)), [])
  {
    var v, w := Var(f), Var(x);
    var sign, minus := Neg(w), Binop(Sub, v, w);
    var e := App(v, [sign]);
    assert Raw(v) == [TName(f)] && Raw(w) == [TName(x)];
    assert Flat(v, 10) == Raw(v) && Flat(w, 10) == Raw(w) && Flat(v, 5) == Raw(v) && Flat(w, 6) == Raw(w);
    assert Flat(sign, 10) == [TOp(Sub)] + Flat(w, 10);
    assert e.args[1..] == [] && FlatArgs(e, e.args) == Flat(sign, 10) + FlatArgs(e, []);
    assert Flat(e, 0) == Flat(v, 10) + FlatArgs(e, e.args);
    assert Flat(minus, 0) == Flat(v, 5) + [TOp(Sub)] + Flat(w, 6);
    assert Flat(e, 0) == Flat(minus, 0) + [];
    assert Printable(v) && Printable(w);
    ExprRoundTrip(minus, 0, []);
    ExprIs(Flat(e, 0));
  }
}
