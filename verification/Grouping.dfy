/** Which operands an operator takes and which parentheses are printed
    (src/parser.rs, src/view.rs), told without binding powers: by a list of
    classes of operators. */
module Grouping {
  import opened Ast
  import opened Printer
  import opened Parsing
  import opened RoundTrip

  /** The operators by class, the loosest first. */
  const CLASSES: seq<set<BinOp>> := [{Or}, {And}, {Eq, Ne, Lt, Le, Gt, Ge}, {Concat}, {Add, Sub}, {Mul, Div}]

  predicate Before(p: BinOp, o: BinOp, i: nat, j: nat) {
    i < j < |CLASSES| && p in CLASSES[i] && o in CLASSES[j]
  }

  /** The class of `o` comes after that of `p`. */
  ghost predicate Later(o: BinOp, p: BinOp) { exists i: nat, j: nat :: Before(p, o, i, j) }

  lemma ClassOf(o: BinOp)
    ensures 1 <= Prec(o) <= |CLASSES|
    ensures forall i: nat :: i < |CLASSES| ==> (o in CLASSES[i] <==> Prec(o) == i + 1)
  {}

  /** Binding powers stand as the classes do. */
  lemma PowersFollowClasses(o: BinOp, p: BinOp)
    ensures Later(o, p) <==> Prec(p) < Prec(o)
  {
    hide Prec;
    ClassOf(o);
    ClassOf(p);
    if Prec(p) < Prec(o) { assert Before(p, o, Prec(p) - 1, Prec(o) - 1); }
  }

  // -------------------------------------------------------------------- chains

  /** The operator a chain falls apart at: of those in its loosest class, the last. */
  ghost predicate Splits(ops: seq<BinOp>, k: nat) {
    && k < |ops|
    && (forall j :: 0 <= j < k ==> !Later(ops[k], ops[j]))
    && (forall j :: k < j < |ops| ==> Later(ops[j], ops[k]))
  }

  /** `e` is the tree of the chain `x0 o0 x1 o1 .. xn`: split at that operator. */
  ghost predicate Groups(e: Expr, xs: seq<Expr>, ops: seq<BinOp>)
    requires |xs| == |ops| + 1
    decreases |ops|
  {
    if ops == [] then e == xs[0]
    else
      && e.Binop?
      && exists k: nat :: Splits(ops, k) && e.op == ops[k]
                       && Groups(e.left, xs[..k + 1], ops[..k]) && Groups(e.right, xs[k + 1..], ops[k + 1..])
  }

  /** The tokens of a chain. Applications and atoms stand bare, and everything else
      in parentheses. */
  function Chain(xs: seq<Expr>, ops: seq<BinOp>): seq<Tok>
    requires |xs| == |ops| + 1
    decreases |ops|
  {
    if ops == [] then Flat(xs[0], 7) else Flat(xs[0], 7) + [TOp(ops[0])] + Chain(xs[1..], ops[1..])
  }

  lemma {:induction false} ChainSplits(xs: seq<Expr>, ops: seq<BinOp>, k: nat)
    requires |xs| == |ops| + 1 && k < |ops|
    ensures Chain(xs, ops) == Chain(xs[..k + 1], ops[..k]) + [TOp(ops[k])] + Chain(xs[k + 1..], ops[k + 1..])
    decreases |ops|
  {
    hide Flat;
    if k == 0 {
      assert ops[..0] == [] && xs[..1][0] == xs[0];
    } else {
      ChainSplits(xs[1..], ops[1..], k - 1);
      assert xs[..k + 1][1..] == xs[1..][..k] && ops[..k][1..] == ops[1..][..k - 1];
      assert xs[1..][k..] == xs[k + 1..] && ops[1..][k..] == ops[k + 1..];
      assert ops[..k][0] == ops[0] && xs[..k + 1][0] == xs[0];
    }
  }

  /** Every chain falls apart somewhere. */
  lemma {:induction false} SplitExists(ops: seq<BinOp>) returns (k: nat)
    requires ops != []
    ensures Splits(ops, k)
    decreases |ops|
  {
    hide Later;
    if |ops| == 1 { return 0; }
    var m := SplitExists(ops[1..]);
    k := m + 1;
    if Later(ops[k], ops[0]) {
      k := 0;
      forall j | 0 < j < |ops| ensures Later(ops[j], ops[0]) {
        assert ops[j] == ops[1..][j - 1];
        PowersFollowClasses(ops[m + 1], ops[0]);
        PowersFollowClasses(ops[j], ops[0]);
        PowersFollowClasses(ops[j], ops[m + 1]);
        PowersFollowClasses(ops[m + 1], ops[j]);
        assert j - 1 < m ==> !Later(ops[1..][m], ops[1..][j - 1]);
        assert j - 1 > m ==> Later(ops[1..][j - 1], ops[1..][m]);
      }
    } else {
      forall j | 0 <= j < k ensures !Later(ops[k], ops[j]) {
        if j > 0 { assert ops[j] == ops[1..][j - 1]; }
      }
      forall j | k < j < |ops| ensures Later(ops[j], ops[k]) {
        assert ops[j] == ops[1..][j - 1];
      }
    }
  }

  lemma {:induction false} TreeExists(xs: seq<Expr>, ops: seq<BinOp>) returns (e: Expr)
    requires |xs| == |ops| + 1
    ensures Groups(e, xs, ops)
    decreases |ops|
  {
    hide Splits;
    if ops == [] { return xs[0]; }
    var k := SplitExists(ops);
    assert k < |ops| by { SplitInside(ops, k); }
    var l := TreeExists(xs[..k + 1], ops[..k]);
    var r := TreeExists(xs[k + 1..], ops[k + 1..]);
    e := Binop(ops[k], l, r);
  }

  lemma SplitInside(ops: seq<BinOp>, k: nat)
    requires Splits(ops, k)
    ensures k < |ops|
  {}

  ghost predicate AtLeast(ops: seq<BinOp>, p: nat) { forall j :: 0 <= j < |ops| ==> Prec(ops[j]) >= p }

  lemma SplitPowers(ops: seq<BinOp>, k: nat, p: nat)
    requires Splits(ops, k) && AtLeast(ops, p)
    ensures AtLeast(ops[..k], p) && AtLeast(ops[..k], Prec(ops[k])) && AtLeast(ops[k + 1..], Prec(ops[k]) + 1)
    ensures p <= Prec(ops[k]) && 1 <= Prec(ops[k]) <= 6
  {
    hide Prec, Later;
    forall j | 0 <= j < |ops|
      ensures Prec(ops[j]) >= p && (j < k ==> Prec(ops[j]) >= Prec(ops[k])) && (j > k ==> Prec(ops[j]) > Prec(ops[k]))
    {
      PowersFollowClasses(ops[k], ops[j]);
      PowersFollowClasses(ops[j], ops[k]);
    }
    ClassOf(ops[k]);
  }

  predicate AllPrintable(xs: seq<Expr>) { forall i :: 0 <= i < |xs| ==> Printable(xs[i]) }

  /** An operator after the chain binds no tighter than those in it. */
  ghost predicate NoTighter(ts: seq<Tok>, ops: seq<BinOp>) { Peek(ts).TOp? ==> AtLeast(ops, Prec(Peek(ts).op)) }

  /** Parsing a chain comes to its tree and the loop over what follows. */
  lemma {:induction false} ChainBack(e: Expr, xs: seq<Expr>, ops: seq<BinOp>, p: nat, rest: seq<Tok>)
    requires |xs| == |ops| + 1 && AllPrintable(xs) && Groups(e, xs, ops)
    requires 1 <= p <= 7 && AtLeast(ops, p) && NoGlue(rest) && NoTighter(rest, ops)
    ensures PBin(Chain(xs, ops) + rest, p) == PLoop(e, rest, p)
    decreases |ops|
  {
    hide PBin, PLoop, Flat, Printable, Splits, Prec, Later, NoGlue;
    if ops == [] {
      OpLow(rest);
      WholeBack(e, 7, p, rest);
    } else {
      var k := SplitOf(e, xs, ops);
      SplitPowers(ops, k, p);
      var right := Chain(xs[k + 1..], ops[k + 1..]) + rest;
      var tail := [TOp(ops[k])] + right;
      ChainSplits(xs, ops, k);
      assert Chain(xs, ops) + rest == Chain(xs[..k + 1], ops[..k]) + tail;
      TailFits(ops, k, right);
      ChainBack(e.left, xs[..k + 1], ops[..k], p, tail);
      RestFits(ops, k, rest);
      ChainBack(e.right, xs[k + 1..], ops[k + 1..], Prec(ops[k]) + 1, rest);
      LoopStops(e.right, rest, Prec(ops[k]) + 1);
      LoopGoes(e.left, ops[k], right, p, e.right, rest);
      assert e == Binop(ops[k], e.left, e.right);
    }
  }

  lemma SplitOf(e: Expr, xs: seq<Expr>, ops: seq<BinOp>) returns (k: nat)
    requires |xs| == |ops| + 1 && ops != [] && Groups(e, xs, ops)
    ensures k < |ops| && Splits(ops, k) && e.Binop? && e.op == ops[k]
    ensures Groups(e.left, xs[..k + 1], ops[..k]) && Groups(e.right, xs[k + 1..], ops[k + 1..])
  {
    hide Later;
    k :| Splits(ops, k) && e.op == ops[k]
         && Groups(e.left, xs[..k + 1], ops[..k]) && Groups(e.right, xs[k + 1..], ops[k + 1..]);
  }

  lemma OpLow(ts: seq<Tok>)
    ensures OpAtMost(ts, 7)
  {}

  lemma TailFits(ops: seq<BinOp>, k: nat, right: seq<Tok>)
    requires k < |ops| && AtLeast(ops[..k], Prec(ops[k]))
    ensures NoGlue([TOp(ops[k])] + right) && NoTighter([TOp(ops[k])] + right, ops[..k])
  {
    hide Prec;
    PeekApp([TOp(ops[k])], right);
  }

  lemma RestFits(ops: seq<BinOp>, k: nat, rest: seq<Tok>)
    requires Splits(ops, k) && NoTighter(rest, ops)
    ensures NoTighter(rest, ops[k + 1..]) && (Peek(rest).TOp? ==> Prec(Peek(rest).op) < Prec(ops[k]) + 1)
  {
    hide Prec, Later;
  }

  /** A chain of any operands is read as exactly one tree: the one that splits, all the
      way down, at the last operator of the loosest class. */
  lemma ChainParses(e: Expr, xs: seq<Expr>, ops: seq<BinOp>, rest: seq<Tok>)
    requires |xs| == |ops| + 1 && AllPrintable(xs) && NoGlue(rest) && !Peek(rest).TOp?
    ensures PExpr(Chain(xs, ops) + rest) == Ok(e, rest) <==> Groups(e, xs, ops)
  {
    hide Groups, Chain, PBin, Printable, PLoop, NoGlue;
    var t := TreeExists(xs, ops);
    TreeParses(t, xs, ops, rest);
    if Groups(e, xs, ops) { TreeParses(e, xs, ops, rest); }
  }

  lemma TreeParses(e: Expr, xs: seq<Expr>, ops: seq<BinOp>, rest: seq<Tok>)
    requires |xs| == |ops| + 1 && AllPrintable(xs) && NoGlue(rest) && !Peek(rest).TOp?
    requires Groups(e, xs, ops)
    ensures PExpr(Chain(xs, ops) + rest) == Ok(e, rest)
  {
    hide Groups, Chain, PBin, Printable, PLoop, NoGlue, Prec;
    forall j | 0 <= j < |ops| ensures Prec(ops[j]) >= 1 { ClassOf(ops[j]); }
    ChainBack(e, xs, ops, 1, rest);
    LoopStops(e, rest, 1);
    ExprIs(Chain(xs, ops) + rest);
  }

  /** With two operators: the second takes the middle operand exactly where its class
      comes later, and the first does everywhere else. */
  lemma TwoOperators(a: Expr, o1: BinOp, b: Expr, o2: BinOp, c: Expr, rest: seq<Tok>)
    requires Printable(a) && Printable(b) && Printable(c) && NoGlue(rest) && !Peek(rest).TOp?
    ensures PExpr(Flat(a, 7) + [TOp(o1)] + Flat(b, 7) + [TOp(o2)] + Flat(c, 7) + rest)
         == Ok(if Later(o2, o1) then Binop(o1, a, Binop(o2, b, c)) else Binop(o2, Binop(o1, a, b), c), rest)
  {
    hide Later, Flat, Printable, NoGlue, PExpr, Chain, Groups;
    var xs, ops := [a, b, c], [o1, o2];
    var e := if Later(o2, o1) then Binop(o1, a, Binop(o2, b, c)) else Binop(o2, Binop(o1, a, b), c);
    TwoGrouped(a, o1, b, o2, c);
    ChainParses(e, xs, ops, rest);
    ChainOfTwo(a, o1, b, o2, c);
    Regroup(Flat(a, 7), [TOp(o1)], Flat(b, 7), [TOp(o2)], Flat(c, 7), rest);
  }

  lemma Regroup(a: seq<Tok>, b: seq<Tok>, c: seq<Tok>, d: seq<Tok>, e: seq<Tok>, rest: seq<Tok>)
    ensures a + b + (c + d + e) + rest == a + b + c + d + e + rest
  {
    assert a + b + (c + d + e) == a + b + c + d + e;
  }

  lemma ChainOfTwo(a: Expr, o1: BinOp, b: Expr, o2: BinOp, c: Expr)
    ensures Chain([a, b, c], [o1, o2]) == Flat(a, 7) + [TOp(o1)] + (Flat(b, 7) + [TOp(o2)] + Flat(c, 7))
  {
    hide Flat;
    var xs, ops := [a, b, c], [o1, o2];
    assert xs[1..] == [b, c] && ops[1..] == [o2] && xs[1..][1..] == [c] && ops[1..][1..] == [];
    assert Chain([c], []) == Flat(c, 7);
    assert Chain(xs[1..], ops[1..]) == Flat(b, 7) + [TOp(o2)] + Chain([c], []);
  }

  lemma OneGrouped(a: Expr, o: BinOp, b: Expr)
    ensures Groups(Binop(o, a, b), [a, b], [o])
  {
    hide Later;
    var xs, ops := [a, b], [o];
    assert xs[..1] == [a] && ops[..0] == [] && xs[1..] == [b] && ops[1..] == [];
    assert Groups(a, [a], []) && Groups(b, [b], []);
    assert Splits(ops, 0);
  }

  lemma TwoGrouped(a: Expr, o1: BinOp, b: Expr, o2: BinOp, c: Expr)
    ensures Groups(if Later(o2, o1) then Binop(o1, a, Binop(o2, b, c)) else Binop(o2, Binop(o1, a, b), c),
                   [a, b, c], [o1, o2])
  {
    hide Later;
    var xs, ops := [a, b, c], [o1, o2];
    assert Groups(a, [a], []) && Groups(c, [c], []);
    if Later(o2, o1) {
      OneGrouped(b, o2, c);
      assert xs[..1] == [a] && ops[..0] == [] && xs[1..] == [b, c] && ops[1..] == [o2];
      assert Splits(ops, 0);
    } else {
      OneGrouped(a, o1, b);
      assert xs[..2] == [a, b] && ops[..1] == [o1] && xs[2..] == [c] && ops[2..] == [];
      assert Splits(ops, 1);
    }
  }

  // --------------------------------------------------------- prefix and suffix

  lemma PrefixStep(ts: seq<Tok>, e: Expr, rest: seq<Tok>)
    requires PUnary(ts) == Ok(e, rest)
    ensures PUnary([TOp(Sub)] + ts) == Ok(Neg(e), rest) && PUnary([TBang] + ts) == Ok(Not(e), rest)
  {
    hide PApp;
    assert ([TOp(Sub)] + ts)[1..] == ts && ([TBang] + ts)[1..] == ts;
  }

  /** A sign or a `!` takes a whole application. */
  lemma PrefixTakesApplication(e: Expr, rest: seq<Tok>)
    requires Printable(e) && (e.App? || Power(e) == 10) && NoGlue(rest)
    ensures PUnary([TOp(Sub)] + Raw(e) + rest) == Ok(Neg(e), rest)
    ensures PUnary([TBang] + Raw(e) + rest) == Ok(Not(e), rest)
  {
    hide Raw, PUnary, Printable, NoGlue, Prec;
    var ts := Raw(e) + rest;
    if e.App? { AppBack(e, rest); }
    else if Prefixed(e) { PrefixBack(e, rest); }
    else if e.Borrow? { BorrowBack(e, rest); }
    else { AtomUnary(e, rest) by { if e.Binop? { ClassOf(e.op); } } }
    PrefixStep(ts, e, rest);
    assert [TOp(Sub)] + Raw(e) + rest == [TOp(Sub)] + ts && [TBang] + Raw(e) + rest == [TBang] + ts;
  }

  lemma LambdaStep(ts: seq<Tok>, ps: seq<string>, body: seq<Tok>, b: Expr, rest: seq<Tok>)
    requires PNames(ts) == (ps, [TArrow] + body) && PExpr(body) == Ok(b, rest)
    ensures PAtom([TBackslash] + ts) == Ok(Lambda(ps, b), rest)
  {
    hide PNames, PExpr, PItems;
    assert ([TBackslash] + ts)[1..] == ts && ([TArrow] + body)[1..] == body;
  }

  lemma LambdaAtom(e: Expr, rest: seq<Tok>)
    requires e.Lambda? && Printable(e) && NoGlue(rest) && !Peek(rest).TOp?
    ensures PPostfix(Raw(e) + rest) == Ok(e, rest)
  {
    hide Flat, NameToks, PNames, PExpr, PItems, PAtom, PBin, PLoop;
    var body := Flat(e.body, 0) + rest;
    var ts := NameToks(e.params) + ([TArrow] + body);
    assert Raw(e) + rest == [TBackslash] + ts;
    NamesBack(e.params, [TArrow] + body);
    WholeBack(e.body, 0, 1, rest);
    LoopStops(e.body, rest, 1);
    ExprIs(body);
    LambdaStep(ts, e.params, body, e.body, rest);
    FieldsStop(e, rest);
  }

  /** A lambda needs no parentheses as a last argument, though it is printed with them. */
  lemma BareLambdaArgument(f: Expr, e: Expr, rest: seq<Tok>)
    requires Printable(f) && !Prefixed(f) && e.Lambda? && Printable(e) && NoGlue(rest) && !Peek(rest).TOp?
    ensures PUnary(Flat(f, 10) + Raw(e) + rest) == Ok(App(f, [e]), rest)
  {
    hide PPostfix, PArgs, Flat, FlatArgs, Raw, Printable, NoGlue;
    var tail := Raw(e) + rest;
    assert Flat(f, 10) + Raw(e) + rest == Flat(f, 10) + tail;
    FirstAtom(f);
    PeekApp(Flat(f, 10), tail);
    UnaryIsApp(Flat(f, 10) + tail);
    LambdaFirst(e);
    PeekApp(Raw(e), rest);
    NoArgsHere(rest);
    ArgBack(f, tail);
    LambdaAtom(e, rest);
    ArgsStop(rest);
    OneArg(tail, e, rest);
  }

  lemma NoArgsHere(rest: seq<Tok>)
    requires NoGlue(rest)
    ensures !StartsAtom(Peek(rest))
  {}

  lemma LambdaFirst(e: Expr)
    requires e.Lambda?
    ensures Raw(e) != [] && Raw(e)[0] == TBackslash
  {}

  lemma OneArg(ts: seq<Tok>, e: Expr, rest: seq<Tok>)
    requires StartsAtom(Peek(ts)) && PPostfix(ts) == Ok(e, rest) && PArgs(rest) == Ok([], rest)
    ensures PArgs(ts) == Ok([e], rest)
  {
    hide PPostfix;
    assert [e] + [] == [e];
  }

  /** Printed, it has them, and is read the same. */
  lemma PrintedLambdaArgument(f: Expr, e: Expr, rest: seq<Tok>)
    requires Printable(f) && !Prefixed(f) && e.Lambda? && Printable(e) && NoGlue(rest)
    ensures PUnary(Flat(f, 10) + [TOpen] + Raw(e) + [TClose] + rest) == Ok(App(f, [e]), rest)
  {
    hide PUnary, Flat, Raw, NoGlue;
    AppBack(App(f, [e]), rest);
    LambdaArgumentPrinted(f, e);
  }

  lemma LambdaArgumentPrinted(f: Expr, e: Expr)
    requires e.Lambda?
    ensures Raw(App(f, [e])) == Flat(f, 10) + [TOpen] + Raw(e) + [TClose]
  {
    hide Flat, Raw;
    var a := App(f, [e]);
    AppRaw(a);
    assert a.args[1..] == [] && FlatArgs(a, a.args) == Flat(e, 10) + FlatArgs(a, []);
    AtomPrinted(e);
  }

  lemma AppRaw(e: Expr)
    requires e.App?
    ensures Raw(e) == Flat(e.head, 10) + FlatArgs(e, e.args)
  {}

  // --------------------------------------------------------------- what is read

  /** One token that is an expression is that literal or name. */
  lemma TokensRead(n: int, x: real, t: string, c: nat, b: bool, rest: seq<Tok>)
    ensures PAtom([TInt(n)] + rest) == Ok(Int(n), rest) && PAtom([TFloat(x)] + rest) == Ok(Float(x), rest)
    ensures PAtom([TStr(t)] + rest) == Ok(Str(t), rest) && PAtom([TChar(c)] + rest) == Ok(Char(c), rest)
    ensures PAtom([TBool(b)] + rest) == Ok(Bool(b), rest) && PAtom([TName(t)] + rest) == Ok(Var(t), rest)
    ensures PAtom([TCtor(t)] + rest) == Ok(Ctor(t), rest)
  {
    hide PExpr, PItems;
    forall k: Tok ensures ([k] + rest)[1..] == rest && Peek([k] + rest) == k {}
  }

  /** Arguments are read in the order in which they stand, as one application. */
  lemma ArgumentsRead(f: Expr, a: Expr, b: Expr, rest: seq<Tok>)
    requires Printable(f) && Printable(a) && Printable(b) && !Prefixed(f) && !Prefixed(a) && !Prefixed(b)
    requires NoGlue(rest)
    ensures PUnary(Flat(f, 10) + Flat(a, 10) + Flat(b, 10) + rest) == Ok(App(f, [a, b]), rest)
  {
    hide PUnary, Flat, NoGlue, Raw, FlatArgs;
    var e := App(f, [a, b]);
    assert Printable(e);
    AppBack(e, rest);
    TwoArgs(f, a, b);
  }

  lemma TwoArgs(f: Expr, a: Expr, b: Expr)
    ensures Raw(App(f, [a, b])) == Flat(f, 10) + Flat(a, 10) + Flat(b, 10)
  {
    hide Flat;
    var e := App(f, [a, b]);
    AppRaw(e);
    assert e.args[1..] == [b] && e.args[1..][1..] == [];
    assert FlatArgs(e, e.args[1..]) == Flat(b, 10) + FlatArgs(e, []);
  }

  /** The parts of a tuple, or of a list, are read in the order in which they stand. */
  lemma ItemsRead(a: Expr, b: Expr, rest: seq<Tok>)
    requires Printable(a) && Printable(b)
    ensures PAtom([TOpen] + Flat(a, 0) + [TComma] + Flat(b, 0) + [TClose] + rest) == Ok(Tuple([a, b]), rest)
    ensures PAtom([TOpenList] + Flat(a, 0) + [TComma] + Flat(b, 0) + [TCloseList] + rest) == Ok(List([a, b]), rest)
  {
    hide PAtom, PItems, Flat, FlatItems, Printable;
    var xs := [a, b];
    var close, closeList := [TClose] + rest, [TCloseList] + rest;
    var tuple := Tuple(xs);
    assert tuple.items[0] == a && tuple.items[1] == b;
    TwoItems(tuple, a, b);
    ItemsBack(tuple, xs, close);
    ItemsBack(tuple, xs, closeList);
    FirstItem(tuple, xs);
    OpenItems(FlatItems(tuple, xs) + close, xs, rest);
    ListRead(FlatItems(tuple, xs) + closeList, xs, rest);
    assert [TOpen] + Flat(a, 0) + [TComma] + Flat(b, 0) + [TClose] + rest == [TOpen] + (FlatItems(tuple, xs) + close);
    assert [TOpenList] + Flat(a, 0) + [TComma] + Flat(b, 0) + [TCloseList] + rest
        == [TOpenList] + (FlatItems(tuple, xs) + closeList);
  }

  lemma TwoItems(parent: Expr, a: Expr, b: Expr)
    requires a < parent && b < parent
    ensures FlatItems(parent, [a, b]) == Flat(a, 0) + [TComma] + Flat(b, 0)
  {
    hide Flat;
    assert [a, b][1..] == [b];
    assert FlatItems(parent, [b]) == Flat(b, 0);
  }

  lemma ListRead(ts: seq<Tok>, xs: seq<Expr>, rest: seq<Tok>)
    requires PItems(ts) == Ok(xs, [TCloseList] + rest) && Peek(ts) != TCloseList
    ensures PAtom([TOpenList] + ts) == Ok(List(xs), rest)
  {
    hide PItems, PExpr;
    assert ([TOpenList] + ts)[1..] == ts && ([TCloseList] + rest)[1..] == rest;
  }

  lemma ArrowStep(a: Ty, before: seq<Tok>, b: Ty, after: seq<Tok>, rest: seq<Tok>)
    requires PTyApp(before + ([TArrow] + after)) == Ok(a, [TArrow] + after) && PTy(after) == Ok(b, rest)
    ensures PTy(before + ([TArrow] + after)) == Ok(TFun(a, b), rest)
  {
    hide PTyApp;
    assert ([TArrow] + after)[1..] == after;
  }

  /** Arrows group to the right. */
  lemma ArrowsRead(a: Ty, b: Ty, c: Ty, rest: seq<Tok>)
    requires PrintableTy(a) && PrintableTy(b) && PrintableTy(c)
    requires !StartsTypeAtom(Peek(rest)) && Peek(rest) != TArrow
    ensures PTy(TyApp(a) + [TArrow] + TyApp(b) + [TArrow] + TyApp(c) + rest) == Ok(TFun(a, TFun(b, c)), rest)
  {
    hide PTyApp, TyApp, PrintableTy, PTy;
    var last := TyApp(c) + rest;
    var more := TyApp(b) + ([TArrow] + last);
    TypeAppBack(a, [TArrow] + more);
    TypeAppBack(b, [TArrow] + last);
    TypeAppBack(c, rest);
    NoArrow(c, last, rest);
    ArrowStep(b, TyApp(b), c, last, rest);
    ArrowStep(a, TyApp(a), TFun(b, c), more, rest);
    assert TyApp(a) + [TArrow] + TyApp(b) + [TArrow] + TyApp(c) + rest == TyApp(a) + ([TArrow] + more);
  }

  lemma NoArrow(t: Ty, ts: seq<Tok>, rest: seq<Tok>)
    requires PTyApp(ts) == Ok(t, rest) && Peek(rest) != TArrow
    ensures PTy(ts) == Ok(t, rest)
  {
    hide PTyApp;
  }

  // --------------------------------------------------------------- parentheses

  /** What never stands bare beside an operator. */
  predicate Loose(e: Expr) { e.Lambda? || e.Match? || e.Bind? || e.Let? }

  function Wrapped(e: Expr, parens: bool): seq<Tok> {
    if parens then [TOpen] + Raw(e) + [TClose] else Raw(e)
  }

  /** An operand is printed in parentheses exactly where it is itself built by an operator
      of an earlier class, or on the right of the same class, or is a lambda or a block. */
  lemma OperandsPrinted(e: Expr)
    requires e.Binop?
    ensures Raw(e) == Wrapped(e.left, Loose(e.left) || (e.left.Binop? && Later(e.op, e.left.op)))
                    + [TOp(e.op)]
                    + Wrapped(e.right, Loose(e.right) || (e.right.Binop? && !Later(e.right.op, e.op)))
  {
    hide Later, Prec;
    ClassOf(e.op);
    if e.left.Binop? { PowersFollowClasses(e.op, e.left.op); }
    if e.right.Binop? { PowersFollowClasses(e.right.op, e.op); }
    WrapsBelow(e.left, Prec(e.op));
    WrapsBelow(e.right, Prec(e.op) + 1);
    BinopRaw(e);
  }

  lemma BinopRaw(e: Expr)
    requires e.Binop?
    ensures Raw(e) == Flat(e.left, Prec(e.op)) + [TOp(e.op)] + Flat(e.right, Prec(e.op) + 1)
  {}

  lemma WrapsBelow(e: Expr, q: nat)
    requires 1 <= q <= 7
    ensures Flat(e, q) == Wrapped(e, Loose(e) || (e.Binop? && Prec(e.op) < q))
  {
    hide Raw, Prec;
  }

  /** Heads, arguments, and what stands under a sign, a borrow or a field are printed in
      parentheses exactly where they are calls, operations, lambdas or blocks. */
  lemma AtomPrinted(e: Expr)
    ensures Flat(e, 10) == Wrapped(e, Loose(e) || e.Binop? || e.App?)
  {
    hide Raw;
    if e.Binop? { ClassOf(e.op); }
  }

  /** Parentheses are refused exactly around what is printed as one token. */
  lemma ParenthesesRefused(e: Expr, rest: seq<Tok>)
    requires Printable(e)
    ensures PAtom([TOpen] + Raw(e) + [TClose] + rest) == if |Raw(e)| == 1 then Err else Ok(e, rest)
  {
    hide Printable, PBin, PItems, PAtom, PLoop, NeedsNone;
    var close := [TClose] + rest;
    var ts := Raw(e) + close;
    assert [TOpen] + Raw(e) + [TClose] + rest == [TOpen] + ts;
    assert Flat(e, 0) == Raw(e);
    WholeBack(e, 0, 1, close);
    LoopStops(e, close, 1);
    ExprIs(ts);
    ItemsOne(ts, e, close);
    FirstRaw(e);
    OpenItems(ts, [e], rest);
    OneToken(e);
  }

  lemma OneToken(e: Expr)
    requires Printable(e)
    ensures |Raw(e)| == 1 <==> NeedsNone(e)
  {
    hide Flat, FlatArgs, FlatItems, NameToks, Prec;
    match e
    case App(f, _) =>
      FirstFlat(f, 10);
      FirstArgs(e);
    case Binop(op, l, _) => FirstFlat(l, Prec(op));
    case Proj(_, _) =>
    case Tuple(xs) =>
    case Neg(x) => FirstFlat(x, 10);
    case Not(x) => FirstFlat(x, 10);
    case Borrow(x) => FirstFlat(x, 10);
    case _ =>
  }

  lemma FirstArgs(e: Expr)
    requires e.App? && Printable(e)
    ensures FlatArgs(e, e.args) != []
  {
    hide Flat;
    FirstFlat(e.args[0], 10);
  }
}
