/** Precedence climbing over one line of tokens (src/parser.rs). */
module Parsing {
  import opened Wrappers
  import opened Ast
  import opened Printer

  /** A parse and the tokens after it. */
  datatype P<T> = Ok(v: T, rest: seq<Tok>) | Err

  function Peek(ts: seq<Tok>): Tok { if ts == [] then TEnd else ts[0] }

  predicate StartsAtom(t: Tok) {
    t.TInt? || t.TFloat? || t.TStr? || t.TChar? || t.TBool? || t.TName? || t.TCtor?
    || t.TOpen? || t.TOpenList? || t.TAmp? || t.TBackslash?
  }

  /** The kinds parentheses around which are not canonical. */
  predicate NeedsNone(e: Expr) { e.Int? || e.Float? || e.Str? || e.Char? || e.Bool? || e.Var? || e.Ctor? }

  predicate Shorter<T>(r: P<T>, ts: seq<Tok>) { r.Ok? ==> |r.rest| < |ts| }

  // --------------------------------------------------------------- expressions

  function PExpr(ts: seq<Tok>): (r: P<Expr>)
    ensures Shorter(r, ts)
    decreases |ts|, 9
  {
    PBin(ts, 1)
  }

  function PBin(ts: seq<Tok>, min: nat): (r: P<Expr>)
    ensures Shorter(r, ts)
    decreases |ts|, 8
  {
    match PUnary(ts)
    case Err => Err
    case Ok(lhs, rest) => PLoop(lhs, rest, min)
  }

  /** Operators of at least `min`, to the right of `lhs`, grouped to the left. */
  function PLoop(lhs: Expr, ts: seq<Tok>, min: nat): (r: P<Expr>)
    ensures r.Ok? ==> |r.rest| <= |ts|
    decreases |ts|, 1
  {
    if Peek(ts).TOp? && Prec(ts[0].op) >= min then
      match PBin(ts[1..], Prec(ts[0].op) + 1)
      case Err => Err
      case Ok(rhs, rest) => PLoop(Binop(ts[0].op, lhs, rhs), rest, min)
    else Ok(lhs, ts)
  }

  function PUnary(ts: seq<Tok>): (r: P<Expr>)
    ensures Shorter(r, ts)
    decreases |ts|, 7
  {
    if Peek(ts) == TOp(Sub) then
      match PUnary(ts[1..])
      case Err => Err
      case Ok(x, rest) => Ok(Neg(x), rest)
    else if Peek(ts) == TBang then
      match PUnary(ts[1..])
      case Err => Err
      case Ok(x, rest) => Ok(Not(x), rest)
    else PApp(ts)
  }

  function PApp(ts: seq<Tok>): (r: P<Expr>)
    ensures Shorter(r, ts)
    decreases |ts|, 6
  {
    match PPostfix(ts)
    case Err => Err
    case Ok(head, rest) =>
      match PArgs(rest)
      case Err => Err
      case Ok(args, after) => Ok(if args == [] then head else App(head, args), after)
  }

  function PArgs(ts: seq<Tok>): (r: P<seq<Expr>>)
    ensures r.Ok? ==> |r.rest| <= |ts|
    decreases |ts|, 6
  {
    if !StartsAtom(Peek(ts)) then Ok([], ts)
    else
      match PPostfix(ts)
      case Err => Err
      case Ok(a, rest) =>
        match PArgs(rest)
        case Err => Err
        case Ok(more, after) => Ok([a] + more, after)
  }

  function PPostfix(ts: seq<Tok>): (r: P<Expr>)
    ensures Shorter(r, ts)
    decreases |ts|, 5
  {
    if Peek(ts) == TAmp then
      match PPostfix(ts[1..])
      case Err => Err
      case Ok(x, rest) => Ok(Borrow(x), rest)
    else
      match PAtom(ts)
      case Err => Err
      case Ok(e, rest) => PFields(e, rest)
  }

  function PFields(e: Expr, ts: seq<Tok>): (r: P<Expr>)
    ensures r.Ok? ==> |r.rest| <= |ts|
    decreases |ts|
  {
    if Peek(ts) != TDot then Ok(e, ts)
    else if Peek(ts[1..]).TName? then PFields(Proj(e, ts[1].name), ts[2..])
    else Err
  }

  function PNames(ts: seq<Tok>): (r: (seq<string>, seq<Tok>))
    ensures |r.1| <= |ts|
  {
    if Peek(ts).TName? then
      var more := PNames(ts[1..]);
      ([ts[0].name] + more.0, more.1)
    else ([], ts)
  }

  function PAtom(ts: seq<Tok>): (r: P<Expr>)
    ensures Shorter(r, ts)
    decreases |ts|, 4
  {
    match Peek(ts)
    case TInt(n) => Ok(Int(n), ts[1..])
    case TFloat(x) => Ok(Float(x), ts[1..])
    case TStr(s) => Ok(Str(s), ts[1..])
    case TChar(c) => Ok(Char(c), ts[1..])
    case TBool(b) => Ok(Bool(b), ts[1..])
    case TName(n) => Ok(Var(n), ts[1..])
    case TCtor(n) => Ok(Ctor(n), ts[1..])
    case TBackslash =>
      var (ps, rest) := PNames(ts[1..]);
      if Peek(rest) != TArrow then Err
      else
        (match PExpr(rest[1..])
         case Err => Err
         case Ok(b, after) => Ok(Lambda(ps, b), after))
    case TOpen =>
      if Peek(ts[1..]) == TClose then Ok(Unit, ts[2..])
      else
        (match PItems(ts[1..])
         case Err => Err
         case Ok(xs, rest) =>
           if Peek(rest) != TClose then Err
           else if |xs| != 1 then Ok(Tuple(xs), rest[1..])
           else if NeedsNone(xs[0]) then Err
           else Ok(xs[0], rest[1..]))
    case TOpenList =>
      if Peek(ts[1..]) == TCloseList then Ok(List([]), ts[2..])
      else
        (match PItems(ts[1..])
         case Err => Err
         case Ok(xs, rest) => if Peek(rest) != TCloseList then Err else Ok(List(xs), rest[1..]))
    case _ => Err
  }

  /** One expression, and more after commas. */
  function PItems(ts: seq<Tok>): (r: P<seq<Expr>>)
    ensures Shorter(r, ts) && (r.Ok? ==> |r.v| >= 1)
    decreases |ts|, 10
  {
    match PExpr(ts)
    case Err => Err
    case Ok(x, rest) =>
      if Peek(rest) != TComma then Ok([x], rest)
      else
        match PItems(rest[1..])
        case Err => Err
        case Ok(more, after) => Ok([x] + more, after)
  }

  // --------------------------------------------------------------------- types

  predicate StartsTypeAtom(t: Tok) { t.TCtor? || t.TName? || t.TOpen? || t.TAmp? || t.TEffect? }

  function PTy(ts: seq<Tok>): (r: P<Ty>)
    ensures Shorter(r, ts)
    decreases |ts|, 3
  {
    match PTyApp(ts)
    case Err => Err
    case Ok(a, rest) =>
      if Peek(rest) != TArrow then Ok(a, rest)
      else
        match PTy(rest[1..])
        case Err => Err
        case Ok(b, after) => Ok(TFun(a, b), after)
  }

  function PTyApp(ts: seq<Tok>): (r: P<Ty>)
    ensures Shorter(r, ts)
    decreases |ts|, 2
  {
    match Peek(ts)
    case TAmp => (match PTyApp(ts[1..]) case Err => Err case Ok(x, rest) => Ok(TRef(x), rest))
    case TEffect => (match PTyApp(ts[1..]) case Err => Err case Ok(x, rest) => Ok(TEff(x), rest))
    case TCtor(n) => (match PTyAtoms(ts[1..]) case Err => Err case Ok(args, rest) => Ok(TCon(n, args), rest))
    case _ => PTyAtom(ts)
  }

  function PTyAtoms(ts: seq<Tok>): (r: P<seq<Ty>>)
    ensures r.Ok? ==> |r.rest| <= |ts|
    decreases |ts|, 2
  {
    if !StartsTypeAtom(Peek(ts)) then Ok([], ts)
    else
      match PTyAtom(ts)
      case Err => Err
      case Ok(a, rest) =>
        match PTyAtoms(rest)
        case Err => Err
        case Ok(more, after) => Ok([a] + more, after)
  }

  function PTyAtom(ts: seq<Tok>): (r: P<Ty>)
    ensures Shorter(r, ts)
    decreases |ts|, 1
  {
    match Peek(ts)
    case TAmp => (match PTyAtom(ts[1..]) case Err => Err case Ok(x, rest) => Ok(TRef(x), rest))
    case TEffect => (match PTyAtom(ts[1..]) case Err => Err case Ok(x, rest) => Ok(TEff(x), rest))
    case TCtor(n) => Ok(TCon(n, []), ts[1..])
    case TName(n) => Ok(TVar(n), ts[1..])
    case TOpen =>
      if Peek(ts[1..]) == TClose then Ok(TCon("Unit", []), ts[2..])
      else
        (match PTyItems(ts[1..])
         case Err => Err
         case Ok(parts, rest) =>
           if Peek(rest) != TClose then Err
           else Ok(if |parts| == 1 then parts[0] else TTuple(parts), rest[1..]))
    case _ => Err
  }

  function PTyItems(ts: seq<Tok>): (r: P<seq<Ty>>)
    ensures Shorter(r, ts) && (r.Ok? ==> |r.v| >= 1)
    decreases |ts|, 4
  {
    match PTy(ts)
    case Err => Err
    case Ok(x, rest) =>
      if Peek(rest) != TComma then Ok([x], rest)
      else
        match PTyItems(rest[1..])
        case Err => Err
        case Ok(more, after) => Ok([x] + more, after)
  }

  // ------------------------------------------------------------------ patterns

  predicate StartsPatAtom(t: Tok) {
    t.TInt? || t.TFloat? || t.TStr? || t.TChar? || t.TBool? || t.TName? || t.TCtor? || t.TOpen? || t.TOpenList?
  }

  function PPat(ts: seq<Tok>): (r: P<Pat>)
    ensures Shorter(r, ts)
    decreases |ts|, 2
  {
    if Peek(ts).TCtor? then
      match PPatAtoms(ts[1..])
      case Err => Err
      case Ok(args, rest) => Ok(PCtor(ts[0].name, args), rest)
    else PPatAtom(ts)
  }

  function PPatAtoms(ts: seq<Tok>): (r: P<seq<Pat>>)
    ensures r.Ok? ==> |r.rest| <= |ts|
    decreases |ts|, 2
  {
    if !StartsPatAtom(Peek(ts)) then Ok([], ts)
    else
      match PPatAtom(ts)
      case Err => Err
      case Ok(a, rest) =>
        match PPatAtoms(rest)
        case Err => Err
        case Ok(more, after) => Ok([a] + more, after)
  }

  function PPatAtom(ts: seq<Tok>): (r: P<Pat>)
    ensures Shorter(r, ts)
    decreases |ts|, 1
  {
    match Peek(ts)
    case TInt(n) => Ok(PInt(n), ts[1..])
    case TFloat(x) => Ok(PFloat(x), ts[1..])
    case TStr(s) => Ok(PStr(s), ts[1..])
    case TChar(c) => Ok(PChar(c), ts[1..])
    case TBool(b) => Ok(PBool(b), ts[1..])
    case TName(n) => Ok(PVar(n), ts[1..])
    case TCtor(n) => Ok(PCtor(n, []), ts[1..])
    case TOpenList =>
      if Peek(ts[1..]) == TCloseList then Ok(PList([]), ts[2..])
      else
        (match PPatItems(ts[1..])
         case Err => Err
         case Ok(ps, rest) => if Peek(rest) != TCloseList then Err else Ok(PList(ps), rest[1..]))
    case TOpen =>
      (match PPatItems(ts[1..])
       case Err => Err
       case Ok(ps, rest) =>
         if Peek(rest) != TClose then Err
         else Ok(if |ps| == 1 then ps[0] else PTuple(ps), rest[1..]))
    case _ => Err
  }

  function PPatItems(ts: seq<Tok>): (r: P<seq<Pat>>)
    ensures Shorter(r, ts) && (r.Ok? ==> |r.v| >= 1)
    decreases |ts|, 4
  {
    match PPat(ts)
    case Err => Err
    case Ok(x, rest) =>
      if Peek(rest) != TComma then Ok([x], rest)
      else
        match PPatItems(rest[1..])
        case Err => Err
        case Ok(more, after) => Ok([x] + more, after)
  }

  // ------------------------------------------------------------------ the parser

  /** A method's outcome against the grammar: the same tree with the cursor at
      what follows it, or a failure on both sides. */
  predicate Took<T(==)>(p: P<T>, r: Option<T>, after: seq<Tok>) {
    match p
    case Ok(v, rest) => r == Some(v) && after == rest
    case Err => r == None
  }

  /** The parser: a cursor over the tokens. Each method reads one construct. */
  class Parser {
    const toks: seq<Tok>
    var i: nat

    ghost predicate Valid()
      reads this
    {
      i <= |toks|
    }

    constructor (toks: seq<Tok>)
      ensures Valid() && this.toks == toks && i == 0
    {
      this.toks, i := toks, 0;
    }

    function Cur(): Tok
      reads this
      requires Valid()
      ensures Cur() == Peek(toks[i..])
    {
      if i < |toks| then toks[i] else TEnd
    }

    method Advance()
      requires Valid() && i < |toks|
      modifies this`i
      ensures Valid() && i == old(i) + 1 && toks[i..] == old(toks[i..])[1..]
    {
      i := i + 1;
    }

    method Eat(t: Tok) returns (ate: bool)
      requires Valid() && t != TEnd
      modifies this`i
      ensures Valid() && ate == (Peek(old(toks[i..])) == t)
      ensures if ate then i == old(i) + 1 && toks[i..] == old(toks[i..])[1..] else i == old(i)
    {
      ate := Cur() == t;
      if ate { i := i + 1; }
    }

    method Expr() returns (r: Option<Expr>)
      requires Valid()
      modifies this`i
      ensures Valid() && Took(PExpr(old(toks[i..])), r, toks[i..])
      decreases |toks| - i, 9
    {
      r := Operators(1);
    }

    /** Operands and operators of at least `min`, grouped to the left. */
    method Operators(min: nat) returns (r: Option<Expr>)
      requires Valid()
      modifies this`i
      ensures Valid() && Took(PBin(old(toks[i..]), min), r, toks[i..])
      decreases |toks| - i, 8
    {
      hide PUnary;
      ghost var start := toks[i..];
      var first := Unary();
      if first == None { return None; }
      var lhs := first.value;
      while true
        invariant Valid() && |toks[i..]| < |start| && PBin(start, min) == PLoop(lhs, toks[i..], min)
        decreases |toks| - i
      {
        var t := Cur();
        if !t.TOp? || Prec(t.op) < min { return Some(lhs); }
        ghost var here := toks[i..];
        Advance();
        var rhs := Operators(Prec(t.op) + 1);
        LoopStep(lhs, here, min);
        if rhs == None { return None; }
        lhs := Binop(t.op, lhs, rhs.value);
      }
    }

    method Unary() returns (r: Option<Expr>)
      requires Valid()
      modifies this`i
      ensures Valid() && Took(PUnary(old(toks[i..])), r, toks[i..])
      decreases |toks| - i, 7
    {
      hide PApp;
      var minus := Eat(TOp(Sub));
      if minus {
        var x := Unary();
        return if x == None then None else Some(Neg(x.value));
      }
      var bang := Eat(TBang);
      if bang {
        var x := Unary();
        return if x == None then None else Some(Not(x.value));
      }
      r := Application();
    }

    method Application() returns (r: Option<Expr>)
      requires Valid()
      modifies this`i
      ensures Valid() && Took(PApp(old(toks[i..])), r, toks[i..])
      decreases |toks| - i, 6
    {
      hide PPostfix;
      var head := Postfix();
      if head == None { return None; }
      ghost var all := PArgs(toks[i..]);
      ghost var start := |toks| - i;
      var args: seq<Expr> := [];
      assert all.Ok? ==> args + all.v == all.v;
      while StartsAtom(Cur())
        invariant Valid() && |toks| - i <= start
        invariant all == match PArgs(toks[i..]) case Err => Err case Ok(more, rest) => Ok(args + more, rest)
        decreases |toks| - i
      {
        ghost var here := toks[i..];
        var a := Postfix();
        if a == None { return None; }
        ArgsStep(here);
        if PArgs(toks[i..]).Ok? { Assoc(args, a.value, PArgs(toks[i..]).v); }
        args := args + [a.value];
      }
      assert args + [] == args;
      r := Some(if args == [] then head.value else App(head.value, args));
    }

    method Postfix() returns (r: Option<Expr>)
      requires Valid()
      modifies this`i
      ensures Valid() && Took(PPostfix(old(toks[i..])), r, toks[i..])
      decreases |toks| - i, 5
    {
      hide PAtom;
      var amp := Eat(TAmp);
      if amp {
        var x := Postfix();
        return if x == None then None else Some(Borrow(x.value));
      }
      r := Atom();
      if r == None { return; }
      var e := r.value;
      ghost var all := PFields(e, toks[i..]);
      while Cur() == TDot
        invariant Valid() && all == PFields(e, toks[i..])
        decreases |toks| - i
      {
        Advance();
        var t := Cur();
        if !t.TName? { return None; }
        Advance();
        e := Proj(e, t.name);
      }
      r := Some(e);
    }

    method Atom() returns (r: Option<Expr>)
      requires Valid()
      modifies this`i
      ensures Valid() && Took(PAtom(old(toks[i..])), r, toks[i..])
      decreases |toks| - i, 4
    {
      hide PItems, PExpr, PNames;
      var t := Cur();
      if t == TEnd || i == |toks| { return None; }
      match t
      case TInt(n) => Advance(); r := Some(Int(n));
      case TFloat(x) => Advance(); r := Some(Float(x));
      case TStr(s) => Advance(); r := Some(Str(s));
      case TChar(c) => Advance(); r := Some(Char(c));
      case TBool(b) => Advance(); r := Some(Bool(b));
      case TName(n) => Advance(); r := Some(Var(n));
      case TCtor(n) => Advance(); r := Some(Ctor(n));
      case TBackslash =>
        Advance();
        var ps := Names();
        var arrow := Eat(TArrow);
        if !arrow { return None; }
        var b := Expr();
        r := if b == None then None else Some(Lambda(ps, b.value));
      case TOpen =>
        Advance();
        var close := Eat(TClose);
        if close { return Some(Unit); }
        var xs := Items();
        if xs == None { return None; }
        close := Eat(TClose);
        if !close || (|xs.value| == 1 && NeedsNone(xs.value[0])) { return None; }
        r := Some(if |xs.value| == 1 then xs.value[0] else Tuple(xs.value));
      case TOpenList =>
        Advance();
        var close := Eat(TCloseList);
        if close { return Some(List([])); }
        var xs := Items();
        if xs == None { return None; }
        close := Eat(TCloseList);
        r := if close then Some(List(xs.value)) else None;
      case _ => r := None;
    }

    method Names() returns (ps: seq<string>)
      requires Valid()
      modifies this`i
      ensures Valid() && (ps, toks[i..]) == PNames(old(toks[i..]))
    {
      ghost var all := PNames(toks[i..]);
      ps := [];
      assert ps + all.0 == all.0;
      while Cur().TName?
        invariant Valid() && all == (ps + PNames(toks[i..]).0, PNames(toks[i..]).1)
        invariant |toks[i..]| <= |old(toks[i..])|
        decreases |toks| - i
      {
        var t := Cur();
        Advance();
        assert ps + ([t.name] + PNames(toks[i..]).0) == (ps + [t.name]) + PNames(toks[i..]).0;
        ps := ps + [t.name];
      }
      assert ps + [] == ps;
    }

    /** One expression, and more while commas follow. */
    method Items() returns (r: Option<seq<Expr>>)
      requires Valid()
      modifies this`i
      ensures Valid() && Took(PItems(old(toks[i..])), r, toks[i..])
      decreases |toks| - i, 10
    {
      hide PExpr;
      var x := Expr();
      if x == None { return None; }
      var comma := Eat(TComma);
      if !comma { return Some([x.value]); }
      var more := Items();
      r := if more == None then None else Some([x.value] + more.value);
    }

    // ----------------------------------------------------------------- types

    method Type() returns (r: Option<Ty>)
      requires Valid()
      modifies this`i
      ensures Valid() && Took(PTy(old(toks[i..])), r, toks[i..])
      decreases |toks| - i, 3
    {
      hide PTyApp;
      var a := TypeApp();
      if a == None { return None; }
      var arrow := Eat(TArrow);
      if !arrow { return a; }
      var b := Type();
      r := if b == None then None else Some(TFun(a.value, b.value));
    }

    method TypeApp() returns (r: Option<Ty>)
      requires Valid()
      modifies this`i
      ensures Valid() && Took(PTyApp(old(toks[i..])), r, toks[i..])
      decreases |toks| - i, 2
    {
      hide PTyAtom;
      var amp := Eat(TAmp);
      if amp {
        var x := TypeApp();
        return if x == None then None else Some(TRef(x.value));
      }
      var effect := Eat(TEffect);
      if effect {
        var x := TypeApp();
        return if x == None then None else Some(TEff(x.value));
      }
      var t := Cur();
      if !t.TCtor? {
        r := TypeAtom();
        return;
      }
      Advance();
      ghost var all := PTyAtoms(toks[i..]);
      ghost var start := |toks| - i;
      var args: seq<Ty> := [];
      assert all.Ok? ==> args + all.v == all.v;
      while StartsTypeAtom(Cur())
        invariant Valid() && |toks| - i <= start
        invariant all == match PTyAtoms(toks[i..]) case Err => Err case Ok(more, rest) => Ok(args + more, rest)
        decreases |toks| - i
      {
        ghost var here := toks[i..];
        var a := TypeAtom();
        if a == None { return None; }
        TypeArgsStep(here);
        if PTyAtoms(toks[i..]).Ok? { Assoc(args, a.value, PTyAtoms(toks[i..]).v); }
        args := args + [a.value];
      }
      assert args + [] == args;
      r := Some(TCon(t.name, args));
    }

    method TypeAtom() returns (r: Option<Ty>)
      requires Valid()
      modifies this`i
      ensures Valid() && Took(PTyAtom(old(toks[i..])), r, toks[i..])
      decreases |toks| - i, 1
    {
      hide PTyItems;
      var t := Cur();
      if t == TEnd || i == |toks| { return None; }
      match t
      case TAmp =>
        Advance();
        var x := TypeAtom();
        r := if x == None then None else Some(TRef(x.value));
      case TEffect =>
        Advance();
        var x := TypeAtom();
        r := if x == None then None else Some(TEff(x.value));
      case TCtor(n) => Advance(); r := Some(TCon(n, []));
      case TName(n) => Advance(); r := Some(TVar(n));
      case TOpen =>
        Advance();
        var close := Eat(TClose);
        if close { return Some(TCon("Unit", [])); }
        var parts := TypeItems();
        if parts == None { return None; }
        close := Eat(TClose);
        if !close { return None; }
        r := Some(if |parts.value| == 1 then parts.value[0] else TTuple(parts.value));
      case _ => r := None;
    }

    method TypeItems() returns (r: Option<seq<Ty>>)
      requires Valid()
      modifies this`i
      ensures Valid() && Took(PTyItems(old(toks[i..])), r, toks[i..])
      decreases |toks| - i, 4
    {
      hide PTy;
      var x := Type();
      if x == None { return None; }
      var comma := Eat(TComma);
      if !comma { return Some([x.value]); }
      var more := TypeItems();
      r := if more == None then None else Some([x.value] + more.value);
    }

    // -------------------------------------------------------------- patterns

    method Pattern() returns (r: Option<Pat>)
      requires Valid()
      modifies this`i
      ensures Valid() && Took(PPat(old(toks[i..])), r, toks[i..])
      decreases |toks| - i, 2
    {
      hide PPatAtom;
      var t := Cur();
      if !t.TCtor? {
        r := PatternAtom();
        return;
      }
      Advance();
      ghost var all := PPatAtoms(toks[i..]);
      ghost var start := |toks| - i;
      var args: seq<Pat> := [];
      assert all.Ok? ==> args + all.v == all.v;
      while StartsPatAtom(Cur())
        invariant Valid() && |toks| - i <= start
        invariant all == match PPatAtoms(toks[i..]) case Err => Err case Ok(more, rest) => Ok(args + more, rest)
        decreases |toks| - i
      {
        ghost var here := toks[i..];
        var a := PatternAtom();
        if a == None { return None; }
        PatArgsStep(here);
        if PPatAtoms(toks[i..]).Ok? { Assoc(args, a.value, PPatAtoms(toks[i..]).v); }
        args := args + [a.value];
      }
      assert args + [] == args;
      r := Some(PCtor(t.name, args));
    }

    method PatternAtom() returns (r: Option<Pat>)
      requires Valid()
      modifies this`i
      ensures Valid() && Took(PPatAtom(old(toks[i..])), r, toks[i..])
      decreases |toks| - i, 1
    {
      hide PPatItems;
      var t := Cur();
      if t == TEnd || i == |toks| { return None; }
      match t
      case TInt(n) => Advance(); r := Some(PInt(n));
      case TFloat(x) => Advance(); r := Some(PFloat(x));
      case TStr(s) => Advance(); r := Some(PStr(s));
      case TChar(c) => Advance(); r := Some(PChar(c));
      case TBool(b) => Advance(); r := Some(PBool(b));
      case TName(n) => Advance(); r := Some(PVar(n));
      case TCtor(n) => Advance(); r := Some(PCtor(n, []));
      case TOpenList =>
        Advance();
        var close := Eat(TCloseList);
        if close { return Some(PList([])); }
        var ps := PatternItems();
        if ps == None { return None; }
        close := Eat(TCloseList);
        r := if close then Some(PList(ps.value)) else None;
      case TOpen =>
        Advance();
        var ps := PatternItems();
        if ps == None { return None; }
        var close := Eat(TClose);
        if !close { return None; }
        r := Some(if |ps.value| == 1 then ps.value[0] else PTuple(ps.value));
      case _ => r := None;
    }

    method PatternItems() returns (r: Option<seq<Pat>>)
      requires Valid()
      modifies this`i
      ensures Valid() && Took(PPatItems(old(toks[i..])), r, toks[i..])
      decreases |toks| - i, 4
    {
      hide PPat;
      var x := Pattern();
      if x == None { return None; }
      var comma := Eat(TComma);
      if !comma { return Some([x.value]); }
      var more := PatternItems();
      r := if more == None then None else Some([x.value] + more.value);
    }
  }

  lemma LoopStep(lhs: Expr, ts: seq<Tok>, min: nat)
    requires Peek(ts).TOp? && Prec(ts[0].op) >= min
    ensures PLoop(lhs, ts, min) ==
              match PBin(ts[1..], Prec(ts[0].op) + 1)
              case Err => Err
              case Ok(rhs, rest) => PLoop(Binop(ts[0].op, lhs, rhs), rest, min)
  {}

  lemma Assoc<T>(a: seq<T>, x: T, b: seq<T>)
    ensures a + ([x] + b) == (a + [x]) + b
  {}

  lemma ArgsStep(ts: seq<Tok>)
    requires StartsAtom(Peek(ts)) && PPostfix(ts).Ok?
    ensures PArgs(ts) == match PArgs(PPostfix(ts).rest)
                         case Err => Err
                         case Ok(more, rest) => Ok([PPostfix(ts).v] + more, rest)
  {
    hide PPostfix;
  }

  lemma TypeArgsStep(ts: seq<Tok>)
    requires StartsTypeAtom(Peek(ts)) && PTyAtom(ts).Ok?
    ensures PTyAtoms(ts) == match PTyAtoms(PTyAtom(ts).rest)
                            case Err => Err
                            case Ok(more, rest) => Ok([PTyAtom(ts).v] + more, rest)
  {
    hide PTyAtom;
  }

  lemma PatArgsStep(ts: seq<Tok>)
    requires StartsPatAtom(Peek(ts)) && PPatAtom(ts).Ok?
    ensures PPatAtoms(ts) == match PPatAtoms(PPatAtom(ts).rest)
                             case Err => Err
                             case Ok(more, rest) => Ok([PPatAtom(ts).v] + more, rest)
  {
    hide PPatAtom;
  }
}
