/** Exhaustiveness of matches by the usefulness of `_` (src/types.rs, after
    Maranget's "Warnings for pattern matching"). */
module Usefulness {
  import opened Wrappers
  import opened Ast
  import opened Patterns

  type Row = seq<Pat>

  /** What a pattern asks of the outermost layer of a value. Literals and lengths are
      heads too, of types whose `Signature` is `None`. */
  datatype Head = HCtor(ctor: string) | HTuple(width: nat) | HLit(lit: Pat) | HList(length: nat)

  datatype Taken = Taken(head: Head, under: seq<Pat>)

  /** Splits a pattern into its outermost layer and its parts; `None` where every
      value passes. */
  function HeadOf(p: Pat): Option<Taken> {
    match p
    case PWild => None
    case PVar(_) => None
    case PBool(b) => Some(Taken(HCtor(if b then "True" else "False"), []))
    case PCtor(c, ps) => Some(Taken(HCtor(c), ps))
    case PTuple(ps) => Some(Taken(HTuple(|ps|), ps))
    case PList(ps) => Some(Taken(HList(|ps|), ps))
    case _ => Some(Taken(HLit(p), []))
  }

  function Wilds(k: nat): (r: seq<Pat>)
    ensures |r| == k
  {
    seq(k, _ => PWild)
  }

  /** What one row becomes under head `h` of arity `k`: nothing when its first
      pattern has another head. */
  function SpecialiseRow(r: Row, h: Head, k: nat): Option<Row>
    requires r != []
  {
    match HeadOf(r[0])
    case None => Some(Wilds(k) + r[1..])
    case Some(t) => if t.head == h then Some(t.under + r[1..]) else None
  }

  /** The matrix for values whose first column has head `h`: its `k` parts stand in
      front of the other columns. */
  function Specialise(rows: seq<Row>, h: Head, k: nat): seq<Row>
    requires forall i :: 0 <= i < |rows| ==> rows[i] != []
  {
    if rows == [] then []
    else
      (match SpecialiseRow(rows[0], h, k) case Some(r) => [r] case None => [])
      + Specialise(rows[1..], h, k)
  }

  /** The rows whose first pattern matches anything, without it. */
  function Default(rows: seq<Row>): seq<Row>
    requires forall i :: 0 <= i < |rows| ==> rows[i] != []
  {
    if rows == [] then []
    else (if HeadOf(rows[0][0]) == None then [rows[0][1..]] else []) + Default(rows[1..])
  }

  function Heads(rows: seq<Row>): seq<Head>
    requires forall i :: 0 <= i < |rows| ==> rows[i] != []
  {
    if rows == [] then []
    else (match HeadOf(rows[0][0]) case Some(t) => [t.head] case None => []) + Heads(rows[1..])
  }

  datatype Slot = Slot(head: Head, arity: nat)

  /** All the heads of one type with their arities, found from the first of `heads`;
      `None` for an open-ended or unknown type. */
  function Signature(data: Data, heads: seq<Head>): Option<seq<Slot>> {
    if heads == [] then None
    else match heads[0]
      case HTuple(n) => Some([Slot(HTuple(n), n)])
      case HCtor(c) =>
        if IsBoolCtor(c) then Some([Slot(HCtor("True"), 0), Slot(HCtor("False"), 0)])
        else if c !in data.ctors || data.ctors[c].owner !in data.variants then None
        else var vs := data.variants[data.ctors[c].owner];
          if forall i :: 0 <= i < |vs| ==> vs[i] in data.ctors
          then Some(seq(|vs|, i requires 0 <= i < |vs| && vs[i] in data.ctors =>
                          Slot(HCtor(vs[i]), |data.ctors[vs[i]].args|)))
          else None
      case _ => None
  }

  // ------------------------------------------------------------ termination

  /** Constructors that are not wildcards. */
  function Weight(p: Pat): nat
    decreases p
  {
    match p
    case PWild => 0
    case PVar(_) => 0
    case PCtor(_, ps) => 1 + WeightUnder(p, ps)
    case PList(ps) => 1 + WeightUnder(p, ps)
    case PTuple(ps) => 1 + WeightUnder(p, ps)
    case _ => 1
  }

  function WeightUnder(parent: Pat, ps: seq<Pat>): nat
    requires forall i :: 0 <= i < |ps| ==> ps[i] < parent
    decreases parent, |ps|
  {
    if ps == [] then 0 else Weight(ps[0]) + WeightUnder(parent, ps[1..])
  }

  function RowWeight(r: Row): nat {
    if r == [] then 0 else Weight(r[0]) + RowWeight(r[1..])
  }

  function RowsWeight(rows: seq<Row>): nat {
    if rows == [] then 0 else RowWeight(rows[0]) + RowsWeight(rows[1..])
  }

  lemma {:induction false} WeightUnderIs(parent: Pat, ps: seq<Pat>)
    requires forall i :: 0 <= i < |ps| ==> ps[i] < parent
    ensures WeightUnder(parent, ps) == RowWeight(ps)
  {
    if ps != [] {
      WeightUnderIs(parent, ps[1..]);
    }
  }

  lemma {:induction false} RowWeightAppend(a: Row, b: Row)
    ensures RowWeight(a + b) == RowWeight(a) + RowWeight(b)
  {
    if a == [] {
      assert a + b == b;
    } else {
      assert (a + b)[1..] == a[1..] + b;
      RowWeightAppend(a[1..], b);
    }
  }

  lemma {:induction false} WildsWeigh(k: nat)
    ensures RowWeight(Wilds(k)) == 0
  {
    if k > 0 {
      assert Wilds(k)[1..] == Wilds(k - 1);
      WildsWeigh(k - 1);
    }
  }

  lemma HeadWeight(p: Pat)
    ensures HeadOf(p) == None ==> Weight(p) == 0
    ensures HeadOf(p).Some? ==> Weight(p) == 1 + RowWeight(HeadOf(p).value.under)
  {
    match p
    case PCtor(_, ps) => WeightUnderIs(p, ps);
    case PList(ps) => WeightUnderIs(p, ps);
    case PTuple(ps) => WeightUnderIs(p, ps);
    case _ =>
  }

  lemma {:induction false} SpecialiseWeight(rows: seq<Row>, h: Head, k: nat)
    requires forall i :: 0 <= i < |rows| ==> rows[i] != []
    ensures RowsWeight(Specialise(rows, h, k)) <= RowsWeight(rows)
    ensures h in Heads(rows) ==> RowsWeight(Specialise(rows, h, k)) < RowsWeight(rows)
  {
    if rows != [] {
      var r := rows[0];
      HeadWeight(r[0]);
      SpecialiseWeight(rows[1..], h, k);
      RowWeightAppend(Wilds(k), r[1..]);
      WildsWeigh(k);
      if HeadOf(r[0]).Some? {
        RowWeightAppend(HeadOf(r[0]).value.under, r[1..]);
      }
      var rest := Specialise(rows[1..], h, k);
      match SpecialiseRow(r, h, k)
      case Some(s) => assert ([s] + rest)[1..] == rest;
      case None => assert [] + rest == rest;
    }
  }

  lemma {:induction false} DefaultWeight(rows: seq<Row>)
    requires forall i :: 0 <= i < |rows| ==> rows[i] != []
    ensures RowsWeight(Default(rows)) <= RowsWeight(rows)
  {
    if rows != [] {
      DefaultWeight(rows[1..]);
      var rest := Default(rows[1..]);
      if HeadOf(rows[0][0]) == None {
        assert ([rows[0][1..]] + rest)[1..] == rest;
      } else {
        assert [] + rest == rest;
      }
    }
  }

  // -------------------------------------------------------------- well-formed

  predicate ArityOk(data: Data, p: Pat)
    decreases p
  {
    match p
    case PCtor(c, ps) =>
      && |ps| == Arity(data, c)
      && forall i :: 0 <= i < |ps| ==> ArityOk(data, ps[i])
    case PList(ps) => forall i :: 0 <= i < |ps| ==> ArityOk(data, ps[i])
    case PTuple(ps) => forall i :: 0 <= i < |ps| ==> ArityOk(data, ps[i])
    case _ => true
  }

  function Arity(data: Data, c: string): nat {
    if !IsBoolCtor(c) && c in data.ctors then |data.ctors[c].args| else 0
  }

  function HeadArity(data: Data, h: Head): nat {
    match h
    case HCtor(c) => Arity(data, c)
    case HTuple(n) => n
    case HList(n) => n
    case HLit(_) => 0
  }

  /** A row of `n` patterns, each with the number of arguments its constructors
      take: inference rejects anything else (`pattern.arity`). */
  predicate Shaped(data: Data, r: Row, n: nat) {
    |r| == n && forall i :: 0 <= i < n ==> ArityOk(data, r[i])
  }

  predicate AllShaped(data: Data, rows: seq<Row>, n: nat) {
    forall i :: 0 <= i < |rows| ==> Shaped(data, rows[i], n)
  }

  lemma HeadShaped(data: Data, p: Pat)
    requires ArityOk(data, p) && HeadOf(p).Some?
    ensures Shaped(data, HeadOf(p).value.under, HeadArity(data, HeadOf(p).value.head))
  {}

  lemma {:induction false} SpecialiseShaped(data: Data, rows: seq<Row>, h: Head, n: nat)
    requires AllShaped(data, rows, n) && n > 0
    ensures AllShaped(data, Specialise(rows, h, HeadArity(data, h)), HeadArity(data, h) + n - 1)
  {
    if rows != [] {
      SpecialiseShaped(data, rows[1..], h, n);
      if HeadOf(rows[0][0]).Some? {
        HeadShaped(data, rows[0][0]);
      }
    }
  }

  lemma {:induction false} DefaultShaped(data: Data, rows: seq<Row>, n: nat)
    requires AllShaped(data, rows, n) && n > 0
    ensures AllShaped(data, Default(rows), n - 1)
  {
    if rows != [] {
      DefaultShaped(data, rows[1..], n);
    }
  }

  lemma {:induction false} HeadsOf(rows: seq<Row>, i: nat)
    requires forall i :: 0 <= i < |rows| ==> rows[i] != []
    requires i < |Heads(rows)|
    ensures exists j :: 0 <= j < |rows| && HeadOf(rows[j][0]).Some? && HeadOf(rows[j][0]).value.head == Heads(rows)[i]
  {
    var first := match HeadOf(rows[0][0]) case Some(t) => [t.head] case None => [];
    if i >= |first| {
      HeadsOf(rows[1..], i - |first|);
      var j :| 0 <= j < |rows[1..]| && HeadOf(rows[1..][j][0]).Some?
        && HeadOf(rows[1..][j][0]).value.head == Heads(rows)[i];
      assert rows[j + 1] == rows[1..][j];
    }
  }

  /** `True` and `False` are keywords, so no type declares them. */
  ghost predicate BoolsReserved(data: Data) {
    forall c :: c in data.ctors ==> !IsBoolCtor(c)
  }

  lemma SignatureArity(data: Data, heads: seq<Head>, i: nat)
    requires BoolsReserved(data)
    requires Signature(data, heads).Some? && i < |Signature(data, heads).value|
    ensures Signature(data, heads).value[i].arity == HeadArity(data, Signature(data, heads).value[i].head)
  {}

  // -------------------------------------------------------------- the algorithm

  predicate Covers(sig: Option<seq<Slot>>, heads: seq<Head>) {
    sig.Some? && forall i :: 0 <= i < |sig.value| ==> sig.value[i].head in heads
  }

  /** Recurs into the head of `q`; under a wildcard, into each head of a complete
      signature, or else into the default matrix. */
  predicate Useful(data: Data, rows: seq<Row>, q: Row)
    requires BoolsReserved(data) && AllShaped(data, rows, |q|) && Shaped(data, q, |q|)
    decreases RowsWeight(rows) + RowWeight(q), |q|
  {
    if q == [] then rows == []
    else match HeadOf(q[0])
      case Some(t) =>
        var k := |t.under|;
        NextForHead(data, rows, q);
        Useful(data, Specialise(rows, t.head, k), t.under + q[1..])
      case None =>
        var heads := Heads(rows);
        var sig := Signature(data, heads);
        if Covers(sig, heads) then
          exists i :: 0 <= i < |sig.value| &&
            (NextForSlot(data, rows, q, i);
             Useful(data, Specialise(rows, sig.value[i].head, sig.value[i].arity), Wilds(sig.value[i].arity) + q[1..]))
        else
          NextForDefault(data, rows, q);
          Useful(data, Default(rows), q[1..])
  }

  lemma NextForHead(data: Data, rows: seq<Row>, q: Row)
    requires AllShaped(data, rows, |q|) && Shaped(data, q, |q|) && q != [] && HeadOf(q[0]).Some?
    ensures var t := HeadOf(q[0]).value;
            var rows', q' := Specialise(rows, t.head, |t.under|), t.under + q[1..];
            && AllShaped(data, rows', |q'|) && Shaped(data, q', |q'|)
            && RowsWeight(rows') + RowWeight(q') < RowsWeight(rows) + RowWeight(q)
  {
    var t := HeadOf(q[0]).value;
    HeadShaped(data, q[0]);
    SpecialiseShaped(data, rows, t.head, |q|);
    SpecialiseWeight(rows, t.head, |t.under|);
    HeadWeight(q[0]);
    RowWeightAppend(t.under, q[1..]);
  }

  lemma NextForSlot(data: Data, rows: seq<Row>, q: Row, i: nat)
    requires BoolsReserved(data) && AllShaped(data, rows, |q|) && Shaped(data, q, |q|) && q != []
    requires HeadOf(q[0]) == None
    requires Covers(Signature(data, Heads(rows)), Heads(rows)) && i < |Signature(data, Heads(rows)).value|
    ensures var s := Signature(data, Heads(rows)).value[i];
            var rows', q' := Specialise(rows, s.head, s.arity), Wilds(s.arity) + q[1..];
            && AllShaped(data, rows', |q'|) && Shaped(data, q', |q'|)
            && RowsWeight(rows') + RowWeight(q') < RowsWeight(rows) + RowWeight(q)
  {
    var s := Signature(data, Heads(rows)).value[i];
    SignatureArity(data, Heads(rows), i);
    SpecialiseShaped(data, rows, s.head, |q|);
    SpecialiseWeight(rows, s.head, s.arity);
    HeadWeight(q[0]);
    RowWeightAppend(Wilds(s.arity), q[1..]);
    WildsWeigh(s.arity);
  }

  lemma NextForDefault(data: Data, rows: seq<Row>, q: Row)
    requires AllShaped(data, rows, |q|) && Shaped(data, q, |q|) && q != []
    ensures AllShaped(data, Default(rows), |q| - 1) && Shaped(data, q[1..], |q| - 1)
    ensures RowsWeight(Default(rows)) + RowWeight(q[1..]) <= RowsWeight(rows) + RowWeight(q)
  {
    DefaultShaped(data, rows, |q|);
    DefaultWeight(rows);
  }

  // ------------------------------------------------------------------ meaning

  /** A vector of values of the columns' types that matches `q` and no row. */
  ghost predicate Witness(data: Data, rows: seq<Row>, q: Row, tys: seq<Ty>, vs: seq<Value>) {
    HasTypes(data, vs, tys) && MatchesAll(q, vs) && NoneMatch(rows, vs)
  }

  ghost predicate NoneMatch(rows: seq<Row>, vs: seq<Value>) {
    forall i :: 0 <= i < |rows| ==> !MatchesAll(rows[i], vs)
  }

  lemma NoneMatchAppend(a: seq<Row>, b: seq<Row>, vs: seq<Value>)
    ensures NoneMatch(a + b, vs) <==> NoneMatch(a, vs) && NoneMatch(b, vs)
  {
    hide MatchesAll;
    if NoneMatch(a + b, vs) {
      assert forall i :: 0 <= i < |a| ==> (a + b)[i] == a[i];
      assert forall i :: 0 <= i < |b| ==> (a + b)[|a| + i] == b[i];
    }
  }

  lemma NoneMatchOne(r: Row, vs: seq<Value>)
    ensures NoneMatch([r], vs) <==> !MatchesAll(r, vs)
    ensures NoneMatch([], vs)
  {
    hide MatchesAll;
    assert [r][0] == r;
  }

  ghost predicate RowsTyped(data: Data, rows: seq<Row>, tys: seq<Ty>) {
    forall i :: 0 <= i < |rows| ==> PatsTyped(data, rows[i], tys)
  }

  lemma {:induction false} TypedArity(data: Data, p: Pat, t: Ty)
    requires WfData(data) && PatTyped(data, p, t)
    ensures ArityOk(data, p)
    decreases p
  {
    match p
    case PCtor(c, ps) =>
      forall i | 0 <= i < |ps| ensures ArityOk(data, ps[i]) {
        TypedArity(data, ps[i], ArgTypes(data.ctors[c], KindOf(data, t).args)[i]);
      }
    case PList(ps) =>
      forall i | 0 <= i < |ps| ensures ArityOk(data, ps[i]) {
        TypedArity(data, ps[i], KindOf(data, t).el);
      }
    case PTuple(ps) =>
      forall i | 0 <= i < |ps| ensures ArityOk(data, ps[i]) {
        TypedArity(data, ps[i], KindOf(data, t).parts[i]);
      }
    case _ =>
  }

  lemma TypedShaped(data: Data, rows: seq<Row>, q: Row, tys: seq<Ty>)
    requires WfData(data) && RowsTyped(data, rows, tys) && PatsTyped(data, q, tys)
    ensures BoolsReserved(data) && AllShaped(data, rows, |q|) && Shaped(data, q, |q|)
  {
    forall i | 0 <= i < |q| ensures ArityOk(data, q[i]) {
      TypedArity(data, q[i], tys[i]);
    }
    forall i, j | 0 <= i < |rows| && 0 <= j < |rows[i]| ensures ArityOk(data, rows[i][j]) {
      TypedArity(data, rows[i][j], tys[j]);
    }
  }

  // ------------------------------------------------- values taken apart by head

  /** The head a value shows, and what is under it. */
  function HeadOfValue(v: Value): Head {
    match v
    case VInt(n) => HLit(PInt(n))
    case VFloat(x) => HLit(PFloat(x))
    case VStr(s) => HLit(PStr(s))
    case VChar(c) => HLit(PChar(c))
    case VBool(b) => HCtor(if b then "True" else "False")
    case VCtor(c, _) => HCtor(c)
    case VTuple(vs) => HTuple(|vs|)
    case VList(vs) => HList(|vs|)
    case VOther => HLit(PWild)
  }

  function Under(v: Value): seq<Value> {
    match v
    case VCtor(_, vs) => vs
    case VTuple(vs) => vs
    case VList(vs) => vs
    case _ => []
  }

  /** The types of what is under head `h` in a value of type `t`. */
  function UnderTypes(data: Data, h: Head, t: Ty): seq<Ty> {
    match KindOf(data, t)
    case Variants(_, targs) => if h.HCtor? && h.ctor in data.ctors then ArgTypes(data.ctors[h.ctor], targs) else []
    case Tuples(ts) => ts
    case Vecs(el) => if h.HList? then seq(h.length, _ => el) else []
    case _ => []
  }

  /** Whether values of type `t` can show head `h`. */
  ghost predicate HeadTyped(data: Data, h: Head, t: Ty) {
    match KindOf(data, t)
    case Ints => h.HLit? && h.lit.PInt?
    case Floats => h.HLit? && h.lit.PFloat?
    case Strs => h.HLit? && h.lit.PStr?
    case Chars => h.HLit? && h.lit.PChar?
    case Bools => h == HCtor("True") || h == HCtor("False")
    case Vecs(_) => h.HList?
    case Tuples(ts) => h == HTuple(|ts|)
    case Variants(o, _) => h.HCtor? && !IsBoolCtor(h.ctor) && h.ctor in data.ctors && data.ctors[h.ctor].owner == o
    case Opaque => false
  }

  lemma PatHeadTyped(data: Data, p: Pat, t: Ty)
    requires PatTyped(data, p, t) && HeadOf(p).Some?
    ensures var h := HeadOf(p).value.head;
            HeadTyped(data, h, t) && PatsTyped(data, HeadOf(p).value.under, UnderTypes(data, h, t))
  {}

  lemma ValueHeadTyped(data: Data, v: Value, t: Ty)
    requires WfData(data) && HasType(data, v, t)
    ensures KindOf(data, t) != Opaque ==> HeadTyped(data, HeadOfValue(v), t)
    ensures HasTypes(data, Under(v), UnderTypes(data, HeadOfValue(v), t))
  {}

  /** A pattern matches exactly the values of its own head whose parts match. */
  lemma MatchByHead(data: Data, p: Pat, v: Value, t: Ty)
    requires WfData(data) && PatTyped(data, p, t) && HasType(data, v, t)
    ensures Matches(p, v) <==>
      (HeadOf(p) == None ||
       (HeadOf(p).value.head == HeadOfValue(v) && MatchesAll(HeadOf(p).value.under, Under(v))))
  {}

  /** The value of type `t` with head `h` over `subs`. */
  function Build(data: Data, h: Head, subs: seq<Value>, t: Ty): Value {
    match h
    case HTuple(_) => VTuple(subs)
    case HList(_) => VList(subs)
    case HCtor(c) => if KindOf(data, t) == Bools then VBool(c == "True") else VCtor(c, subs)
    case HLit(p) =>
      match p
      case PInt(n) => VInt(n)
      case PFloat(x) => VFloat(x)
      case PStr(s) => VStr(s)
      case PChar(c) => VChar(c)
      case _ => VOther
  }

  lemma BuildTyped(data: Data, h: Head, subs: seq<Value>, t: Ty)
    requires WfData(data) && HeadTyped(data, h, t) && HasTypes(data, subs, UnderTypes(data, h, t))
    ensures var v := Build(data, h, subs, t);
            HasType(data, v, t) && HeadOfValue(v) == h && Under(v) == subs
  {}

  lemma UnderWidth(data: Data, h: Head, t: Ty)
    requires HeadTyped(data, h, t) && WfData(data)
    ensures |UnderTypes(data, h, t)| == HeadArity(data, h)
  {}

  // ------------------------------------- each step of the algorithm, in values

  lemma AppendMatch(a: Row, b: Row, vs: seq<Value>, ws: seq<Value>)
    requires |a| == |vs|
    ensures MatchesAll(a + b, vs + ws) <==> MatchesAll(a, vs) && MatchesAll(b, ws)
  {
    if MatchesAll(a + b, vs + ws) {
      assert forall i :: 0 <= i < |a| ==> (a + b)[i] == a[i] && (vs + ws)[i] == vs[i];
      assert forall i :: 0 <= i < |b| ==> (a + b)[|a| + i] == b[i] && (vs + ws)[|a| + i] == ws[i];
    }
  }

  lemma SplitMatch(r: Row, v: Value, ws: seq<Value>)
    requires r != []
    ensures MatchesAll(r, [v] + ws) <==> Matches(r[0], v) && MatchesAll(r[1..], ws)
  {
    AppendMatch([r[0]], r[1..], [v], ws);
    assert [r[0]] + r[1..] == r;
  }

  lemma WildsMatch(k: nat, vs: seq<Value>)
    requires |vs| == k
    ensures MatchesAll(Wilds(k), vs)
  {}

  /** On values of head `h` a row and its specialisation agree. */
  lemma RowByHead(data: Data, r: Row, tys: seq<Ty>, v: Value, ws: seq<Value>)
    requires WfData(data) && r != [] && PatsTyped(data, r, tys) && HasType(data, v, tys[0])
    ensures var s := SpecialiseRow(r, HeadOfValue(v), |Under(v)|);
            MatchesAll(r, [v] + ws) <==> s.Some? && MatchesAll(s.value, Under(v) + ws)
  {
    SplitMatch(r, v, ws);
    MatchByHead(data, r[0], v, tys[0]);
    match HeadOf(r[0])
    case None =>
      WildsMatch(|Under(v)|, Under(v));
      AppendMatch(Wilds(|Under(v)|), r[1..], Under(v), ws);
    case Some(t) =>
      if t.head == HeadOfValue(v) {
        ValueHeadTyped(data, v, tys[0]);
        PatHeadTyped(data, r[0], tys[0]);
        AppendMatch(t.under, r[1..], Under(v), ws);
      }
  }

  /** No row matches, seen before and after specialising. */
  lemma {:induction false} RowsByHead(data: Data, rows: seq<Row>, tys: seq<Ty>, v: Value, ws: seq<Value>)
    requires WfData(data) && tys != [] && RowsTyped(data, rows, tys) && HasType(data, v, tys[0])
    ensures NoneMatch(rows, [v] + ws) <==>
            NoneMatch(Specialise(rows, HeadOfValue(v), |Under(v)|), Under(v) + ws)
  {
    hide NoneMatch, MatchesAll, HasType, SpecialiseRow, HeadOfValue, Under, PatTyped;
    if rows == [] {
      NoneMatchOne([], [v] + ws);
      NoneMatchOne([], Under(v) + ws);
    } else {
      var s := SpecialiseRow(rows[0], HeadOfValue(v), |Under(v)|);
      RowByHead(data, rows[0], tys, v, ws);
      RowsByHead(data, rows[1..], tys, v, ws);
      assert rows == [rows[0]] + rows[1..];
      NoneMatchAppend([rows[0]], rows[1..], [v] + ws);
      NoneMatchOne(rows[0], [v] + ws);
      var rest := Specialise(rows[1..], HeadOfValue(v), |Under(v)|);
      if s.Some? {
        NoneMatchAppend([s.value], rest, Under(v) + ws);
        NoneMatchOne(s.value, Under(v) + ws);
      } else {
        assert [] + rest == rest;
      }
    }
  }

  lemma {:induction false} SpecialiseTyped(data: Data, rows: seq<Row>, h: Head, tys: seq<Ty>)
    requires WfData(data) && tys != [] && RowsTyped(data, rows, tys) && HeadTyped(data, h, tys[0])
    ensures RowsTyped(data, Specialise(rows, h, HeadArity(data, h)), UnderTypes(data, h, tys[0]) + tys[1..])
  {
    if rows != [] {
      SpecialiseTyped(data, rows[1..], h, tys);
      UnderWidth(data, h, tys[0]);
      if HeadOf(rows[0][0]).Some? {
        PatHeadTyped(data, rows[0][0], tys[0]);
      }
    }
  }

  lemma {:induction false} DefaultTyped(data: Data, rows: seq<Row>, tys: seq<Ty>)
    requires tys != [] && RowsTyped(data, rows, tys)
    ensures RowsTyped(data, Default(rows), tys[1..])
  {
    if rows != [] {
      DefaultTyped(data, rows[1..], tys);
    }
  }

  /** A value whose head no row shows is matched by the wildcard rows only. */
  lemma {:induction false} RowsByDefault(data: Data, rows: seq<Row>, tys: seq<Ty>, v: Value, ws: seq<Value>)
    requires WfData(data) && tys != [] && RowsTyped(data, rows, tys) && HasType(data, v, tys[0])
    ensures NoneMatch(rows, [v] + ws) ==> NoneMatch(Default(rows), ws)
    ensures HeadOfValue(v) !in Heads(rows) && NoneMatch(Default(rows), ws) ==> NoneMatch(rows, [v] + ws)
  {
    hide NoneMatch, MatchesAll, HasType, PatTyped;
    if rows == [] {
      NoneMatchOne([], [v] + ws);
      NoneMatchOne([], ws);
    } else {
      RowByDefault(data, rows[0], tys, v, ws);
      RowsByDefault(data, rows[1..], tys, v, ws);
      assert rows == [rows[0]] + rows[1..];
      NoneMatchAppend([rows[0]], rows[1..], [v] + ws);
      NoneMatchOne(rows[0], [v] + ws);
      var rest := Default(rows[1..]);
      if HeadOf(rows[0][0]) == None {
        NoneMatchAppend([rows[0][1..]], rest, ws);
        NoneMatchOne(rows[0][1..], ws);
      } else {
        assert [] + rest == rest;
      }
    }
  }

  lemma RowByDefault(data: Data, r: Row, tys: seq<Ty>, v: Value, ws: seq<Value>)
    requires WfData(data) && r != [] && PatsTyped(data, r, tys) && HasType(data, v, tys[0])
    ensures HeadOf(r[0]) == None ==> (MatchesAll(r, [v] + ws) <==> MatchesAll(r[1..], ws))
    ensures HeadOf(r[0]).Some? && MatchesAll(r, [v] + ws) ==> HeadOf(r[0]).value.head == HeadOfValue(v)
  {
    SplitMatch(r, v, ws);
    MatchByHead(data, r[0], v, tys[0]);
  }

  // -------------------------------------------------------- missing constructors

  lemma HeadsTyped(data: Data, rows: seq<Row>, tys: seq<Ty>)
    requires tys != [] && RowsTyped(data, rows, tys)
    ensures forall i :: 0 <= i < |Heads(rows)| ==> HeadTyped(data, Heads(rows)[i], tys[0])
  {
    forall i | 0 <= i < |Heads(rows)| ensures HeadTyped(data, Heads(rows)[i], tys[0]) {
      HeadsOf(rows, i);
      var j :| 0 <= j < |rows| && HeadOf(rows[j][0]).Some? && HeadOf(rows[j][0]).value.head == Heads(rows)[i];
      PatHeadTyped(data, rows[j][0], tys[0]);
    }
  }

  /** A signature lists heads of the type, and all of them. */
  lemma SignatureOfType(data: Data, heads: seq<Head>, t: Ty)
    requires WfData(data) && heads != [] && HeadTyped(data, heads[0], t)
    ensures var sig := Signature(data, heads);
            if sig.Some? then
              && (forall i :: 0 <= i < |sig.value| ==> HeadTyped(data, sig.value[i].head, t))
              && (forall h :: HeadTyped(data, h, t) ==> exists i :: 0 <= i < |sig.value| && sig.value[i].head == h)
            else KindOf(data, t) in {Ints, Floats, Strs, Chars} || KindOf(data, t).Vecs?
  {
    var sig := Signature(data, heads);
    match KindOf(data, t)
    case Variants(o, _) =>
      var vs := data.variants[o];
      forall h | HeadTyped(data, h, t) ensures exists i :: 0 <= i < |sig.value| && sig.value[i].head == h {
        var i :| 0 <= i < |vs| && vs[i] == h.ctor;
        assert sig.value[i].head == h;
      }
    case Bools =>
      assert sig.value[0].head == HCtor("True") && sig.value[1].head == HCtor("False");
    case Tuples(ts) =>
      assert sig.value[0].head == HTuple(|ts|);
    case _ =>
  }

  lemma InhabitAll(data: Data, ts: seq<Ty>) returns (vs: seq<Value>)
    requires AllInhabited(data)
    ensures HasTypes(data, vs, ts)
  {
    if ts == [] {
      vs := [];
    } else {
      assert Inhabited(data, ts[0]);
      var v :| HasType(data, v, ts[0]);
      var rest := InhabitAll(data, ts[1..]);
      vs := [v] + rest;
    }
  }

  function Size(h: Head): nat {
    match h
    case HLit(PInt(n)) => if n < 0 then 0 else n
    case HLit(PFloat(x)) => if x < 0.0 then 0 else x.Floor
    case HLit(PStr(s)) => |s|
    case HLit(PChar(c)) => c
    case HList(n) => n
    case _ => 0
  }

  function Bound(heads: seq<Head>): nat {
    if heads == [] then 0
    else if Size(heads[0]) >= Bound(heads[1..]) then Size(heads[0]) + 1 else Bound(heads[1..])
  }

  lemma {:induction false} BoundHolds(heads: seq<Head>, h: Head)
    requires h in heads
    ensures Size(h) < Bound(heads)
  {
    if h != heads[0] {
      BoundHolds(heads[1..], h);
    }
  }

  /** An open-ended type has a head outside any finite list. */
  lemma FreshHead(data: Data, heads: seq<Head>, t: Ty) returns (h: Head)
    requires KindOf(data, t) in {Ints, Floats, Strs, Chars} || KindOf(data, t).Vecs?
    ensures HeadTyped(data, h, t) && h !in heads
  {
    var n := Bound(heads);
    match KindOf(data, t) {
      case Ints => h := HLit(PInt(n));
      case Floats => h := HLit(PFloat(n as real));
      case Strs => h := HLit(PStr(seq(n, _ => 'a')));
      case Chars => h := HLit(PChar(n));
      case Vecs(_) => h := HList(n);
    }
    if h in heads {
      BoundHolds(heads, h);
    }
  }

  /** Where the heads do not cover the type, some value shows none of them. */
  lemma FreshValue(data: Data, rows: seq<Row>, tys: seq<Ty>) returns (v: Value)
    requires WfData(data) && AllInhabited(data) && tys != [] && RowsTyped(data, rows, tys)
    requires !Covers(Signature(data, Heads(rows)), Heads(rows))
    ensures HasType(data, v, tys[0]) && HeadOfValue(v) !in Heads(rows)
  {
    var heads, t := Heads(rows), tys[0];
    if heads == [] {
      assert Inhabited(data, t);
      v :| HasType(data, v, t);
    } else {
      HeadsTyped(data, rows, tys);
      SignatureOfType(data, heads, t);
      var sig, h := Signature(data, heads), heads[0];
      if sig.Some? {
        var i :| 0 <= i < |sig.value| && sig.value[i].head !in heads;
        h := sig.value[i].head;
      } else {
        h := FreshHead(data, heads, t);
      }
      var subs := InhabitAll(data, UnderTypes(data, h, t));
      BuildTyped(data, h, subs, t);
      v := Build(data, h, subs, t);
    }
  }

  // ------------------------------------------------------------- the theorem

  lemma TypedAppend(data: Data, vs: seq<Value>, ws: seq<Value>, ts: seq<Ty>, us: seq<Ty>)
    requires |vs| == |ts|
    ensures HasTypes(data, vs + ws, ts + us) <==> HasTypes(data, vs, ts) && HasTypes(data, ws, us)
  {
    if HasTypes(data, vs + ws, ts + us) {
      assert forall i :: 0 <= i < |vs| ==> (vs + ws)[i] == vs[i] && (ts + us)[i] == ts[i];
      assert forall i :: 0 <= i < |ws| ==> (vs + ws)[|vs| + i] == ws[i] && (ts + us)[|vs| + i] == us[i];
    }
  }

  /** Witnesses of a column entered under head `h` are witnesses of the whole. */
  lemma WitnessUnderHead(data: Data, rows: seq<Row>, q: Row, q': Row, h: Head, tys: seq<Ty>, v: Value, ws: seq<Value>)
    requires WfData(data) && q != [] && tys != [] && RowsTyped(data, rows, tys) && PatsTyped(data, q, tys)
    requires HasType(data, v, tys[0]) && HeadOfValue(v) == h && HeadTyped(data, h, tys[0])
    requires SpecialiseRow(q, h, HeadArity(data, h)) == Some(q')
    ensures Witness(data, rows, q, tys, [v] + ws) <==>
            Witness(data, Specialise(rows, h, HeadArity(data, h)), q', UnderTypes(data, h, tys[0]) + tys[1..],
                    Under(v) + ws)
  {
    hide NoneMatch, MatchesAll, HasType, SpecialiseRow, PatTyped, HasTypes, UnderTypes;
    ValueHeadTyped(data, v, tys[0]);
    HasTypesWidth(data, Under(v), UnderTypes(data, h, tys[0]));
    UnderWidth(data, h, tys[0]);
    RowsByHead(data, rows, tys, v, ws);
    RowByHead(data, q, tys, v, ws);
    TypedAppend(data, [v], ws, [tys[0]], tys[1..]);
    TypedAppend(data, Under(v), ws, UnderTypes(data, h, tys[0]), tys[1..]);
    assert [tys[0]] + tys[1..] == tys;
    TypedOne(data, v, tys[0]);
  }

  lemma HasTypesWidth(data: Data, vs: seq<Value>, ts: seq<Ty>)
    requires HasTypes(data, vs, ts)
    ensures |vs| == |ts|
  {}

  lemma TypedOne(data: Data, v: Value, t: Ty)
    ensures HasTypes(data, [v], [t]) <==> HasType(data, v, t)
  {
    assert [v][0] == v && [t][0] == t;
  }

  lemma SpecialisedTyped(data: Data, rows: seq<Row>, q: Row, q': Row, h: Head, tys: seq<Ty>)
    requires WfData(data) && tys != [] && q != [] && RowsTyped(data, rows, tys) && PatsTyped(data, q, tys)
    requires HeadTyped(data, h, tys[0]) && SpecialiseRow(q, h, HeadArity(data, h)) == Some(q')
    ensures var tys' := UnderTypes(data, h, tys[0]) + tys[1..];
            RowsTyped(data, Specialise(rows, h, HeadArity(data, h)), tys') && PatsTyped(data, q', tys')
  {
    SpecialiseTyped(data, rows, h, tys);
    SpecialiseTyped(data, [q], h, tys);
    assert Specialise([q], h, HeadArity(data, h)) == [q'] + Specialise([], h, HeadArity(data, h));
    assert ([q'] + Specialise([], h, HeadArity(data, h)))[0] == q';
  }

  lemma WitnessTypes(data: Data, rows: seq<Row>, q: Row, tys: seq<Ty>, vs: seq<Value>)
    requires Witness(data, rows, q, tys, vs)
    ensures HasTypes(data, vs, tys)
  {}

  /** A witness under some head gives one for the whole. */
  lemma LiftWitness(data: Data, rows: seq<Row>, q: Row, q': Row, h: Head, tys: seq<Ty>, vs: seq<Value>)
    returns (ws: seq<Value>)
    requires WfData(data) && q != [] && tys != [] && RowsTyped(data, rows, tys) && PatsTyped(data, q, tys)
    requires HeadTyped(data, h, tys[0]) && SpecialiseRow(q, h, HeadArity(data, h)) == Some(q')
    requires Witness(data, Specialise(rows, h, HeadArity(data, h)), q', UnderTypes(data, h, tys[0]) + tys[1..], vs)
    ensures Witness(data, rows, q, tys, ws)
  {
    hide Build, Witness, HasType, HeadOfValue, Under, UnderTypes, MatchesAll, PatTyped, HeadTyped;
    var ts := UnderTypes(data, h, tys[0]);
    WitnessTypes(data, Specialise(rows, h, HeadArity(data, h)), q', ts + tys[1..], vs);
    var subs, rest := vs[..|ts|], vs[|ts|..];
    assert subs + rest == vs;
    TypedAppend(data, subs, rest, ts, tys[1..]);
    BuildTyped(data, h, subs, tys[0]);
    var v := Build(data, h, subs, tys[0]);
    WitnessUnderHead(data, rows, q, q', h, tys, v, rest);
    ws := [v] + rest;
  }

  /** Useful clauses have a witness, when every type has a value. */
  lemma {:induction false} UsefulHasWitness(data: Data, rows: seq<Row>, q: Row, tys: seq<Ty>) returns (vs: seq<Value>)
    requires WfData(data) && AllInhabited(data) && RowsTyped(data, rows, tys) && PatsTyped(data, q, tys)
    requires BoolsReserved(data) && AllShaped(data, rows, |q|) && Shaped(data, q, |q|) && Useful(data, rows, q)
    ensures Witness(data, rows, q, tys, vs)
    decreases RowsWeight(rows) + RowWeight(q), |q|
  {
    hide Witness, HasType, PatTyped, UnderTypes, HeadTyped, AllInhabited;
    if q == [] {
      vs := [];
      EmptyWitness(data, rows, tys);
    } else if HeadOf(q[0]).Some? {
      var t := HeadOf(q[0]).value;
      NextForHead(data, rows, q);
      QHead(data, q, tys);
      SpecialisedTyped(data, rows, q, t.under + q[1..], t.head, tys);
      var below := UsefulHasWitness(data, Specialise(rows, t.head, |t.under|), t.under + q[1..],
                                    UnderTypes(data, t.head, tys[0]) + tys[1..]);
      vs := LiftWitness(data, rows, q, t.under + q[1..], t.head, tys, below);
    } else if Covers(Signature(data, Heads(rows)), Heads(rows)) {
      var sig := Signature(data, Heads(rows)).value;
      var i :| 0 <= i < |sig| && (NextForSlot(data, rows, q, i);
        Useful(data, Specialise(rows, sig[i].head, sig[i].arity), Wilds(sig[i].arity) + q[1..]));
      NextForSlot(data, rows, q, i);
      var h, q' := sig[i].head, Wilds(sig[i].arity) + q[1..];
      SignatureArity(data, Heads(rows), i);
      HeadsTyped(data, rows, tys);
      SignatureOfType(data, Heads(rows), tys[0]);
      SpecialisedTyped(data, rows, q, q', h, tys);
      var below := UsefulHasWitness(data, Specialise(rows, h, sig[i].arity), q',
                                    UnderTypes(data, h, tys[0]) + tys[1..]);
      vs := LiftWitness(data, rows, q, q', h, tys, below);
    } else {
      NextForDefault(data, rows, q);
      DefaultTyped(data, rows, tys);
      var ws := UsefulHasWitness(data, Default(rows), q[1..], tys[1..]);
      var v := FreshValue(data, rows, tys);
      DefaultWitness(data, rows, q, tys, v, ws);
      vs := [v] + ws;
    }
  }

  lemma EmptyWitness(data: Data, rows: seq<Row>, tys: seq<Ty>)
    requires PatsTyped(data, [], tys)
    ensures rows == [] ==> Witness(data, rows, [], tys, [])
  {}

  lemma QHead(data: Data, q: Row, tys: seq<Ty>)
    requires WfData(data) && q != [] && PatsTyped(data, q, tys) && HeadOf(q[0]).Some?
    ensures var t := HeadOf(q[0]).value;
            HeadTyped(data, t.head, tys[0]) && |t.under| == HeadArity(data, t.head)
            && SpecialiseRow(q, t.head, |t.under|) == Some(t.under + q[1..])
  {
    PatHeadTyped(data, q[0], tys[0]);
    UnderWidth(data, HeadOf(q[0]).value.head, tys[0]);
  }

  lemma DefaultWitness(data: Data, rows: seq<Row>, q: Row, tys: seq<Ty>, v: Value, ws: seq<Value>)
    requires WfData(data) && q != [] && tys != [] && RowsTyped(data, rows, tys) && HeadOf(q[0]) == None
    requires HasType(data, v, tys[0])
    ensures HeadOfValue(v) !in Heads(rows) && Witness(data, Default(rows), q[1..], tys[1..], ws) ==>
            Witness(data, rows, q, tys, [v] + ws)
    ensures Witness(data, rows, q, tys, [v] + ws) ==> Witness(data, Default(rows), q[1..], tys[1..], ws)
  {
    hide HasType, MatchesAll, NoneMatch, HasTypes;
    RowsByDefault(data, rows, tys, v, ws);
    SplitMatch(q, v, ws);
    TypedAppend(data, [v], ws, [tys[0]], tys[1..]);
    TypedOne(data, v, tys[0]);
    assert [tys[0]] + tys[1..] == tys;
  }

  /** A witness makes the clause useful, inhabited types or not. */
  lemma {:induction false} WitnessMakesUseful(data: Data, rows: seq<Row>, q: Row, tys: seq<Ty>, vs: seq<Value>)
    requires WfData(data) && RowsTyped(data, rows, tys) && PatsTyped(data, q, tys)
    requires BoolsReserved(data) && AllShaped(data, rows, |q|) && Shaped(data, q, |q|)
    requires Witness(data, rows, q, tys, vs)
    ensures Useful(data, rows, q)
    decreases RowsWeight(rows) + RowWeight(q), |q|
  {
    WitnessShape(data, rows, q, tys, vs);
    hide Witness, HasType, PatTyped, UnderTypes, HeadTyped, HeadOfValue, Under, MatchesAll;
    if q != [] {
      var v, ws := vs[0], vs[1..];
      assert vs == [v] + ws;
      if HeadOf(q[0]).Some? {
        var t := HeadOf(q[0]).value;
        NextForHead(data, rows, q);
        QHead(data, q, tys);
        QHeadOfValue(data, q, tys, v);
        SpecialisedTyped(data, rows, q, t.under + q[1..], t.head, tys);
        WitnessUnderHead(data, rows, q, t.under + q[1..], t.head, tys, v, ws);
        WitnessMakesUseful(data, Specialise(rows, t.head, |t.under|), t.under + q[1..],
                           UnderTypes(data, t.head, tys[0]) + tys[1..], Under(v) + ws);
      } else if Covers(Signature(data, Heads(rows)), Heads(rows)) {
        var sig := Signature(data, Heads(rows)).value;
        HeadsTyped(data, rows, tys);
        SignatureOfType(data, Heads(rows), tys[0]);
        ShownHead(data, Heads(rows), v, tys[0]);
        var i :| 0 <= i < |sig| && sig[i].head == HeadOfValue(v);
        NextForSlot(data, rows, q, i);
        var h, q' := sig[i].head, Wilds(sig[i].arity) + q[1..];
        SignatureArity(data, Heads(rows), i);
        SpecialisedTyped(data, rows, q, q', h, tys);
        WitnessUnderHead(data, rows, q, q', h, tys, v, ws);
        WitnessMakesUseful(data, Specialise(rows, h, sig[i].arity), q', UnderTypes(data, h, tys[0]) + tys[1..],
                           Under(v) + ws);
      } else {
        NextForDefault(data, rows, q);
        DefaultTyped(data, rows, tys);
        DefaultWitness(data, rows, q, tys, v, ws);
        WitnessMakesUseful(data, Default(rows), q[1..], tys[1..], ws);
      }
    }
  }

  lemma WitnessShape(data: Data, rows: seq<Row>, q: Row, tys: seq<Ty>, vs: seq<Value>)
    requires Witness(data, rows, q, tys, vs) && PatsTyped(data, q, tys) && RowsTyped(data, rows, tys)
    ensures |vs| == |q| == |tys|
    ensures q == [] ==> rows == []
    ensures q != [] ==> HasType(data, vs[0], tys[0]) && Matches(q[0], vs[0])
  {
    assert rows == [] || |rows[0]| == |tys|;
    NoEmptyRows(rows, vs);
  }

  lemma NoEmptyRows(rows: seq<Row>, vs: seq<Value>)
    requires NoneMatch(rows, vs)
    ensures vs == [] ==> forall i :: 0 <= i < |rows| ==> rows[i] != []
  {
    forall i | 0 <= i < |rows| && vs == [] ensures rows[i] != [] {
      assert !MatchesAll(rows[i], vs);
    }
  }

  lemma QHeadOfValue(data: Data, q: Row, tys: seq<Ty>, v: Value)
    requires WfData(data) && q != [] && PatsTyped(data, q, tys) && HeadOf(q[0]).Some?
    requires HasType(data, v, tys[0]) && Matches(q[0], v)
    ensures HeadOfValue(v) == HeadOf(q[0]).value.head
  {
    MatchByHead(data, q[0], v, tys[0]);
  }

  lemma ShownHead(data: Data, heads: seq<Head>, v: Value, t: Ty)
    requires WfData(data) && heads != [] && HeadTyped(data, heads[0], t) && HasType(data, v, t)
    ensures HeadTyped(data, HeadOfValue(v), t)
  {
    ValueHeadTyped(data, v, t);
  }

  /** The theorem: `Useful` decides whether some well-typed vector of values
      matches `q` and no row. */
  lemma UsefulIffWitness(data: Data, rows: seq<Row>, q: Row, tys: seq<Ty>)
    requires WfData(data) && AllInhabited(data) && RowsTyped(data, rows, tys) && PatsTyped(data, q, tys)
    ensures BoolsReserved(data) && AllShaped(data, rows, |q|) && Shaped(data, q, |q|)
    ensures Useful(data, rows, q) <==> exists vs :: Witness(data, rows, q, tys, vs)
  {
    TypedShaped(data, rows, q, tys);
    hide Witness, AllInhabited;
    if Useful(data, rows, q) {
      var vs := UsefulHasWitness(data, rows, q, tys);
    }
    if vs :| Witness(data, rows, q, tys, vs) {
      WitnessMakesUseful(data, rows, q, tys, vs);
    }
  }

  // ------------------------------------------------------- exhaustive matches

  function Singles(pats: seq<Pat>): (rows: seq<Row>)
    ensures |rows| == |pats|
  {
    seq(|pats|, i requires 0 <= i < |pats| => [pats[i]])
  }

  ghost predicate ArmsTyped(data: Data, pats: seq<Pat>, t: Ty) {
    forall i :: 0 <= i < |pats| ==> PatTyped(data, pats[i], t)
  }

  ghost predicate Unmatched(data: Data, pats: seq<Pat>, t: Ty, v: Value) {
    HasType(data, v, t) && forall i :: 0 <= i < |pats| ==> !Matches(pats[i], v)
  }

  lemma SinglesTyped(data: Data, pats: seq<Pat>, t: Ty)
    requires WfData(data) && ArmsTyped(data, pats, t)
    ensures RowsTyped(data, Singles(pats), [t]) && PatsTyped(data, [PWild], [t])
    ensures BoolsReserved(data) && AllShaped(data, Singles(pats), 1) && Shaped(data, [PWild], 1)
  {
    TypedShaped(data, Singles(pats), [PWild], [t]);
  }

  lemma SinglesWitness(data: Data, pats: seq<Pat>, t: Ty, v: Value)
    ensures Witness(data, Singles(pats), [PWild], [t], [v]) <==> Unmatched(data, pats, t, v)
  {
    assert Matches(PWild, v);
    hide HasType, Matches;
    assert forall p :: MatchesAll([p], [v]) <==> Matches([p][0], [v][0]);
    assert [PWild][0] == PWild;
    assert HasTypes(data, [v], [t]) <==> HasType(data, [v][0], [t][0]);
    forall i | 0 <= i < |pats| ensures Singles(pats)[i] == [pats[i]] {}
  }

  /** The verdict on a match: an arm `_` put last would add nothing. */
  predicate Accepts(data: Data, pats: seq<Pat>)
    requires BoolsReserved(data) && AllShaped(data, Singles(pats), 1)
  {
    !Useful(data, Singles(pats), [PWild])
  }

  /** A match that is accepted covers every value of its scrutinee's type, and,
      when every type has a value, one that is rejected misses some. */
  lemma AcceptsIffCovers(data: Data, pats: seq<Pat>, t: Ty)
    requires WfData(data) && ArmsTyped(data, pats, t)
    ensures BoolsReserved(data) && AllShaped(data, Singles(pats), 1)
    ensures Accepts(data, pats) ==> forall v :: !Unmatched(data, pats, t, v)
    ensures AllInhabited(data) && !Accepts(data, pats) ==> exists v :: Unmatched(data, pats, t, v)
  {
    SinglesTyped(data, pats, t);
    var rows := Singles(pats);
    hide Unmatched, Witness, AllInhabited;
    forall v | Unmatched(data, pats, t, v) ensures Useful(data, rows, [PWild]) {
      SinglesWitness(data, pats, t, v);
      WitnessMakesUseful(data, rows, [PWild], [t], [v]);
    }
    if AllInhabited(data) && !Accepts(data, pats) {
      var vs := UsefulHasWitness(data, rows, [PWild], [t]);
      WitnessWidth(data, rows, [PWild], [t], vs);
      assert vs == [vs[0]];
      SinglesWitness(data, pats, t, vs[0]);
    }
  }

  lemma WitnessWidth(data: Data, rows: seq<Row>, q: Row, tys: seq<Ty>, vs: seq<Value>)
    requires Witness(data, rows, q, tys, vs)
    ensures |vs| == |q|
  {}

  /** Whether the diagnostic names the `i`th constructor of the signature. */
  predicate Reported(data: Data, pats: seq<Pat>, i: nat)
    requires BoolsReserved(data) && AllShaped(data, Singles(pats), 1)
    requires Signature(data, Heads(Singles(pats))).Some? && i < |Signature(data, Heads(Singles(pats))).value|
  {
    var s := Signature(data, Heads(Singles(pats))).value[i];
    SlotShaped(data, pats, i);
    Useful(data, Specialise(Singles(pats), s.head, s.arity), Wilds(s.arity))
  }

  lemma SlotShaped(data: Data, pats: seq<Pat>, i: nat)
    requires BoolsReserved(data) && AllShaped(data, Singles(pats), 1)
    requires Signature(data, Heads(Singles(pats))).Some? && i < |Signature(data, Heads(Singles(pats))).value|
    ensures var s := Signature(data, Heads(Singles(pats))).value[i];
            AllShaped(data, Specialise(Singles(pats), s.head, s.arity), s.arity)
              && Shaped(data, Wilds(s.arity), s.arity)
  {
    var s := Signature(data, Heads(Singles(pats))).value[i];
    SignatureArity(data, Heads(Singles(pats)), i);
    SpecialiseShaped(data, Singles(pats), s.head, 1);
  }

  ghost predicate MissingAt(data: Data, pats: seq<Pat>, t: Ty, h: Head, v: Value) {
    Unmatched(data, pats, t, v) && HeadOfValue(v) == h
  }

  /** A value of head `h` is missed exactly when what is under it is a witness. */
  lemma MissingUnder(data: Data, pats: seq<Pat>, t: Ty, h: Head, v: Value)
    requires WfData(data) && ArmsTyped(data, pats, t) && HeadTyped(data, h, t)
    requires HasType(data, v, t) && HeadOfValue(v) == h
    ensures Unmatched(data, pats, t, v) <==>
      Witness(data, Specialise(Singles(pats), h, HeadArity(data, h)), Wilds(HeadArity(data, h)),
              UnderTypes(data, h, t), Under(v))
  {
    SinglesTyped(data, pats, t);
    SinglesWitness(data, pats, t, v);
    var k, ts := HeadArity(data, h), UnderTypes(data, h, t);
    assert [t][1..] == [] && Wilds(k) + [PWild][1..] == Wilds(k) && [v] + [] == [v];
    assert ts + [] == ts && Under(v) + [] == Under(v);
    hide Unmatched, Witness, HeadTyped, UnderTypes, HasType;
    WitnessUnderHead(data, Singles(pats), [PWild], Wilds(k), h, [t], v, []);
  }

  /** The constructors the diagnostic names are exactly those with a value no
      arm matches. */
  lemma ReportedIffMissing(data: Data, pats: seq<Pat>, t: Ty, i: nat)
    requires WfData(data) && AllInhabited(data) && ArmsTyped(data, pats, t) && BoolsReserved(data)
    requires AllShaped(data, Singles(pats), 1)
    requires Signature(data, Heads(Singles(pats))).Some? && i < |Signature(data, Heads(Singles(pats))).value|
    ensures var h := Signature(data, Heads(Singles(pats))).value[i].head;
            Reported(data, pats, i) <==> exists v :: MissingAt(data, pats, t, h, v)
  {
    var rows := Singles(pats);
    var s := Signature(data, Heads(rows)).value[i];
    SinglesTyped(data, pats, t);
    SlotShaped(data, pats, i);
    SignatureArity(data, Heads(rows), i);
    HeadsTyped(data, rows, [t]);
    SignatureOfType(data, Heads(rows), t);
    UnderTyped(data, pats, t, s.head);
    var tys, below := UnderTypes(data, s.head, t), Specialise(rows, s.head, s.arity);
    hide Unmatched, Witness, AllInhabited, HeadTyped, UnderTypes, HasType, RowsTyped, PatsTyped, Signature;
    if Useful(data, below, Wilds(s.arity)) {
      var vs := UsefulHasWitness(data, below, Wilds(s.arity), tys);
      var v := ValueUnderHead(data, s.head, t, vs, below, Wilds(s.arity));
      MissingUnder(data, pats, t, s.head, v);
      assert MissingAt(data, pats, t, s.head, v);
    }
    if v :| MissingAt(data, pats, t, s.head, v) {
      UnmatchedTyped(data, pats, t, v);
      MissingUnder(data, pats, t, s.head, v);
      WitnessMakesUseful(data, below, Wilds(s.arity), tys, Under(v));
    }
  }

  lemma UnderTyped(data: Data, pats: seq<Pat>, t: Ty, h: Head)
    requires WfData(data) && ArmsTyped(data, pats, t) && HeadTyped(data, h, t)
    ensures RowsTyped(data, Specialise(Singles(pats), h, HeadArity(data, h)), UnderTypes(data, h, t))
    ensures PatsTyped(data, Wilds(HeadArity(data, h)), UnderTypes(data, h, t))
  {
    var k, ts := HeadArity(data, h), UnderTypes(data, h, t);
    SinglesTyped(data, pats, t);
    assert [t][1..] == [] && Wilds(k) + [PWild][1..] == Wilds(k) && ts + [] == ts;
    SpecialisedTyped(data, Singles(pats), [PWild], Wilds(k), h, [t]);
  }

  lemma UnmatchedTyped(data: Data, pats: seq<Pat>, t: Ty, v: Value)
    requires Unmatched(data, pats, t, v)
    ensures HasType(data, v, t)
  {}

  lemma ValueUnderHead(data: Data, h: Head, t: Ty, vs: seq<Value>, rows: seq<Row>, q: Row) returns (v: Value)
    requires WfData(data) && HeadTyped(data, h, t) && Witness(data, rows, q, UnderTypes(data, h, t), vs)
    ensures HasType(data, v, t) && HeadOfValue(v) == h && Under(v) == vs
  {
    BuildTyped(data, h, vs, t);
    v := Build(data, h, vs, t);
  }
}
