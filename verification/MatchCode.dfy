/** The C a match compiles to: the condition that tests each arm's pattern, the
    variables the arm binds, and the `else` that fails (src/codegen.rs). */
module MatchCode {
  import opened Wrappers
  import opened Ast
  import opened Patterns
  import opened Usefulness

  /** A boxed value (runtime/vibert.h). */
  datatype Boxed =
    | BInt(i: int)
    | BUInt(u: int)
    | BFloat(x: real)
    | BBool(b: bool)
    | BChar(c: nat)
    | BStr(s: string)
    | BVec(items: seq<Boxed>)
    | BObj(tag: nat, fields: seq<Boxed>)
    | BOther

  /** How an arm reaches into the scrutinee. */
  datatype Access = Root | FieldOf(base: Access, i: nat) | ElemOf(base: Access, i: nat)

  /** One conjunct of an arm's condition. */
  datatype Test =
    | EqLit(at: Access, lit: Boxed)
    | LenIs(at: Access, n: nat)
    | TagIs(at: Access, tag: nat)

  // ---------------------------------------------------------------- emission

  /** An integer literal as C spells it. */
  function IntLit(n: int): Boxed {
    if n > I64_MAX then BUInt(n) else BInt(n)
  }

  function TagOf(data: Data, c: string): nat {
    if c in data.ctors then data.ctors[c].tag else 0
  }

  /** What `strlen` sees of a string: everything before the first NUL. */
  function Cut(t: string): (r: string)
    ensures r == t <==> '\0' !in t
    ensures r <= t && '\0' !in r
  {
    if t == [] || t[0] == '\0' then [] else [t[0]] + Cut(t[1..])
  }

  /** The emitted test for `p` at `s`; empty for `1`. A string goes through
      `vb_strz`, which cuts it. */
  function PatCond(data: Data, p: Pat, s: Access): seq<Test>
    decreases p
  {
    match p
    case PWild => []
    case PVar(_) => []
    case PInt(n) => [EqLit(s, IntLit(n))]
    case PFloat(x) => [EqLit(s, BFloat(x))]
    case PStr(t) => [EqLit(s, BStr(Cut(t)))]
    case PChar(c) => [EqLit(s, BChar(c))]
    case PBool(b) => [EqLit(s, BBool(b))]
    case PTuple(ps) => FieldConds(data, p, ps, s, 0)
    case PList(ps) => [LenIs(s, |ps|)] + ElemConds(data, p, ps, s, 0)
    case PCtor(c, ps) =>
      if IsBoolCtor(c) then [EqLit(s, BBool(c == "True"))]
      else [TagIs(s, TagOf(data, c))] + FieldConds(data, p, ps, s, 0)
  }

  function FieldConds(data: Data, parent: Pat, ps: seq<Pat>, s: Access, from: nat): seq<Test>
    requires from <= |ps| && forall i :: 0 <= i < |ps| ==> ps[i] < parent
    decreases parent, |ps| - from
  {
    if from == |ps| then []
    else PatCond(data, ps[from], FieldOf(s, from)) + FieldConds(data, parent, ps, s, from + 1)
  }

  function ElemConds(data: Data, parent: Pat, ps: seq<Pat>, s: Access, from: nat): seq<Test>
    requires from <= |ps| && forall i :: 0 <= i < |ps| ==> ps[i] < parent
    decreases parent, |ps| - from
  {
    if from == |ps| then []
    else PatCond(data, ps[from], ElemOf(s, from)) + ElemConds(data, parent, ps, s, from + 1)
  }

  datatype Binding = Binding(name: string, at: Access)

  /** The variables an arm declares, in the order it declares them. */
  function PatBind(p: Pat, s: Access): seq<Binding>
    decreases p
  {
    match p
    case PVar(n) => [Binding(n, s)]
    case PTuple(ps) => FieldBinds(p, ps, s, 0)
    case PList(ps) => ElemBinds(p, ps, s, 0)
    case PCtor(c, ps) => if IsBoolCtor(c) then [] else FieldBinds(p, ps, s, 0)
    case _ => []
  }

  function FieldBinds(parent: Pat, ps: seq<Pat>, s: Access, from: nat): seq<Binding>
    requires from <= |ps| && forall i :: 0 <= i < |ps| ==> ps[i] < parent
    decreases parent, |ps| - from
  {
    if from == |ps| then [] else PatBind(ps[from], FieldOf(s, from)) + FieldBinds(parent, ps, s, from + 1)
  }

  function ElemBinds(parent: Pat, ps: seq<Pat>, s: Access, from: nat): seq<Binding>
    requires from <= |ps| && forall i :: 0 <= i < |ps| ==> ps[i] < parent
    decreases parent, |ps| - from
  {
    if from == |ps| then [] else PatBind(ps[from], ElemOf(s, from)) + ElemBinds(parent, ps, s, from + 1)
  }

  // --------------------------------------------------------------- execution

  /** What is at `a`; `None` where a tag or an index check fails. */
  function Read(a: Access, root: Boxed): Option<Boxed> {
    match a
    case Root => Some(root)
    case FieldOf(b, i) =>
      (match Read(b, root)
       case Some(BObj(_, fs)) => if i < |fs| then Some(fs[i]) else None
       case _ => None)
    case ElemOf(b, i) =>
      (match Read(b, root)
       case Some(BVec(xs)) => if i < |xs| then Some(xs[i]) else None
       case _ => None)
  }

  predicate Integral(v: Boxed) { v.BInt? || v.BUInt? || v.BBool? || v.BChar? }

  /** `vb_as_int`: an unsigned value past the signed range wraps. */
  function AsInt(v: Boxed): int requires Integral(v) {
    match v
    case BInt(i) => i
    case BUInt(u) => if u > I64_MAX then u - (U64_MAX + 1) else u
    case BBool(b) => if b then 1 else 0
    case BChar(c) => c
  }

  /** `vb_as_uint`: a negative value wraps. */
  function AsUInt(v: Boxed): int requires Integral(v) {
    if v.BUInt? then v.u else if AsInt(v) < 0 then AsInt(v) + (U64_MAX + 1) else AsInt(v)
  }

  function AsFloat(v: Boxed): real requires Integral(v) || v.BFloat? {
    match v
    case BFloat(x) => x
    case BUInt(u) => u as real
    case _ => AsInt(v) as real
  }

  /** `vb_eq` against a literal; `None` where it fails on the tag. */
  function EqBoxed(a: Boxed, b: Boxed): Option<bool> {
    if a.BFloat? || b.BFloat? then
      if (Integral(a) || a.BFloat?) && (Integral(b) || b.BFloat?) then Some(AsFloat(a) == AsFloat(b)) else None
    else if a.BStr? && b.BStr? then Some(a.s == b.s)
    else if Integral(a) && Integral(b) then
      Some(if a.BUInt? || b.BUInt? then AsUInt(a) == AsUInt(b) else AsInt(a) == AsInt(b))
    else None
  }

  function RunTest(t: Test, root: Boxed): Option<bool> {
    match Read(t.at, root)
    case None => None
    case Some(v) =>
      match t
      case EqLit(_, lit) => EqBoxed(v, lit)
      case LenIs(_, n) => if v.BVec? then Some(|v.items| == n) else None
      case TagIs(_, tag) => if v.BObj? then Some(v.tag == tag) else None
  }

  /** `&&` from left to right: a test runs only when those before it held. */
  function RunTests(ts: seq<Test>, root: Boxed): Option<bool> {
    if ts == [] then Some(true)
    else match RunTest(ts[0], root)
      case Some(true) => RunTests(ts[1..], root)
      case r => r
  }

  // ------------------------------------------- what a pattern asks of a boxed value

  /** No string literal in the pattern holds a NUL. */
  predicate NulFree(p: Pat)
    decreases p
  {
    match p
    case PStr(t) => '\0' !in t
    case PTuple(ps) => forall i :: 0 <= i < |ps| ==> NulFree(ps[i])
    case PList(ps) => forall i :: 0 <= i < |ps| ==> NulFree(ps[i])
    case PCtor(_, ps) => forall i :: 0 <= i < |ps| ==> NulFree(ps[i])
    case _ => true
  }

  function FieldAt(v: Option<Boxed>, i: nat): Option<Boxed> {
    match v
    case Some(BObj(_, fs)) => if i < |fs| then Some(fs[i]) else None
    case _ => None
  }

  function ElemAt(v: Option<Boxed>, i: nat): Option<Boxed> {
    match v
    case Some(BVec(xs)) => if i < |xs| then Some(xs[i]) else None
    case _ => None
  }

  function Same(v: Option<Boxed>, lit: Boxed): Option<bool> { if v.Some? then EqBoxed(v.value, lit) else None }

  /** Whether the source pattern matches what is there, by the structure of both;
      nothing where it cannot be asked, on a value of another type. */
  function Fits(data: Data, p: Pat, v: Option<Boxed>): Option<bool>
    decreases p
  {
    match p
    case PWild => Some(true)
    case PVar(_) => Some(true)
    case PInt(n) => Same(v, IntLit(n))
    case PFloat(x) => Same(v, BFloat(x))
    case PStr(t) => Same(v, BStr(t))
    case PChar(c) => Same(v, BChar(c))
    case PBool(b) => Same(v, BBool(b))
    case PTuple(ps) => FitsFields(data, p, ps, v, 0)
    case PList(ps) =>
      if v.None? || !v.value.BVec? then None
      else if |v.value.items| != |ps| then Some(false)
      else FitsElems(data, p, ps, v, 0)
    case PCtor(c, ps) =>
      if IsBoolCtor(c) then Same(v, BBool(c == "True"))
      else if v.None? || !v.value.BObj? then None
      else if v.value.tag != TagOf(data, c) then Some(false)
      else FitsFields(data, p, ps, v, 0)
  }

  function FitsFields(data: Data, parent: Pat, ps: seq<Pat>, v: Option<Boxed>, from: nat): Option<bool>
    requires from <= |ps| && forall i :: 0 <= i < |ps| ==> ps[i] < parent
    decreases parent, |ps| - from
  {
    if from == |ps| then Some(true)
    else match Fits(data, ps[from], FieldAt(v, from))
      case Some(true) => FitsFields(data, parent, ps, v, from + 1)
      case r => r
  }

  function FitsElems(data: Data, parent: Pat, ps: seq<Pat>, v: Option<Boxed>, from: nat): Option<bool>
    requires from <= |ps| && forall i :: 0 <= i < |ps| ==> ps[i] < parent
    decreases parent, |ps| - from
  {
    if from == |ps| then Some(true)
    else match Fits(data, ps[from], ElemAt(v, from))
      case Some(true) => FitsElems(data, parent, ps, v, from + 1)
      case r => r
  }

  /** Running the emitted test of a pattern without NULs answers as the pattern
      does, at any value at all. */
  lemma {:induction false} CondFits(data: Data, p: Pat, s: Access, root: Boxed)
    requires NulFree(p)
    ensures RunTests(PatCond(data, p, s), root) == Fits(data, p, Read(s, root))
    decreases p, 1, 0
  {
    hide RunTests, EqBoxed, IntLit, FitsFields, FitsElems, FieldConds, ElemConds, Read;
    match p
    case PWild => RunNone(root);
    case PVar(_) => RunNone(root);
    case PTuple(ps) => FieldsFit(data, p, ps, s, root, 0);
    case PList(ps) =>
      LenTest(s, |ps|, root);
      RunAppend([LenIs(s, |ps|)], ElemConds(data, p, ps, s, 0), root);
      ElemsFit(data, p, ps, s, root, 0);
    case PCtor(c, ps) =>
      if IsBoolCtor(c) {
        LitTest(s, BBool(c == "True"), root);
      } else {
        TagTest(s, TagOf(data, c), root);
        RunAppend([TagIs(s, TagOf(data, c))], FieldConds(data, p, ps, s, 0), root);
        FieldsFit(data, p, ps, s, root, 0);
      }
    case PInt(n) => LitTest(s, IntLit(n), root);
    case PFloat(x) => LitTest(s, BFloat(x), root);
    case PStr(t) => LitTest(s, BStr(t), root);
    case PChar(c) => LitTest(s, BChar(c), root);
    case PBool(b) => LitTest(s, BBool(b), root);
  }

  lemma LitTest(s: Access, lit: Boxed, root: Boxed)
    ensures RunTests([EqLit(s, lit)], root) == Same(Read(s, root), lit)
  {
    RunOne(EqLit(s, lit), root);
  }

  lemma LenTest(s: Access, n: nat, root: Boxed)
    ensures RunTests([LenIs(s, n)], root)
         == match Read(s, root) case None => None case Some(v) => if v.BVec? then Some(|v.items| == n) else None
  {
    RunOne(LenIs(s, n), root);
  }

  lemma TagTest(s: Access, tag: nat, root: Boxed)
    ensures RunTests([TagIs(s, tag)], root)
         == match Read(s, root) case None => None case Some(v) => if v.BObj? then Some(v.tag == tag) else None
  {
    RunOne(TagIs(s, tag), root);
  }

  lemma {:induction false} FieldsFit(data: Data, parent: Pat, ps: seq<Pat>, s: Access, root: Boxed, from: nat)
    requires from <= |ps| && forall i :: 0 <= i < |ps| ==> ps[i] < parent && NulFree(ps[i])
    ensures RunTests(FieldConds(data, parent, ps, s, from), root) == FitsFields(data, parent, ps, Read(s, root), from)
    decreases parent, 0, |ps| - from
  {
    hide RunTests, PatCond, Fits, NulFree;
    if from < |ps| {
      CondFits(data, ps[from], FieldOf(s, from), root);
      FieldsFit(data, parent, ps, s, root, from + 1);
      RunAppend(PatCond(data, ps[from], FieldOf(s, from)), FieldConds(data, parent, ps, s, from + 1), root);
    } else {
      RunNone(root);
    }
  }

  lemma {:induction false} ElemsFit(data: Data, parent: Pat, ps: seq<Pat>, s: Access, root: Boxed, from: nat)
    requires from <= |ps| && forall i :: 0 <= i < |ps| ==> ps[i] < parent && NulFree(ps[i])
    ensures RunTests(ElemConds(data, parent, ps, s, from), root) == FitsElems(data, parent, ps, Read(s, root), from)
    decreases parent, 0, |ps| - from
  {
    hide RunTests, PatCond, Fits, NulFree;
    if from < |ps| {
      CondFits(data, ps[from], ElemOf(s, from), root);
      ElemsFit(data, parent, ps, s, root, from + 1);
      RunAppend(PatCond(data, ps[from], ElemOf(s, from)), ElemConds(data, parent, ps, s, from + 1), root);
    } else {
      RunNone(root);
    }
  }

  /** What the test emitted for a string literal answers about a string. */
  function StrTest(data: Data, t: string, v: string): Option<bool> { RunTests(PatCond(data, PStr(t), Root), BStr(v)) }

  /** It is exact on all strings if and only if the literal holds no NUL. */
  lemma StrExactIffNulFree(data: Data, t: string)
    ensures (forall v: string :: StrTest(data, t, v) == Some(v == t)) <==> '\0' !in t
  {
    forall v: string ensures StrTest(data, t, v) == Some(v == Cut(t)) { LitTest(Root, BStr(Cut(t)), BStr(v)); }
    assert StrTest(data, t, t) == Some(t == Cut(t));
  }

  /** A literal with a NUL rejects the very string it spells and accepts what
      comes before the NUL. */
  lemma NulPatternSwaps(data: Data, a: string, b: string)
    requires '\0' !in a
    ensures var t := a + ['\0'] + b;
            StrTest(data, t, t) == Some(false) && StrTest(data, t, a) == Some(true) && !Matches(PStr(t), VStr(a))
  {
    var t := a + ['\0'] + b;
    CutPrefix(a, ['\0'] + b);
    assert t == a + (['\0'] + b);
    LitTest(Root, BStr(Cut(t)), BStr(t));
    LitTest(Root, BStr(Cut(t)), BStr(a));
  }

  lemma {:induction false} CutPrefix(a: string, b: string)
    requires '\0' !in a && b != [] && b[0] == '\0'
    ensures Cut(a + b) == a
  {
    if a == [] {
      assert a + b == b;
    } else {
      CutPrefix(a[1..], b);
      assert (a + b)[1..] == a[1..] + b;
    }
  }

  // ------------------------------------------------------- boxed and typed values

  /** A type's constructors carry their positions as tags. */
  ghost predicate TagsOk(data: Data) {
    forall c :: c in data.ctors ==>
      var i := data.ctors[c];
      i.owner in data.variants && i.tag < |data.variants[i.owner]| && data.variants[i.owner][i.tag] == c
  }

  /** `r` is how the runtime holds `v`. A literal of a numeric type is boxed as it
      is spelled, so a number may sit under either integer tag. */
  ghost predicate Holds(data: Data, v: Value, t: Ty, r: Boxed)
    decreases v
  {
    match v
    case VInt(n) =>
      || (r == BInt(n) && -I64_MAX - 1 <= n <= I64_MAX && (n < 0 ==> t != TCon("U64", [])))
      || (r == BUInt(n) && 0 <= n <= U64_MAX)
    case VFloat(x) => r == BFloat(x) || ((r.BInt? || r.BUInt?) && AsFloat(r) == x)
    case VStr(s) => r == BStr(s)
    case VChar(c) => r == BChar(c)
    case VBool(b) => r == BBool(b)
    case VList(vs) =>
      KindOf(data, t).Vecs? && r.BVec? && |r.items| == |vs|
      && forall i :: 0 <= i < |vs| ==> Holds(data, vs[i], KindOf(data, t).el, r.items[i])
    case VTuple(vs) =>
      KindOf(data, t).Tuples? && |KindOf(data, t).parts| == |vs| && r.BObj? && |r.fields| == |vs|
      && forall i :: 0 <= i < |vs| ==> Holds(data, vs[i], KindOf(data, t).parts[i], r.fields[i])
    case VCtor(c, vs) =>
      KindOf(data, t).Variants? && c in data.ctors && |data.ctors[c].args| == |vs|
      && r.BObj? && r.tag == data.ctors[c].tag && |r.fields| == |vs|
      && forall i :: 0 <= i < |vs| ==> Holds(data, vs[i], ArgTypes(data.ctors[c], KindOf(data, t).args)[i], r.fields[i])
    case VOther => true
  }

  lemma {:induction false} RunAppend(a: seq<Test>, b: seq<Test>, root: Boxed)
    ensures RunTests(a + b, root) == if RunTests(a, root) == Some(true) then RunTests(b, root) else RunTests(a, root)
  {
    if a == [] {
      assert a + b == b;
    } else {
      assert (a + b)[1..] == a[1..] + b;
      RunAppend(a[1..], b, root);
    }
  }

  lemma RunNone(root: Boxed)
    ensures RunTests([], root) == Some(true)
  {}

  lemma RunOne(t: Test, root: Boxed)
    ensures RunTests([t], root) == RunTest(t, root)
  {
    assert [t][1..] == [];
  }

  /** On a value of its type a pattern can always be asked, and fits where it
      matches, whichever way the value is boxed. */
  lemma {:induction false} FitsTyped(data: Data, p: Pat, v: Value, t: Ty, r: Boxed)
    requires WfData(data) && TagsOk(data)
    requires PatTyped(data, p, t) && HasType(data, v, t) && Holds(data, v, t, r)
    ensures Fits(data, p, Some(r)) == Some(Matches(p, v))
    decreases p
  {
    hide Holds, HasType, PatTyped, Fits, Matches;
    match p
    case PTuple(_) => TupleFits(data, p, v, t, r);
    case PList(_) => ListFits(data, p, v, t, r);
    case PCtor(c, _) => if IsBoolCtor(c) { LeafFits(data, p, v, t, r); } else { CtorFits(data, p, v, t, r); }
    case _ => LeafFits(data, p, v, t, r);
  }

  lemma LeafFits(data: Data, p: Pat, v: Value, t: Ty, r: Boxed)
    requires !p.PTuple? && !p.PList? && (p.PCtor? ==> IsBoolCtor(p.ctor))
    requires PatTyped(data, p, t) && HasType(data, v, t) && Holds(data, v, t, r)
    ensures Fits(data, p, Some(r)) == Some(Matches(p, v))
  {}

  lemma {:induction false} TupleFits(data: Data, p: Pat, v: Value, t: Ty, r: Boxed)
    requires WfData(data) && TagsOk(data) && p.PTuple?
    requires PatTyped(data, p, t) && HasType(data, v, t) && Holds(data, v, t, r)
    ensures Fits(data, p, Some(r)) == Some(Matches(p, v))
    decreases p, |p.parts| + 1
  {
    hide WfData, TagsOk, FitsFields;
    FieldsTyped(data, p, p.parts, v.parts, KindOf(data, t).parts, r, 0);
  }

  lemma {:induction false} ListFits(data: Data, p: Pat, v: Value, t: Ty, r: Boxed)
    requires WfData(data) && TagsOk(data) && p.PList?
    requires PatTyped(data, p, t) && HasType(data, v, t) && Holds(data, v, t, r)
    ensures Fits(data, p, Some(r)) == Some(Matches(p, v))
    decreases p, |p.items| + 1
  {
    var ps := p.items;
    if |ps| == |v.items| { ElemsTyped(data, p, ps, v.items, seq(|ps|, _ => KindOf(data, t).el), r, 0); }
  }

  lemma {:induction false} CtorFits(data: Data, p: Pat, v: Value, t: Ty, r: Boxed)
    requires WfData(data) && TagsOk(data) && p.PCtor? && !IsBoolCtor(p.ctor)
    requires PatTyped(data, p, t) && HasType(data, v, t) && Holds(data, v, t, r)
    ensures Fits(data, p, Some(r)) == Some(Matches(p, v))
    decreases p, |p.args| + 1
  {
    if v.ctor == p.ctor {
      FieldsTyped(data, p, p.args, v.args, ArgTypes(data.ctors[p.ctor], KindOf(data, t).args), r, 0);
    }
  }

  lemma {:induction false} FieldsTyped(data: Data, parent: Pat, ps: seq<Pat>, vs: seq<Value>, ts: seq<Ty>, r: Boxed,
                                       from: nat)
    requires WfData(data) && TagsOk(data) && from <= |ps| && |vs| == |ps| == |ts|
    requires forall i :: 0 <= i < |ps| ==> ps[i] < parent
    requires PatsTyped(data, ps, ts) && HasTypes(data, vs, ts)
    requires r.BObj? && |r.fields| == |vs| && forall i :: 0 <= i < |vs| ==> Holds(data, vs[i], ts[i], r.fields[i])
    ensures FitsFields(data, parent, ps, Some(r), from) == Some(forall i :: from <= i < |ps| ==> Matches(ps[i], vs[i]))
    decreases parent, |ps| - from
  {
    hide Holds, HasType, PatTyped, Matches, Fits, TagsOk, WfData;
    if from < |ps| {
      FitsTyped(data, ps[from], vs[from], ts[from], r.fields[from]);
      FieldsTyped(data, parent, ps, vs, ts, r, from + 1);
    }
  }

  lemma {:induction false} ElemsTyped(data: Data, parent: Pat, ps: seq<Pat>, vs: seq<Value>, ts: seq<Ty>, r: Boxed,
                                      from: nat)
    requires WfData(data) && TagsOk(data) && from <= |ps| && |vs| == |ps| == |ts|
    requires forall i :: 0 <= i < |ps| ==> ps[i] < parent
    requires PatsTyped(data, ps, ts) && HasTypes(data, vs, ts)
    requires r.BVec? && |r.items| == |vs| && forall i :: 0 <= i < |vs| ==> Holds(data, vs[i], ts[i], r.items[i])
    ensures FitsElems(data, parent, ps, Some(r), from) == Some(forall i :: from <= i < |ps| ==> Matches(ps[i], vs[i]))
    decreases parent, |ps| - from
  {
    hide Holds, HasType, PatTyped, Matches, Fits, TagsOk, WfData;
    if from < |ps| {
      FitsTyped(data, ps[from], vs[from], ts[from], r.items[from]);
      ElemsTyped(data, parent, ps, vs, ts, r, from + 1);
    }
  }

  /** The condition is true exactly when the pattern matches, and evaluating it
      never trips a tag or an index check. */
  lemma CondExact(data: Data, p: Pat, s: Access, root: Boxed, v: Value, t: Ty, r: Boxed)
    requires WfData(data) && TagsOk(data) && NulFree(p)
    requires PatTyped(data, p, t) && HasType(data, v, t) && Holds(data, v, t, r) && Read(s, root) == Some(r)
    ensures RunTests(PatCond(data, p, s), root) == Some(Matches(p, v))
  {
    hide Holds, HasType, PatTyped, PatCond, RunTests, Matches, Fits;
    CondFits(data, p, s, root);
    FitsTyped(data, p, v, t, r);
  }

  // ---------------------------------------------------------------- bindings

  /** The subvalues first-match semantics gives the pattern's variables, left to
      right. */
  function BoundValues(p: Pat, v: Value): seq<Value>
    decreases p
  {
    match p
    case PVar(_) => [v]
    case PTuple(ps) => if v.VTuple? && |v.parts| == |ps| then BoundUnder(p, ps, v.parts, 0) else []
    case PList(ps) => if v.VList? && |v.items| == |ps| then BoundUnder(p, ps, v.items, 0) else []
    case PCtor(c, ps) =>
      if !IsBoolCtor(c) && v.VCtor? && |v.args| == |ps| then BoundUnder(p, ps, v.args, 0) else []
    case _ => []
  }

  function BoundUnder(parent: Pat, ps: seq<Pat>, vs: seq<Value>, from: nat): seq<Value>
    requires from <= |ps| == |vs| && forall i :: 0 <= i < |ps| ==> ps[i] < parent
    decreases parent, |ps| - from
  {
    if from == |ps| then [] else BoundValues(ps[from], vs[from]) + BoundUnder(parent, ps, vs, from + 1)
  }

  /** The types of those subvalues. */
  function BoundTypes(data: Data, p: Pat, t: Ty): seq<Ty>
    decreases p
  {
    match p
    case PVar(_) => [t]
    case PTuple(ps) =>
      if KindOf(data, t).Tuples? && |KindOf(data, t).parts| == |ps|
        then TypesUnder(data, p, ps, KindOf(data, t).parts, 0) else []
    case PList(ps) =>
      if KindOf(data, t).Vecs? then TypesUnder(data, p, ps, seq(|ps|, _ => KindOf(data, t).el), 0) else []
    case PCtor(c, ps) =>
      if !IsBoolCtor(c) && KindOf(data, t).Variants? && c in data.ctors && |data.ctors[c].args| == |ps|
      then TypesUnder(data, p, ps, ArgTypes(data.ctors[c], KindOf(data, t).args), 0) else []
    case _ => []
  }

  function TypesUnder(data: Data, parent: Pat, ps: seq<Pat>, ts: seq<Ty>, from: nat): seq<Ty>
    requires from <= |ps| == |ts| && forall i :: 0 <= i < |ps| ==> ps[i] < parent
    decreases parent, |ps| - from
  {
    if from == |ps| then [] else BoundTypes(data, ps[from], ts[from]) + TypesUnder(data, parent, ps, ts, from + 1)
  }

  /** Each variable, at the place it is read from, holds its subvalue. */
  ghost predicate Bound(data: Data, bs: seq<Binding>, names: seq<string>, vs: seq<Value>, ts: seq<Ty>, root: Boxed) {
    && |bs| == |names| == |vs| == |ts|
    && forall i :: 0 <= i < |bs| ==> bs[i].name == names[i] && ReadsAs(data, bs[i].at, root, vs[i], ts[i])
  }

  ghost predicate ReadsAs(data: Data, at: Access, root: Boxed, v: Value, t: Ty) {
    Read(at, root).Some? && HasType(data, v, t) && Holds(data, v, t, Read(at, root).value)
  }

  lemma BoundAppend(data: Data, bs: seq<Binding>, ns: seq<string>, vs: seq<Value>, ts: seq<Ty>,
                    cs: seq<Binding>, ms: seq<string>, ws: seq<Value>, us: seq<Ty>, root: Boxed)
    requires Bound(data, bs, ns, vs, ts, root) && Bound(data, cs, ms, ws, us, root)
    ensures Bound(data, bs + cs, ns + ms, vs + ws, ts + us, root)
  {
    hide ReadsAs;
  }

  /** In an arm that matches, each variable reads the subvalue it should. */
  lemma {:induction false} BindExact(data: Data, p: Pat, s: Access, root: Boxed, v: Value, t: Ty, r: Boxed)
    requires WfData(data) && TagsOk(data) && Matches(p, v)
    requires PatTyped(data, p, t) && HasType(data, v, t) && Holds(data, v, t, r) && Read(s, root) == Some(r)
    ensures Bound(data, PatBind(p, s), Names(p), BoundValues(p, v), BoundTypes(data, p, t), root)
    decreases p
  {
    hide Holds, HasType, PatTyped, Matches, PatBind, BoundValues, BoundTypes, Bound;
    match p
    case PTuple(_) => TupleBound(data, p, s, root, v, t, r);
    case PList(_) => ListBound(data, p, s, root, v, t, r);
    case PCtor(c, _) =>
      if IsBoolCtor(c) {
        LeafBound(data, p, s, root, v, t, r);
      } else {
        CtorBound(data, p, s, root, v, t, r);
      }
    case _ => LeafBound(data, p, s, root, v, t, r);
  }

  lemma LeafBound(data: Data, p: Pat, s: Access, root: Boxed, v: Value, t: Ty, r: Boxed)
    requires !p.PTuple? && !p.PList? && (p.PCtor? ==> IsBoolCtor(p.ctor))
    requires PatTyped(data, p, t) && HasType(data, v, t) && Holds(data, v, t, r) && Read(s, root) == Some(r)
    ensures Bound(data, PatBind(p, s), Names(p), BoundValues(p, v), BoundTypes(data, p, t), root)
  {
    hide Holds, HasType;
    if p.PVar? {
      assert ReadsAs(data, s, root, v, t);
    } else {
      assert NamesOf([]) == [];
    }
  }

  lemma {:induction false} TupleBound(data: Data, p: Pat, s: Access, root: Boxed, v: Value, t: Ty, r: Boxed)
    requires WfData(data) && TagsOk(data) && Matches(p, v) && p.PTuple?
    requires PatTyped(data, p, t) && HasType(data, v, t) && Holds(data, v, t, r) && Read(s, root) == Some(r)
    ensures Bound(data, PatBind(p, s), Names(p), BoundValues(p, v), BoundTypes(data, p, t), root)
    decreases p, |p.parts| + 1
  {
    hide Bound;
    assert p.parts[0..] == p.parts;
    FieldsBound(data, p, p.parts, s, root, v.parts, KindOf(data, t).parts, r, 0);
  }

  lemma {:induction false} ListBound(data: Data, p: Pat, s: Access, root: Boxed, v: Value, t: Ty, r: Boxed)
    requires WfData(data) && TagsOk(data) && Matches(p, v) && p.PList?
    requires PatTyped(data, p, t) && HasType(data, v, t) && Holds(data, v, t, r) && Read(s, root) == Some(r)
    ensures Bound(data, PatBind(p, s), Names(p), BoundValues(p, v), BoundTypes(data, p, t), root)
    decreases p, |p.items| + 1
  {
    hide Bound;
    assert p.items[0..] == p.items;
    ElemsBound(data, p, p.items, s, root, v.items, seq(|p.items|, _ => KindOf(data, t).el), r, 0);
  }

  lemma {:induction false} CtorBound(data: Data, p: Pat, s: Access, root: Boxed, v: Value, t: Ty, r: Boxed)
    requires WfData(data) && TagsOk(data) && Matches(p, v) && p.PCtor? && !IsBoolCtor(p.ctor)
    requires PatTyped(data, p, t) && HasType(data, v, t) && Holds(data, v, t, r) && Read(s, root) == Some(r)
    ensures Bound(data, PatBind(p, s), Names(p), BoundValues(p, v), BoundTypes(data, p, t), root)
    decreases p, |p.args| + 1
  {
    hide Bound;
    assert p.args[0..] == p.args;
    FieldsBound(data, p, p.args, s, root, v.args, ArgTypes(data.ctors[p.ctor], KindOf(data, t).args), r, 0);
  }

  lemma {:induction false} FieldsBound(data: Data, parent: Pat, ps: seq<Pat>, s: Access, root: Boxed,
                                       vs: seq<Value>, ts: seq<Ty>, r: Boxed, from: nat)
    requires WfData(data) && TagsOk(data) && from <= |ps| && |vs| == |ps| == |ts|
    requires forall i :: 0 <= i < |ps| ==> ps[i] < parent
    requires PatsTyped(data, ps, ts) && HasTypes(data, vs, ts) && MatchesAll(ps, vs)
    requires r.BObj? && |r.fields| == |vs| && forall i :: 0 <= i < |vs| ==> Holds(data, vs[i], ts[i], r.fields[i])
    requires Read(s, root) == Some(r)
    ensures Bound(data, FieldBinds(parent, ps, s, from), NamesOf(ps[from..]), BoundUnder(parent, ps, vs, from),
                  TypesUnder(data, parent, ps, ts, from), root)
    decreases parent, |ps| - from
  {
    hide Holds, HasType, PatTyped, Matches, Bound, PatBind, BoundValues, BoundTypes, TagsOk, WfData;
    if from < |ps| {
      BindExact(data, ps[from], FieldOf(s, from), root, vs[from], ts[from], r.fields[from]);
      FieldsBound(data, parent, ps, s, root, vs, ts, r, from + 1);
      assert ps[from..][0] == ps[from] && ps[from..][1..] == ps[from + 1..];
      BoundAppend(data, PatBind(ps[from], FieldOf(s, from)), Names(ps[from]), BoundValues(ps[from], vs[from]),
                  BoundTypes(data, ps[from], ts[from]), FieldBinds(parent, ps, s, from + 1), NamesOf(ps[from + 1..]),
                  BoundUnder(parent, ps, vs, from + 1), TypesUnder(data, parent, ps, ts, from + 1), root);
    } else {
      BoundNone(data, root);
    }
  }

  lemma BoundNone(data: Data, root: Boxed)
    ensures Bound(data, [], [], [], [], root)
  {}

  lemma {:induction false} ElemsBound(data: Data, parent: Pat, ps: seq<Pat>, s: Access, root: Boxed,
                                      vs: seq<Value>, ts: seq<Ty>, r: Boxed, from: nat)
    requires WfData(data) && TagsOk(data) && from <= |ps| && |vs| == |ps| == |ts|
    requires forall i :: 0 <= i < |ps| ==> ps[i] < parent
    requires PatsTyped(data, ps, ts) && HasTypes(data, vs, ts)
    requires MatchesAll(ps, vs)
    requires r.BVec? && |r.items| == |vs| && forall i :: 0 <= i < |vs| ==> Holds(data, vs[i], ts[i], r.items[i])
    requires Read(s, root) == Some(r)
    ensures Bound(data, ElemBinds(parent, ps, s, from), NamesOf(ps[from..]), BoundUnder(parent, ps, vs, from),
                  TypesUnder(data, parent, ps, ts, from), root)
    decreases parent, |ps| - from
  {
    hide Holds, HasType, PatTyped, Matches, Bound, PatBind, BoundValues, BoundTypes, TagsOk, WfData;
    if from < |ps| {
      BindExact(data, ps[from], ElemOf(s, from), root, vs[from], ts[from], r.items[from]);
      ElemsBound(data, parent, ps, s, root, vs, ts, r, from + 1);
      assert ps[from..][0] == ps[from] && ps[from..][1..] == ps[from + 1..];
      BoundAppend(data, PatBind(ps[from], ElemOf(s, from)), Names(ps[from]), BoundValues(ps[from], vs[from]),
                  BoundTypes(data, ps[from], ts[from]), ElemBinds(parent, ps, s, from + 1), NamesOf(ps[from + 1..]),
                  BoundUnder(parent, ps, vs, from + 1), TypesUnder(data, parent, ps, ts, from + 1), root);
    } else {
      BoundNone(data, root);
    }
  }

  // ------------------------------------------------------ what the names stand for

  type Env = map<string, Boxed>

  /** The declarations an arm starts with, one after the other. */
  function BindEnv(env: Env, bs: seq<Binding>, root: Boxed): Option<Env>
    decreases |bs|
  {
    if bs == [] then Some(env)
    else
      match Read(bs[0].at, root)
      case None => None
      case Some(v) => BindEnv(env[bs[0].name := v], bs[1..], root)
  }

  /** What the names of a source pattern stand for in the value it fits, by the
      structure of both; of a repeated name the last. */
  function Binds(p: Pat, v: Option<Boxed>, env: Env): Option<Env>
    decreases p
  {
    match p
    case PVar(n) => if v.Some? then Some(env[n := v.value]) else None
    case PTuple(ps) => BindsFields(p, ps, v, env, 0)
    case PList(ps) => BindsElems(p, ps, v, env, 0)
    case PCtor(c, ps) => if IsBoolCtor(c) then Some(env) else BindsFields(p, ps, v, env, 0)
    case _ => Some(env)
  }

  function BindsFields(parent: Pat, ps: seq<Pat>, v: Option<Boxed>, env: Env, from: nat): Option<Env>
    requires from <= |ps| && forall i :: 0 <= i < |ps| ==> ps[i] < parent
    decreases parent, |ps| - from
  {
    if from == |ps| then Some(env)
    else match Binds(ps[from], FieldAt(v, from), env)
      case None => None
      case Some(env') => BindsFields(parent, ps, v, env', from + 1)
  }

  function BindsElems(parent: Pat, ps: seq<Pat>, v: Option<Boxed>, env: Env, from: nat): Option<Env>
    requires from <= |ps| && forall i :: 0 <= i < |ps| ==> ps[i] < parent
    decreases parent, |ps| - from
  {
    if from == |ps| then Some(env)
    else match Binds(ps[from], ElemAt(v, from), env)
      case None => None
      case Some(env') => BindsElems(parent, ps, v, env', from + 1)
  }

  lemma {:induction false} BindAppend(env: Env, a: seq<Binding>, b: seq<Binding>, root: Boxed)
    ensures BindEnv(env, a + b, root)
         == match BindEnv(env, a, root) case None => None case Some(e) => BindEnv(e, b, root)
    decreases |a|
  {
    hide Read;
    if a == [] {
      assert a + b == b;
    } else {
      assert (a + b)[1..] == a[1..] + b;
      match Read(a[0].at, root)
      case None =>
      case Some(v) => BindAppend(env[a[0].name := v], a[1..], b, root);
    }
  }

  /** The emitted declarations give the names what the source pattern does. */
  lemma {:induction false} DeclsBind(p: Pat, s: Access, root: Boxed, env: Env)
    ensures BindEnv(env, PatBind(p, s), root) == Binds(p, Read(s, root), env)
    decreases p, 1, 0
  {
    hide FieldBinds, ElemBinds, BindsFields, BindsElems, Read;
    match p
    case PVar(n) => assert PatBind(p, s)[1..] == [];
    case PTuple(ps) => FieldsDeclared(p, ps, s, root, env, 0);
    case PList(ps) => ElemsDeclared(p, ps, s, root, env, 0);
    case PCtor(c, ps) => if !IsBoolCtor(c) { FieldsDeclared(p, ps, s, root, env, 0); }
    case _ =>
  }

  lemma {:induction false} FieldsDeclared(parent: Pat, ps: seq<Pat>, s: Access, root: Boxed, env: Env, from: nat)
    requires from <= |ps| && forall i :: 0 <= i < |ps| ==> ps[i] < parent
    ensures BindEnv(env, FieldBinds(parent, ps, s, from), root) == BindsFields(parent, ps, Read(s, root), env, from)
    decreases parent, 0, |ps| - from
  {
    hide PatBind, Binds;
    if from < |ps| {
      DeclsBind(ps[from], FieldOf(s, from), root, env);
      BindAppend(env, PatBind(ps[from], FieldOf(s, from)), FieldBinds(parent, ps, s, from + 1), root);
      match Binds(ps[from], FieldAt(Read(s, root), from), env)
      case None =>
      case Some(env') => FieldsDeclared(parent, ps, s, root, env', from + 1);
    }
  }

  lemma {:induction false} ElemsDeclared(parent: Pat, ps: seq<Pat>, s: Access, root: Boxed, env: Env, from: nat)
    requires from <= |ps| && forall i :: 0 <= i < |ps| ==> ps[i] < parent
    ensures BindEnv(env, ElemBinds(parent, ps, s, from), root) == BindsElems(parent, ps, Read(s, root), env, from)
    decreases parent, 0, |ps| - from
  {
    hide PatBind, Binds;
    if from < |ps| {
      DeclsBind(ps[from], ElemOf(s, from), root, env);
      BindAppend(env, PatBind(ps[from], ElemOf(s, from)), ElemBinds(parent, ps, s, from + 1), root);
      match Binds(ps[from], ElemAt(Read(s, root), from), env)
      case None =>
      case Some(env') => ElemsDeclared(parent, ps, s, root, env', from + 1);
    }
  }

  /** `env` with each name given its box, left to right. */
  function Extended(env: Env, names: seq<string>, boxes: seq<Boxed>): Env
    requires |names| == |boxes|
    decreases |names|
  {
    if names == [] then env else Extended(env[names[0] := boxes[0]], names[1..], boxes[1..])
  }

  ghost predicate HoldsEach(data: Data, vs: seq<Value>, ts: seq<Ty>, boxes: seq<Boxed>) {
    |vs| == |ts| == |boxes| && forall i :: 0 <= i < |vs| ==> Holds(data, vs[i], ts[i], boxes[i])
  }

  lemma {:induction false} BoundExtends(data: Data, bs: seq<Binding>, names: seq<string>, vs: seq<Value>, ts: seq<Ty>,
                                        root: Boxed, env: Env) returns (boxes: seq<Boxed>)
    requires Bound(data, bs, names, vs, ts, root)
    ensures HoldsEach(data, vs, ts, boxes) && |boxes| == |names|
    ensures BindEnv(env, bs, root) == Some(Extended(env, names, boxes))
    decreases |bs|
  {
    hide Holds, HasType, Read;
    if bs == [] {
      boxes := [];
    } else {
      assert ReadsAs(data, bs[0].at, root, vs[0], ts[0]);
      var v := Read(bs[0].at, root).value;
      forall i | 0 <= i < |bs[1..]| ensures ReadsAs(data, bs[1..][i].at, root, vs[1..][i], ts[1..][i]) {
        assert ReadsAs(data, bs[i + 1].at, root, vs[i + 1], ts[i + 1]);
      }
      var rest := BoundExtends(data, bs[1..], names[1..], vs[1..], ts[1..], root, env[bs[0].name := v]);
      boxes := [v] + rest;
      assert boxes[1..] == rest;
    }
  }

  /** In a value of its type that it matches, a pattern's names stand for the
      subvalues of the match. */
  lemma BindsTyped(data: Data, p: Pat, v: Value, t: Ty, r: Boxed, env: Env) returns (boxes: seq<Boxed>)
    requires WfData(data) && TagsOk(data) && Matches(p, v)
    requires PatTyped(data, p, t) && HasType(data, v, t) && Holds(data, v, t, r)
    ensures HoldsEach(data, BoundValues(p, v), BoundTypes(data, p, t), boxes) && |boxes| == |Names(p)|
    ensures Binds(p, Some(r), env) == Some(Extended(env, Names(p), boxes))
  {
    hide Holds, HasType, PatTyped, Matches, PatBind, Binds, BoundValues, BoundTypes, Bound, TagsOk, WfData;
    BindExact(data, p, Root, r, v, t, r);
    boxes := BoundExtends(data, PatBind(p, Root), Names(p), BoundValues(p, v), BoundTypes(data, p, t), r, env);
    DeclsBind(p, Root, r, env);
    BoundSize(data, PatBind(p, Root), Names(p), BoundValues(p, v), BoundTypes(data, p, t), r);
  }

  lemma BoundSize(data: Data, bs: seq<Binding>, names: seq<string>, vs: seq<Value>, ts: seq<Ty>, root: Boxed)
    requires Bound(data, bs, names, vs, ts, root)
    ensures |bs| == |names| == |vs| == |ts|
  {}

  // ---------------------------------------------------------------- the chain

  /** How the `if ... else if ... else vb_fail` a match compiles to ends. */
  datatype Outcome = Took(arm: nat) | Failed | Trapped

  function RunChain(data: Data, pats: seq<Pat>, root: Boxed, from: nat): Outcome
    requires from <= |pats|
    decreases |pats| - from
  {
    if from == |pats| then Failed
    else match RunTests(PatCond(data, pats[from], Root), root)
      case None => Trapped
      case Some(true) => Took(from)
      case Some(false) => RunChain(data, pats, root, from + 1)
  }

  /** The first arm that matches. */
  ghost predicate FirstMatch(pats: seq<Pat>, v: Value, i: nat) {
    i < |pats| && Matches(pats[i], v) && forall j :: 0 <= j < i ==> !Matches(pats[j], v)
  }

  predicate AllNulFree(pats: seq<Pat>) { forall i :: 0 <= i < |pats| ==> NulFree(pats[i]) }

  lemma {:induction false} ChainExact(data: Data, pats: seq<Pat>, t: Ty, v: Value, r: Boxed, from: nat)
    requires WfData(data) && TagsOk(data) && ArmsTyped(data, pats, t) && HasType(data, v, t) && Holds(data, v, t, r)
    requires from <= |pats| && (forall j :: 0 <= j < from ==> !Matches(pats[j], v)) && AllNulFree(pats)
    ensures var o := RunChain(data, pats, r, from);
            if o.Took? then FirstMatch(pats, v, o.arm)
            else o == Failed && forall j :: 0 <= j < |pats| ==> !Matches(pats[j], v)
    decreases |pats| - from
  {
    hide Holds, HasType, Matches, PatCond, RunTests, PatTyped, TagsOk, WfData, NulFree;
    if from < |pats| {
      CondExact(data, pats[from], Root, r, v, t, r);
      if !Matches(pats[from], v) {
        ChainExact(data, pats, t, v, r, from + 1);
      }
    }
  }

  /** A match the exhaustiveness check accepts takes the first arm that matches,
      on every value of the scrutinee's type, and never reaches `vb_fail`. */
  lemma AcceptedMatchNeverFails(data: Data, pats: seq<Pat>, t: Ty, v: Value, r: Boxed)
    requires WfData(data) && TagsOk(data) && ArmsTyped(data, pats, t) && HasType(data, v, t) && Holds(data, v, t, r)
    requires BoolsReserved(data) && AllShaped(data, Singles(pats), 1) && Accepts(data, pats) && AllNulFree(pats)
    ensures var o := RunChain(data, pats, r, 0);
            && o.Took? && FirstMatch(pats, v, o.arm)
            && Bound(data, PatBind(pats[o.arm], Root), Names(pats[o.arm]), BoundValues(pats[o.arm], v),
                     BoundTypes(data, pats[o.arm], t), r)
  {
    hide Holds, HasType, Matches, RunChain, Accepts, AllShaped, PatTyped, TagsOk, WfData, PatBind, BoundValues,
         BoundTypes, Bound;
    AcceptsIffCovers(data, pats, t);
    ChainExact(data, pats, t, v, r, 0);
    assert !Unmatched(data, pats, t, v);
    var o := RunChain(data, pats, r, 0);
    BindExact(data, pats[o.arm], Root, r, v, t, r);
  }

  /** One it rejects can reach `vb_fail`: on any value it misses, however boxed. */
  lemma RejectedMatchFails(data: Data, pats: seq<Pat>, t: Ty, v: Value, r: Boxed)
    requires WfData(data) && TagsOk(data) && ArmsTyped(data, pats, t) && Unmatched(data, pats, t, v)
    requires Holds(data, v, t, r)
    requires AllNulFree(pats)
    ensures RunChain(data, pats, r, 0) == Failed
  {
    hide Holds, HasType, Matches, RunChain, PatTyped, TagsOk, WfData;
    ChainExact(data, pats, t, v, r, 0);
  }
}
