/** Structural order, equality and hash of runtime values (runtime/vibert.c),
    on values without floats, pointers or closures. */
module Order {
  import opened Wrappers

  datatype Val =
    | UnitV
    | IntV(i: int)
    | UIntV(u: int)
    | BoolV(b: bool)
    | CharV(c: nat)
    | StrV(bytes: seq<nat>)
    /** a C string, or NULL */
    | CStrV(p: Option<seq<nat>>)
    | ObjV(tag: nat, fields: seq<Val>)
    | VecV(items: seq<Val>)
    /** by its vector of entries, each a key and a value */
    | DictV(entries: seq<Val>)

  const WORD: int := 0x1_0000_0000_0000_0000

  function Cmp3(x: int, y: int): int { if x > y then 1 else if x < y then -1 else 0 }

  // -------------------------------------------------------------- comparisons

  /** A value as a signed integer, where it is one. */
  function AsInt(v: Val): Option<int> {
    match v
    case IntV(i) => Some(i)
    case UIntV(u) => Some(if u < WORD / 2 then u else u - WORD)
    case BoolV(b) => Some(if b then 1 else 0)
    case CharV(c) => Some(c)
    case _ => None
  }

  function AsUInt(v: Val): Option<int> {
    if v.UIntV? then Some(v.u)
    else match AsInt(v) case None => None case Some(i) => Some(if i < 0 then i + WORD else i)
  }

  /** `memcmp` on the common length, then the lengths. */
  function CmpBytes(x: seq<nat>, y: seq<nat>): int {
    if x == [] || y == [] then Cmp3(|x|, |y|)
    else if x[0] != y[0] then Cmp3(x[0], y[0])
    else CmpBytes(x[1..], y[1..])
  }

  /** What a C string compares as: NULL is the empty one. */
  function Text(p: Option<seq<nat>>): seq<nat> { if p.Some? then p.value else [] }

  /** The order; nothing where the runtime stops on a tag. */
  function Cmp(a: Val, b: Val): Option<int>
    decreases a
  {
    if a.UnitV? && b.UnitV? then Some(0)
    else if a.DictV? && b.DictV? then CmpAll(a, a.entries, b.entries)
    else if a.ObjV? && b.ObjV? then
      if a.tag != b.tag then Some(Cmp3(a.tag, b.tag)) else CmpAll(a, a.fields, b.fields)
    else if a.VecV? && b.VecV? then CmpAll(a, a.items, b.items)
    else if a.CStrV? && b.CStrV? then Some(CmpBytes(Text(a.p), Text(b.p)))
    else if a.StrV? && b.StrV? then Some(CmpBytes(a.bytes, b.bytes))
    else if a.UIntV? || b.UIntV? then
      if AsUInt(a) == None || AsUInt(b) == None then None else Some(Cmp3(AsUInt(a).value, AsUInt(b).value))
    else if AsInt(a) == None || AsInt(b) == None then None
    else Some(Cmp3(AsInt(a).value, AsInt(b).value))
  }

  /** Element by element, then by length. */
  function CmpAll(parent: Val, xs: seq<Val>, ys: seq<Val>): Option<int>
    requires forall i :: 0 <= i < |xs| ==> xs[i] < parent
    decreases parent, |xs|
  {
    if xs == [] || ys == [] then Some(Cmp3(|xs|, |ys|))
    else
      match Cmp(xs[0], ys[0])
      case None => None
      case Some(c) => if c != 0 then Some(c) else CmpAll(parent, xs[1..], ys[1..])
  }

  /** Equality, which looks at lengths first. */
  function Eq(a: Val, b: Val): Option<bool>
    decreases a
  {
    if a.DictV? && b.DictV? then (if |a.entries| != |b.entries| then Some(false) else EqAll(a, a.entries, b.entries))
    else if a.StrV? && b.StrV? then Some(a.bytes == b.bytes)
    else if a.ObjV? && b.ObjV? then
      if a.tag != b.tag || |a.fields| != |b.fields| then Some(false) else EqAll(a, a.fields, b.fields)
    else if a.VecV? && b.VecV? then (if |a.items| != |b.items| then Some(false) else EqAll(a, a.items, b.items))
    else match Cmp(a, b) case None => None case Some(c) => Some(c == 0)
  }

  function EqAll(parent: Val, xs: seq<Val>, ys: seq<Val>): Option<bool>
    requires |xs| == |ys| && forall i :: 0 <= i < |xs| ==> xs[i] < parent
    decreases parent, |xs|
  {
    if xs == [] then Some(true)
    else
      match Eq(xs[0], ys[0])
      case Some(true) => EqAll(parent, xs[1..], ys[1..])
      case r => r
  }

  // -------------------------------------------------------------------- hashing

  /** Any mixing of a word into a state. */
  type Mix = (int, int) -> int

  /** At most eight bytes as a little-endian number. */
  function WordOf(bytes: seq<nat>): nat { if bytes == [] then 0 else bytes[0] + 256 * WordOf(bytes[1..]) }

  function HashBytes(mix: Mix, h: int, bytes: seq<nat>): int
    decreases |bytes|
  {
    if |bytes| >= 8 then HashBytes(mix, mix(h, WordOf(bytes[..8])), bytes[8..])
    else mix(h, WordOf(bytes) + |bytes| * 0x100_0000_0000_0000)
  }

  function Hash(mix: Mix, h: int, v: Val): int
    decreases v
  {
    match v
    case UnitV => h
    case StrV(s) => HashBytes(mix, h, s)
    case CStrV(p) => if p.Some? then HashBytes(mix, h, p.value) else h
    case ObjV(tag, fs) => HashAll(mix, mix(h, tag), v, fs)
    case VecV(xs) => mix(HashAll(mix, h, v, xs), |xs|)
    case DictV(es) => mix(HashAll(mix, h, v, es), |es|)
    case _ => mix(h, AsUInt(v).value)
  }

  function HashAll(mix: Mix, h: int, parent: Val, vs: seq<Val>): int
    requires forall i :: 0 <= i < |vs| ==> vs[i] < parent
    decreases parent, |vs|
  {
    if vs == [] then h else HashAll(mix, Hash(mix, h, vs[0]), parent, vs[1..])
  }

  // ------------------------------------------------------------- as the loops run

  method Compare(a: Val, b: Val) returns (r: Option<int>)
    ensures r == Cmp(a, b)
    decreases a, 1, 0
  {
    if a.UnitV? && b.UnitV? { return Some(0); }
    if a.DictV? && b.DictV? { r := CompareAll(a, a.entries, b.entries); return; }
    if a.ObjV? && b.ObjV? {
      if a.tag != b.tag { return Some(Cmp3(a.tag, b.tag)); }
      r := CompareAll(a, a.fields, b.fields);
      return;
    }
    if a.VecV? && b.VecV? { r := CompareAll(a, a.items, b.items); return; }
    if a.CStrV? && b.CStrV? { return Some(CmpBytes(Text(a.p), Text(b.p))); }
    if a.StrV? && b.StrV? { return Some(CmpBytes(a.bytes, b.bytes)); }
    if a.UIntV? || b.UIntV? {
      return if AsUInt(a) == None || AsUInt(b) == None then None else Some(Cmp3(AsUInt(a).value, AsUInt(b).value));
    }
    r := if AsInt(a) == None || AsInt(b) == None then None else Some(Cmp3(AsInt(a).value, AsInt(b).value));
  }

  method CompareAll(parent: Val, xs: seq<Val>, ys: seq<Val>) returns (r: Option<int>)
    requires forall i :: 0 <= i < |xs| ==> xs[i] < parent
    ensures r == CmpAll(parent, xs, ys)
    decreases parent, 0, 0
  {
    var i := 0;
    while i < |xs| && i < |ys|
      invariant 0 <= i <= |xs| && i <= |ys| && CmpAll(parent, xs[i..], ys[i..]) == CmpAll(parent, xs, ys)
    {
      assert xs[i..][1..] == xs[i + 1..] && ys[i..][1..] == ys[i + 1..];
      r := Compare(xs[i], ys[i]);
      if r != Some(0) { return; }
      i := i + 1;
    }
    r := Some(Cmp3(|xs|, |ys|));
  }

  method Equal(a: Val, b: Val) returns (r: Option<bool>)
    ensures r == Eq(a, b)
    decreases a, 1, 0
  {
    if a.DictV? && b.DictV? {
      if |a.entries| != |b.entries| { return Some(false); }
      r := EqualAll(a, a.entries, b.entries);
      return;
    }
    if a.StrV? && b.StrV? { return Some(a.bytes == b.bytes); }
    if a.ObjV? && b.ObjV? {
      if a.tag != b.tag || |a.fields| != |b.fields| { return Some(false); }
      r := EqualAll(a, a.fields, b.fields);
      return;
    }
    if a.VecV? && b.VecV? {
      if |a.items| != |b.items| { return Some(false); }
      r := EqualAll(a, a.items, b.items);
      return;
    }
    var c := Compare(a, b);
    r := if c == None then None else Some(c.value == 0);
  }

  method EqualAll(parent: Val, xs: seq<Val>, ys: seq<Val>) returns (r: Option<bool>)
    requires |xs| == |ys| && forall i :: 0 <= i < |xs| ==> xs[i] < parent
    ensures r == EqAll(parent, xs, ys)
    decreases parent, 0, 0
  {
    var i := 0;
    while i < |xs|
      invariant 0 <= i <= |xs| && EqAll(parent, xs[i..], ys[i..]) == EqAll(parent, xs, ys)
    {
      assert xs[i..][1..] == xs[i + 1..] && ys[i..][1..] == ys[i + 1..];
      r := Equal(xs[i], ys[i]);
      if r != Some(true) { return; }
      i := i + 1;
    }
    r := Some(true);
  }

  method HashOf(mix: Mix, h: int, v: Val) returns (r: int)
    ensures r == Hash(mix, h, v)
    decreases v, 1, 0
  {
    match v
    case UnitV => r := h;
    case StrV(s) => r := HashOfBytes(mix, h, s);
    case CStrV(p) => if p.Some? { r := HashOfBytes(mix, h, p.value); } else { r := h; }
    case ObjV(tag, fs) => r := HashOfAll(mix, mix(h, tag), v, fs);
    case VecV(xs) => r := HashOfAll(mix, h, v, xs); r := mix(r, |xs|);
    case DictV(es) => r := HashOfAll(mix, h, v, es); r := mix(r, |es|);
    case _ => r := mix(h, AsUInt(v).value);
  }

  method HashOfBytes(mix: Mix, h: int, bytes: seq<nat>) returns (r: int)
    ensures r == HashBytes(mix, h, bytes)
  {
    r := h;
    var i := 0;
    while |bytes| - i >= 8
      invariant 0 <= i <= |bytes| && HashBytes(mix, r, bytes[i..]) == HashBytes(mix, h, bytes)
    {
      assert bytes[i..][8..] == bytes[i + 8..] && bytes[i..][..8] == bytes[i..i + 8];
      r := mix(r, WordOf(bytes[i..i + 8]));
      i := i + 8;
    }
    r := mix(r, WordOf(bytes[i..]) + (|bytes| - i) * 0x100_0000_0000_0000);
  }

  method HashOfAll(mix: Mix, h: int, parent: Val, vs: seq<Val>) returns (r: int)
    requires forall i :: 0 <= i < |vs| ==> vs[i] < parent
    ensures r == HashAll(mix, h, parent, vs)
    decreases parent, 0, 0
  {
    r := h;
    var i := 0;
    while i < |vs|
      invariant 0 <= i <= |vs| && HashAll(mix, r, parent, vs[i..]) == HashAll(mix, h, parent, vs)
    {
      assert vs[i..][1..] == vs[i + 1..];
      r := HashOf(mix, r, vs[i]);
      i := i + 1;
    }
  }

  // ---------------------------------------------------------------- static types

  datatype Ty =
    | TUnit | TInt | TUInt | TBool | TChar | TStr | TCStr
    | TVec(el: Ty) | TDict(key: Ty, value: Ty) | TAdt(name: string)

  /** Each declared type's constructors, by the types of their fields; a tuple or
      a record is a type of one. */
  type Decls = map<string, seq<seq<Ty>>>

  /** The tag of a literal is signed whatever its type, so an unsigned type has
      values of both tags; arithmetic can take a signed one below zero, and that
      is no value of the type. */
  predicate HasTy(d: Decls, v: Val, t: Ty)
    decreases v
  {
    match v
    case UnitV => t == TUnit
    case IntV(i) => (t == TInt && -(WORD / 2) <= i < WORD / 2) || (t == TUInt && 0 <= i < WORD / 2)
    case UIntV(u) => t == TUInt && 0 <= u < WORD
    case BoolV(_) => t == TBool
    case CharV(c) => t == TChar && c < 0x1_0000_0000
    case StrV(s) => t == TStr
    case CStrV(p) => t == TCStr
    case VecV(xs) => t.TVec? && forall i :: 0 <= i < |xs| ==> HasTy(d, xs[i], t.el)
    case DictV(es) => t.TDict? && forall i :: 0 <= i < |es| ==> IsEntry(d, es[i], t.key, t.value)
    case ObjV(tag, fs) =>
      t.TAdt? && t.name in d && tag < |d[t.name]| && |d[t.name][tag]| == |fs|
      && forall i :: 0 <= i < |fs| ==> HasTy(d, fs[i], d[t.name][tag][i])
  }

  predicate IsEntry(d: Decls, v: Val, k: Ty, x: Ty)
    decreases v, 0
  {
    v.ObjV? && v.tag == 0 && |v.fields| == 2 && HasTy(d, v.fields[0], k) && HasTy(d, v.fields[1], x)
  }

  /** Of one type: what the laws below are about, closed under taking parts. */
  ghost predicate Alike(a: Val, b: Val)
    decreases a
  {
    match a
    case VecV(xs) => b.VecV? && AlikeAll(a, xs, b.items)
    case DictV(es) => b.DictV? && AlikeAll(a, es, b.entries)
    case ObjV(tag, fs) => b.ObjV? && (tag == b.tag ==> |fs| == |b.fields| && AlikeAll(a, fs, b.fields))
    case UnitV => b.UnitV?
    case IntV(i) => b.IntV? || (b.UIntV? && 0 <= i < WORD / 2)
    case UIntV(_) => b.UIntV? || (b.IntV? && 0 <= b.i < WORD / 2)
    case BoolV(_) => b.BoolV?
    case CharV(_) => b.CharV?
    case StrV(_) => b.StrV?
    case CStrV(_) => b.CStrV?
  }

  ghost predicate AlikeAll(parent: Val, xs: seq<Val>, ys: seq<Val>)
    requires forall i :: 0 <= i < |xs| ==> xs[i] < parent
    decreases parent, 0
  {
    forall i :: 0 <= i < |xs| && i < |ys| ==> Alike(xs[i], ys[i])
  }

  /** Two values of one type are alike. */
  lemma {:induction false} TypedAlike(d: Decls, a: Val, b: Val, t: Ty)
    requires HasTy(d, a, t) && HasTy(d, b, t)
    ensures Alike(a, b)
    decreases a
  {
    match a
    case VecV(xs) =>
      forall i | 0 <= i < |xs| && i < |b.items|
        ensures Alike(xs[i], b.items[i])
      {
        TypedAlike(d, xs[i], b.items[i], t.el);
      }
    case DictV(es) =>
      forall i | 0 <= i < |es| && i < |b.entries| ensures Alike(es[i], b.entries[i]) {
        EntriesAlike(d, es[i], b.entries[i], t.key, t.value);
      }
    case ObjV(tag, fs) =>
      if tag == b.tag {
        forall i | 0 <= i < |fs| && i < |b.fields| ensures Alike(fs[i], b.fields[i]) {
          TypedAlike(d, fs[i], b.fields[i], d[t.name][tag][i]);
        }
      }
    case _ =>
  }

  lemma {:induction false} EntriesAlike(d: Decls, a: Val, b: Val, k: Ty, x: Ty)
    requires IsEntry(d, a, k, x) && IsEntry(d, b, k, x)
    ensures Alike(a, b)
    decreases a, 0
  {
    TypedAlike(d, a.fields[0], b.fields[0], k);
    TypedAlike(d, a.fields[1], b.fields[1], x);
  }

  // ----------------------------------------------------------------- a total order

  lemma {:induction false} BytesOrder(x: seq<nat>, y: seq<nat>)
    ensures CmpBytes(x, y) == -CmpBytes(y, x) && -1 <= CmpBytes(x, y) <= 1 && (CmpBytes(x, y) == 0 <==> x == y)
  {
    if x != [] && y != [] && x[0] == y[0] {
      BytesOrder(x[1..], y[1..]);
      assert x == [x[0]] + x[1..] && y == [y[0]] + y[1..];
    }
  }

  lemma {:induction false} BytesTransitive(x: seq<nat>, y: seq<nat>, z: seq<nat>)
    requires CmpBytes(x, y) <= 0 && CmpBytes(y, z) <= 0
    ensures CmpBytes(x, z) <= 0 && (CmpBytes(x, z) == 0 ==> CmpBytes(x, y) == 0 && CmpBytes(y, z) == 0)
  {
    if x != [] && y != [] && z != [] && x[0] == y[0] == z[0] { BytesTransitive(x[1..], y[1..], z[1..]); }
  }

  /** Comparing never stops, gives -1, 0 or 1, and its opposite the other way. */
  lemma {:induction false} CmpAntisymmetric(a: Val, b: Val)
    requires Alike(a, b)
    ensures Cmp(a, b).Some? && Cmp(b, a).Some? && Cmp(a, b).value == -Cmp(b, a).value && -1 <= Cmp(a, b).value <= 1
    decreases a
  {
    match a
    case VecV(xs) => AllAntisymmetric(a, b, xs, b.items);
    case DictV(es) => AllAntisymmetric(a, b, es, b.entries);
    case ObjV(tag, fs) => if tag == b.tag { AllAntisymmetric(a, b, fs, b.fields); }
    case StrV(s) => BytesOrder(s, b.bytes);
    case CStrV(p) => BytesOrder(Text(p), Text(b.p));
    case _ =>
  }

  lemma {:induction false} AllAntisymmetric(a: Val, b: Val, xs: seq<Val>, ys: seq<Val>)
    requires (forall i :: 0 <= i < |xs| ==> xs[i] < a) && (forall i :: 0 <= i < |ys| ==> ys[i] < b)
    requires AlikeAll(a, xs, ys)
    ensures CmpAll(a, xs, ys).Some? && CmpAll(b, ys, xs).Some?
    ensures CmpAll(a, xs, ys).value == -CmpAll(b, ys, xs).value && -1 <= CmpAll(a, xs, ys).value <= 1
    decreases a, |xs|
  {
    hide Cmp, Alike;
    if xs != [] && ys != [] {
      CmpAntisymmetric(xs[0], ys[0]);
      assert forall i :: 0 <= i < |xs[1..]| ==> xs[1..][i] == xs[i + 1];
      assert forall i :: 0 <= i < |ys[1..]| ==> ys[1..][i] == ys[i + 1];
      AllAntisymmetric(a, b, xs[1..], ys[1..]);
    }
  }

  ghost predicate Steps(ab: Option<int>, bc: Option<int>, ac: Option<int>) {
    ab.Some? && bc.Some? && ac.Some?
    && (ab.value <= 0 && bc.value <= 0 ==> ac.value <= 0 && (ac.value == 0 ==> ab.value == 0 && bc.value == 0))
  }

  /** Where the constructors already differ the fields are never looked at. */
  lemma TagsTransitive(a: Val, b: Val, c: Val)
    requires a.ObjV? && b.ObjV? && c.ObjV? && !(a.tag == b.tag == c.tag)
    requires Cmp(a, b).Some? && Cmp(b, c).Some? && Cmp(a, c).Some?
    ensures Steps(Cmp(a, b), Cmp(b, c), Cmp(a, c))
  {
    hide CmpAll;
    if a.tag != b.tag { assert Cmp(a, b) == Some(Cmp3(a.tag, b.tag)); }
    if b.tag != c.tag { assert Cmp(b, c) == Some(Cmp3(b.tag, c.tag)); }
    if a.tag != c.tag { assert Cmp(a, c) == Some(Cmp3(a.tag, c.tag)); }
  }

  /** The order is transitive, and strictly so unless all three are equal. */
  lemma {:induction false} CmpTransitive(a: Val, b: Val, c: Val)
    requires Alike(a, b) && Alike(b, c) && Alike(a, c)
    ensures Steps(Cmp(a, b), Cmp(b, c), Cmp(a, c))
    decreases a
  {
    match a
    case VecV(xs) => AllTransitive(a, b, xs, b.items, c.items);
    case DictV(es) => AllTransitive(a, b, es, b.entries, c.entries);
    case ObjV(tag, fs) =>
      if tag == b.tag == c.tag {
        AllTransitive(a, b, fs, b.fields, c.fields);
      } else {
        CmpAntisymmetric(a, b);
        CmpAntisymmetric(b, c);
        CmpAntisymmetric(a, c);
        TagsTransitive(a, b, c);
      }
    case StrV(s) =>
      if CmpBytes(s, b.bytes) <= 0 && CmpBytes(b.bytes, c.bytes) <= 0 {
        BytesTransitive(s, b.bytes, c.bytes);
      }
    case CStrV(p) =>
      if CmpBytes(Text(p), Text(b.p)) <= 0 && CmpBytes(Text(b.p), Text(c.p)) <= 0 {
        BytesTransitive(Text(p), Text(b.p), Text(c.p));
      }
    case _ =>
  }

  lemma {:induction false} AllTransitive(a: Val, b: Val, xs: seq<Val>, ys: seq<Val>, zs: seq<Val>)
    requires (forall i :: 0 <= i < |xs| ==> xs[i] < a) && (forall i :: 0 <= i < |ys| ==> ys[i] < b)
    requires AlikeAll(a, xs, ys) && AlikeAll(b, ys, zs) && AlikeAll(a, xs, zs)
    ensures Steps(CmpAll(a, xs, ys), CmpAll(b, ys, zs), CmpAll(a, xs, zs))
    decreases a, |xs|
  {
    hide Cmp, Alike;
    if xs != [] { AllSome(a, xs, ys); AllSome(a, xs, zs); }
    AllSome(b, ys, zs);
    if xs != [] && ys != [] && zs != [] {
      CmpTransitive(xs[0], ys[0], zs[0]);
      assert forall i :: 0 <= i < |xs[1..]| ==> xs[1..][i] == xs[i + 1];
      assert forall i :: 0 <= i < |ys[1..]| ==> ys[1..][i] == ys[i + 1];
      assert forall i :: 0 <= i < |zs[1..]| ==> zs[1..][i] == zs[i + 1];
      AllTransitive(a, b, xs[1..], ys[1..], zs[1..]);
    }
  }

  lemma {:induction false} AllSome(a: Val, xs: seq<Val>, ys: seq<Val>)
    requires (forall i :: 0 <= i < |xs| ==> xs[i] < a) && AlikeAll(a, xs, ys)
    ensures CmpAll(a, xs, ys).Some?
    decreases |xs|
  {
    hide Cmp, Alike;
    if xs != [] && ys != [] {
      CmpAntisymmetric(xs[0], ys[0]);
      assert forall i :: 0 <= i < |xs[1..]| ==> xs[1..][i] == xs[i + 1];
      assert forall i :: 0 <= i < |ys[1..]| ==> ys[1..][i] == ys[i + 1];
      AllSome(a, xs[1..], ys[1..]);
    }
  }

  // -------------------------------------------------------- equality is order zero

  lemma {:induction false} EqIffCmp(a: Val, b: Val)
    requires Alike(a, b)
    ensures Cmp(a, b).Some? && Eq(a, b) == Some(Cmp(a, b).value == 0)
    decreases a
  {
    CmpAntisymmetric(a, b);
    match a
    case VecV(xs) => AllEqIffCmp(a, xs, b.items);
    case DictV(es) => AllEqIffCmp(a, es, b.entries);
    case ObjV(tag, fs) => if tag == b.tag { AllEqIffCmp(a, fs, b.fields); }
    case StrV(s) => BytesOrder(s, b.bytes);
    case _ =>
  }

  lemma {:induction false} AllEqIffCmp(a: Val, xs: seq<Val>, ys: seq<Val>)
    requires (forall i :: 0 <= i < |xs| ==> xs[i] < a) && AlikeAll(a, xs, ys)
    ensures CmpAll(a, xs, ys).Some?
    ensures |xs| != |ys| ==> CmpAll(a, xs, ys).value != 0
    ensures |xs| == |ys| ==> EqAll(a, xs, ys) == Some(CmpAll(a, xs, ys).value == 0)
    decreases a, |xs|
  {
    hide Cmp, Eq, Alike;
    if xs != [] && ys != [] {
      EqIffCmp(xs[0], ys[0]);
      assert forall i :: 0 <= i < |xs[1..]| ==> xs[1..][i] == xs[i + 1];
      assert forall i :: 0 <= i < |ys[1..]| ==> ys[1..][i] == ys[i + 1];
      AllEqIffCmp(a, xs[1..], ys[1..]);
    }
  }

  /** On the values of one type the comparison is a total order, and equality is
      its zero. */
  lemma TotalOrder(d: Decls, a: Val, b: Val, c: Val, t: Ty)
    requires HasTy(d, a, t) && HasTy(d, b, t) && HasTy(d, c, t)
    ensures Cmp(a, b).Some? && Cmp(b, a) == Some(-Cmp(a, b).value) && -1 <= Cmp(a, b).value <= 1
    ensures Steps(Cmp(a, b), Cmp(b, c), Cmp(a, c))
    ensures Eq(a, b) == Some(Cmp(a, b) == Some(0))
  {
    hide Cmp, Eq, HasTy, Alike;
    TypedAlike(d, a, b, t);
    TypedAlike(d, b, c, t);
    TypedAlike(d, a, c, t);
    CmpAntisymmetric(a, b);
    CmpTransitive(a, b, c);
    EqIffCmp(a, b);
  }

  /** Signed and unsigned words together are in order exactly where the signed one
      is no negative: -2 < 5 < 10u < -2. */
  lemma MixedOrderIff(i: int)
    requires -(WORD / 2) <= i < WORD / 2
    ensures i >= 0 <==>
      forall j, u :: 0 <= j < WORD / 2 && 0 <= u < WORD ==>
        Steps(Cmp(IntV(i), IntV(j)), Cmp(IntV(j), UIntV(u)), Cmp(IntV(i), UIntV(u)))
    ensures forall j, u :: i < 0 <= j < u < WORD / 2 ==> Cycle(IntV(i), IntV(j), UIntV(u))
  {
    if i < 0 {
      assert Cmp(IntV(i), IntV(0)) == Some(-1) && Cmp(IntV(0), UIntV(1)) == Some(-1)
             && Cmp(IntV(i), UIntV(1)) == Some(1);
      assert !Steps(Cmp(IntV(i), IntV(0)), Cmp(IntV(0), UIntV(1)), Cmp(IntV(i), UIntV(1)));
    }
  }

  predicate Cycle(a: Val, b: Val, c: Val) { Cmp(a, b) == Some(-1) && Cmp(b, c) == Some(-1) && Cmp(c, a) == Some(-1) }

  // ------------------------------------------------------ which order it is

  /** Dictionary order on bytes: a proper prefix comes first, and so does the smaller
      byte at the first place where two strings differ. */
  ghost predicate BytesBelow(x: seq<nat>, y: seq<nat>) {
    x < y || exists k :: 0 <= k < |x| && k < |y| && x[..k] == y[..k] && x[k] < y[k]
  }

  lemma SamePrefix(x: seq<nat>, y: seq<nat>, k: nat)
    requires k <= |x| && k <= |y| && x[..k] == y[..k]
    ensures forall i :: 0 <= i < k ==> x[i] == y[i]
  {
    forall i | 0 <= i < k ensures x[i] == y[i] { assert x[..k][i] == y[..k][i]; }
  }

  lemma FirstDecides(x: seq<nat>, y: seq<nat>)
    requires x != [] && y != [] && x[0] != y[0] && BytesBelow(x, y)
    ensures x[0] < y[0]
  {
    if !(x < y) {
      var k :| 0 <= k < |x| && k < |y| && x[..k] == y[..k] && x[k] < y[k];
      SamePrefix(x, y, k);
    }
  }

  lemma {:induction false} BytesLexicographic(x: seq<nat>, y: seq<nat>)
    ensures CmpBytes(x, y) == -1 <==> BytesBelow(x, y)
  {
    if x == [] || y == [] {
    } else if x[0] != y[0] {
      if x[0] < y[0] { assert x[..0] == y[..0]; }
      if BytesBelow(x, y) { FirstDecides(x, y); }
    } else {
      BytesLexicographic(x[1..], y[1..]);
      assert x == [x[0]] + x[1..] && y == [x[0]] + y[1..];
      if x[1..] < y[1..] { assert x < y; }
      if x < y { assert x[1..] < y[1..]; }
      if k :| 0 <= k < |x[1..]| && k < |y[1..]| && x[1..][..k] == y[1..][..k] && x[1..][k] < y[1..][k] {
        assert x[..k + 1] == [x[0]] + x[1..][..k] && y[..k + 1] == [x[0]] + y[1..][..k];
        assert x[k + 1] < y[k + 1];
      }
      if k :| 0 <= k < |x| && k < |y| && x[..k] == y[..k] && x[k] < y[k] {
        assert x[1..][..k - 1] == x[..k][1..] && y[1..][..k - 1] == y[..k][1..];
        assert x[1..][k - 1] < y[1..][k - 1];
      }
    }
  }

  /** The same on values, by the order of the values themselves. */
  ghost predicate ValuesBelow(xs: seq<Val>, ys: seq<Val>) {
    exists k :: 0 <= k <= |xs| && k < |ys| && SameTo(xs, ys, k) && (k < |xs| ==> Cmp(xs[k], ys[k]) == Some(-1))
  }

  ghost predicate SameTo(xs: seq<Val>, ys: seq<Val>, k: nat)
    requires k <= |xs| && k <= |ys|
  {
    forall i :: 0 <= i < k ==> Cmp(xs[i], ys[i]) == Some(0)
  }

  lemma {:induction false} AllLexicographic(a: Val, xs: seq<Val>, ys: seq<Val>)
    requires (forall i :: 0 <= i < |xs| ==> xs[i] < a) && AlikeAll(a, xs, ys)
    ensures CmpAll(a, xs, ys) == Some(-1) <==> ValuesBelow(xs, ys)
    decreases |xs|
  {
    hide Cmp, Alike;
    if xs == [] {
      if ys != [] { assert SameTo(xs, ys, 0); }
    } else if ys != [] {
      CmpAntisymmetric(xs[0], ys[0]);
      assert forall i :: 0 <= i < |xs[1..]| ==> xs[1..][i] == xs[i + 1];
      assert forall i :: 0 <= i < |ys[1..]| ==> ys[1..][i] == ys[i + 1];
      AllLexicographic(a, xs[1..], ys[1..]);
      if Cmp(xs[0], ys[0]) == Some(0) {
        if k :| 0 <= k <= |xs[1..]| && k < |ys[1..]| && SameTo(xs[1..], ys[1..], k)
                && (k < |xs[1..]| ==> Cmp(xs[1..][k], ys[1..][k]) == Some(-1)) {
          assert forall i :: 1 <= i < k + 1 ==> xs[i] == xs[1..][i - 1] && ys[i] == ys[1..][i - 1];
          assert SameTo(xs, ys, k + 1);
        }
        if k :| 0 <= k <= |xs| && k < |ys| && SameTo(xs, ys, k) && (k < |xs| ==> Cmp(xs[k], ys[k]) == Some(-1)) {
          assert k > 0;
          assert SameTo(xs[1..], ys[1..], k - 1);
        }
      } else {
        if Cmp(xs[0], ys[0]) == Some(-1) { assert SameTo(xs, ys, 0); }
        if k :| 0 <= k <= |xs| && k < |ys| && SameTo(xs, ys, k) && (k < |xs| ==> Cmp(xs[k], ys[k]) == Some(-1)) {
          assert k == 0;
        }
      }
    }
  }

  /** What comes before what: numbers by size, False before True, strings in
      dictionary order, vectors and dictionaries likewise by their elements, and a
      variant by its constructor's position and then by its fields. */
  ghost predicate Below(a: Val, b: Val) {
    match (a, b)
    case (IntV(i), IntV(j)) => i < j
    case (UIntV(i), UIntV(j)) => i < j
    case (IntV(i), UIntV(j)) => i < j
    case (UIntV(i), IntV(j)) => i < j
    case (BoolV(p), BoolV(q)) => !p && q
    case (CharV(c), CharV(d)) => c < d
    case (StrV(x), StrV(y)) => BytesBelow(x, y)
    case (CStrV(x), CStrV(y)) => BytesBelow(Text(x), Text(y))
    case (VecV(xs), VecV(ys)) => ValuesBelow(xs, ys)
    case (DictV(xs), DictV(ys)) => ValuesBelow(xs, ys)
    case (ObjV(s, xs), ObjV(t, ys)) => s < t || (s == t && ValuesBelow(xs, ys))
    case _ => false
  }

  lemma OrderIs(d: Decls, a: Val, b: Val, t: Ty)
    requires HasTy(d, a, t) && HasTy(d, b, t)
    ensures Cmp(a, b) == Some(-1) <==> Below(a, b)
  {
    hide HasTy, ValuesBelow, BytesBelow, AlikeAll;
    TypedAlike(d, a, b, t);
    match a
    case VecV(xs) => AllLexicographic(a, xs, b.items);
    case DictV(es) => AllLexicographic(a, es, b.entries);
    case ObjV(tag, fs) => if tag == b.tag { AllLexicographic(a, fs, b.fields); }
    case StrV(s) => BytesLexicographic(s, b.bytes);
    case CStrV(p) => BytesLexicographic(Text(p), Text(b.p));
    case _ =>
  }

  // -------------------------------------------------- equal values, equal hashes

  /** `v` with its empty C strings NULL and its tags unsigned where they can be. */
  function Canon(v: Val): Val
    decreases v
  {
    match v
    case IntV(i) => if i >= 0 then UIntV(i) else v
    case CStrV(p) => if Text(p) == [] then CStrV(None) else v
    case ObjV(tag, fs) => ObjV(tag, seq(|fs|, i requires 0 <= i < |fs| => Canon(fs[i])))
    case VecV(xs) => VecV(seq(|xs|, i requires 0 <= i < |xs| => Canon(xs[i])))
    case DictV(es) => DictV(seq(|es|, i requires 0 <= i < |es| => Canon(es[i])))
    case _ => v
  }

  /** The values inside a value. */
  function Parts(v: Val): seq<Val> {
    match v
    case ObjV(_, fs) => fs
    case VecV(xs) => xs
    case DictV(es) => es
    case _ => []
  }

  /** A NULL or an empty C string somewhere inside. */
  predicate Blank(v: Val)
    decreases v
  {
    (v.CStrV? && Text(v.p) == []) || exists i :: 0 <= i < |Parts(v)| && Blank(Parts(v)[i])
  }

  lemma CanonParts(v: Val)
    ensures |Parts(Canon(v))| == |Parts(v)|
    ensures forall i :: 0 <= i < |Parts(v)| ==> Parts(Canon(v))[i] == Canon(Parts(v)[i])
  {
  }

  /** Two values of one type are equal exactly when they differ only in which of
      their empty C strings are NULL and which of their numbers are tagged signed. */
  lemma {:induction false} EqUpToNull(a: Val, b: Val)
    requires Alike(a, b)
    ensures Eq(a, b) == Some(Canon(a) == Canon(b))
    decreases a
  {
    EqIffCmp(a, b);
    CanonParts(a);
    CanonParts(b);
    match a
    case VecV(xs) => if |xs| == |b.items| { AllEqUpToNull(a, xs, b.items); PartsDecide(a, b); }
    case DictV(es) => if |es| == |b.entries| { AllEqUpToNull(a, es, b.entries); PartsDecide(a, b); }
    case ObjV(tag, fs) => if tag == b.tag { AllEqUpToNull(a, fs, b.fields); PartsDecide(a, b); }
    case CStrV(p) => BytesOrder(Text(p), Text(b.p));
    case _ =>
  }

  ghost predicate CanonAlike(xs: seq<Val>, ys: seq<Val>)
    requires |xs| == |ys|
  {
    forall i :: 0 <= i < |xs| ==> Canon(xs[i]) == Canon(ys[i])
  }

  /** Compound values have one canonical form exactly when their parts do. */
  lemma PartsDecide(a: Val, b: Val)
    requires (a.VecV? && b.VecV?) || (a.DictV? && b.DictV?) || (a.ObjV? && b.ObjV? && a.tag == b.tag)
    requires |Parts(a)| == |Parts(b)|
    ensures Canon(a) == Canon(b) <==> CanonAlike(Parts(a), Parts(b))
  {
    CanonParts(a);
    CanonParts(b);
    var x, y := Canon(a), Canon(b);
    if CanonAlike(Parts(a), Parts(b)) {
      assert Parts(x) == Parts(y);
    } else {
      var i :| 0 <= i < |Parts(a)| && Canon(Parts(a)[i]) != Canon(Parts(b)[i]);
      assert Parts(x)[i] != Parts(y)[i];
    }
  }

  lemma {:induction false} AllEqUpToNull(a: Val, xs: seq<Val>, ys: seq<Val>)
    requires (forall i :: 0 <= i < |xs| ==> xs[i] < a) && |xs| == |ys| && AlikeAll(a, xs, ys)
    ensures EqAll(a, xs, ys) == Some(CanonAlike(xs, ys))
    decreases a, |xs|
  {
    hide Cmp, Eq, Alike, Canon;
    if xs != [] {
      EqUpToNull(xs[0], ys[0]);
      assert forall i :: 0 <= i < |xs[1..]| ==> xs[1..][i] == xs[i + 1];
      assert forall i :: 0 <= i < |ys[1..]| ==> ys[1..][i] == ys[i + 1];
      AllEqUpToNull(a, xs[1..], ys[1..]);
      CanonTail(xs, ys);
    }
  }

  lemma CanonTail(xs: seq<Val>, ys: seq<Val>)
    requires |xs| == |ys| && xs != []
    ensures CanonAlike(xs, ys) <==> Canon(xs[0]) == Canon(ys[0]) && CanonAlike(xs[1..], ys[1..])
  {
    hide Canon;
    if CanonAlike(xs[1..], ys[1..]) {
      forall i | 1 <= i < |xs| ensures Canon(xs[i]) == Canon(ys[i]) {
        assert Canon(xs[1..][i - 1]) == Canon(ys[1..][i - 1]);
      }
    }
  }

  /** Without a blank C string, the canonical form hashes as the value does. */
  lemma {:induction false} CanonHash(mix: Mix, h: int, v: Val)
    requires !Blank(v)
    ensures Hash(mix, h, Canon(v)) == Hash(mix, h, v)
    decreases v
  {
    var w := Canon(v);
    CanonParts(v);
    assert forall i :: 0 <= i < |Parts(v)| ==> !Blank(Parts(v)[i]);
    match v
    case ObjV(tag, fs) => AllCanonHash(mix, mix(h, tag), v, fs, w, w.fields);
    case VecV(xs) => AllCanonHash(mix, h, v, xs, w, w.items);
    case DictV(es) => AllCanonHash(mix, h, v, es, w, w.entries);
    case _ =>
  }

  lemma {:induction false} AllCanonHash(mix: Mix, h: int, v: Val, vs: seq<Val>, w: Val, ws: seq<Val>)
    requires |vs| == |ws|
    requires forall i :: 0 <= i < |vs| ==> vs[i] < v && ws[i] < w && ws[i] == Canon(vs[i]) && !Blank(vs[i])
    ensures HashAll(mix, h, w, ws) == HashAll(mix, h, v, vs)
    decreases v, |vs|
  {
    hide Canon, Hash, Blank;
    if vs != [] {
      CanonHash(mix, h, vs[0]);
      assert forall i :: 0 <= i < |vs[1..]| ==> vs[1..][i] == vs[i + 1] && ws[1..][i] == ws[i + 1];
      AllCanonHash(mix, Hash(mix, h, vs[0]), v, vs[1..], w, ws[1..]);
    }
  }

  /** Equal values of one type have blanks in the same places. */
  lemma {:induction false} CanonBlank(v: Val)
    ensures Blank(Canon(v)) == Blank(v)
    decreases v
  {
    CanonParts(v);
    var w := Canon(v);
    forall i | 0 <= i < |Parts(v)| ensures Blank(Parts(w)[i]) == Blank(Parts(v)[i]) { CanonBlank(Parts(v)[i]); }
  }

  // --------------------------------------------------------- what a string mixes in

  /** The words that hashing a string mixes in. */
  function WordsOf(bytes: seq<nat>): seq<nat>
    decreases |bytes|
  {
    if |bytes| >= 8 then [WordOf(bytes[..8])] + WordsOf(bytes[8..])
    else [WordOf(bytes) + |bytes| * 0x100_0000_0000_0000]
  }

  function MixAll(mix: Mix, h: int, words: seq<nat>): int
    decreases |words|
  {
    if words == [] then h else MixAll(mix, mix(h, words[0]), words[1..])
  }

  lemma {:induction false} HashMixesWords(mix: Mix, h: int, bytes: seq<nat>)
    ensures HashBytes(mix, h, bytes) == MixAll(mix, h, WordsOf(bytes))
    decreases |bytes|
  {
    var ws := WordsOf(bytes);
    if |bytes| >= 8 {
      assert ws[1..] == WordsOf(bytes[8..]);
      HashMixesWords(mix, mix(h, ws[0]), bytes[8..]);
    } else {
      assert ws[1..] == [];
    }
  }

  function Pow256(n: nat): nat { if n == 0 then 1 else 256 * Pow256(n - 1) }

  predicate Bytes(s: seq<nat>) { forall i :: 0 <= i < |s| ==> s[i] < 256 }

  lemma {:induction false} WordBelow(s: seq<nat>)
    requires Bytes(s)
    ensures WordOf(s) < Pow256(|s|)
  {
    if s != [] { WordBelow(s[1..]); }
  }

  lemma {:induction false} WordDecides(s: seq<nat>, t: seq<nat>)
    requires Bytes(s) && Bytes(t) && |s| == |t| && WordOf(s) == WordOf(t)
    ensures s == t
  {
    if s != [] {
      WordDecides(s[1..], t[1..]);
      assert s == [s[0]] + s[1..] && t == [t[0]] + t[1..];
    }
  }

  lemma {:induction false} Pow256Grows(m: nat, n: nat)
    requires m <= n
    ensures Pow256(m) <= Pow256(n)
    decreases n - m
  {
    if m < n { Pow256Grows(m + 1, n); }
  }

  /** No two strings mix in the same words: nothing of a string is left out. */
  lemma {:induction false} WordsDecide(s: seq<nat>, t: seq<nat>)
    requires Bytes(s) && Bytes(t) && WordsOf(s) == WordsOf(t)
    ensures s == t
    decreases |s|
  {
    var a, b := WordsOf(s), WordsOf(t);
    if |s| >= 8 && |t| >= 8 {
      assert a[1..] == WordsOf(s[8..]) && b[1..] == WordsOf(t[8..]);
      WordsDecide(s[8..], t[8..]);
      WordDecides(s[..8], t[..8]);
      assert s == s[..8] + s[8..] && t == t[..8] + t[8..];
    } else if |s| < 8 && |t| < 8 {
      Small(s);
      Small(t);
      WordDecides(s, t);
    } else {
      WordsMany(s);
      WordsMany(t);
    }
  }

  lemma Small(s: seq<nat>)
    requires Bytes(s) && |s| < 8
    ensures WordOf(s) < 0x100_0000_0000_0000
  {
    WordBelow(s);
    Pow256Grows(|s|, 7);
    assert Pow256(7) == 0x100_0000_0000_0000;
  }

  lemma {:induction false} WordsMany(s: seq<nat>)
    ensures |WordsOf(s)| == |s| / 8 + 1
    decreases |s|
  {
    if |s| >= 8 { WordsMany(s[8..]); }
  }

  // ------------------------------------------------------------ where hashes part

  /** `v` with its first blank the other way: NULL for empty, or empty for NULL. */
  function Flipped(v: Val): Val
    decreases v, 1
  {
    match v
    case CStrV(p) => if p == None then CStrV(Some([])) else CStrV(None)
    case ObjV(tag, fs) => ObjV(tag, FlippedIn(v, fs))
    case VecV(xs) => VecV(FlippedIn(v, xs))
    case DictV(es) => DictV(FlippedIn(v, es))
    case _ => v
  }

  function FlippedIn(parent: Val, vs: seq<Val>): (r: seq<Val>)
    requires forall i :: 0 <= i < |vs| ==> vs[i] < parent
    ensures |r| == |vs|
    decreases parent, 0, |vs|
  {
    if vs == [] then []
    else if Blank(vs[0]) then [Flipped(vs[0])] + vs[1..]
    else [vs[0]] + FlippedIn(parent, vs[1..])
  }

  lemma {:induction false} FlippedAt(parent: Val, vs: seq<Val>, i: nat)
    requires (forall k :: 0 <= k < |vs| ==> vs[k] < parent) && i < |vs|
    ensures var w := FlippedIn(parent, vs)[i]; w == vs[i] || (Blank(vs[i]) && w == Flipped(vs[i]))
    decreases |vs|
  {
    hide Flipped, Blank;
    if i > 0 && !Blank(vs[0]) { FlippedAt(parent, vs[1..], i - 1); }
  }

  lemma {:induction false} FlippedCanon(v: Val)
    requires Blank(v)
    ensures Canon(Flipped(v)) == Canon(v)
    decreases v
  {
    var w := Flipped(v);
    if v.CStrV? {
    } else {
      forall i | 0 <= i < |Parts(v)| ensures Canon(Parts(w)[i]) == Canon(Parts(v)[i]) {
        FlippedAt(v, Parts(v), i);
        if Parts(w)[i] != Parts(v)[i] { FlippedCanon(Parts(v)[i]); }
      }
      PartsDecide(w, v);
    }
  }

  lemma {:induction false} FlippedTyped(d: Decls, v: Val, t: Ty)
    requires HasTy(d, v, t) && Blank(v)
    ensures HasTy(d, Flipped(v), t)
    decreases v, 1
  {
    match v
    case VecV(xs) =>
      forall i | 0 <= i < |xs| ensures HasTy(d, FlippedIn(v, xs)[i], t.el) {
        FlippedAt(v, xs, i);
        if Blank(xs[i]) { FlippedTyped(d, xs[i], t.el); }
      }
    case DictV(es) =>
      forall i | 0 <= i < |es| ensures IsEntry(d, FlippedIn(v, es)[i], t.key, t.value) {
        FlippedAt(v, es, i);
        if Blank(es[i]) { FlippedEntry(d, es[i], t.key, t.value); }
      }
    case ObjV(tag, fs) =>
      forall i | 0 <= i < |fs| ensures HasTy(d, FlippedIn(v, fs)[i], d[t.name][tag][i]) {
        FlippedAt(v, fs, i);
        if Blank(fs[i]) { FlippedTyped(d, fs[i], d[t.name][tag][i]); }
      }
    case _ =>
  }

  lemma FlippedObj(v: Val)
    requires v.ObjV?
    ensures Flipped(v) == ObjV(v.tag, FlippedIn(v, v.fields))
  {}

  lemma {:induction false} FlippedEntry(d: Decls, v: Val, k: Ty, x: Ty)
    requires IsEntry(d, v, k, x) && Blank(v)
    ensures IsEntry(d, Flipped(v), k, x)
    decreases v, 0
  {
    hide HasTy, Blank, Flipped, FlippedIn;
    FlippedObj(v);
    FlippedAt(v, v.fields, 0);
    FlippedAt(v, v.fields, 1);
    if Blank(v.fields[0]) { FlippedTyped(d, v.fields[0], k); }
    if Blank(v.fields[1]) { FlippedTyped(d, v.fields[1], x); }
  }

  /** A mixing that loses nothing of the state, and that a zero word changes. */
  ghost predicate Lossless(mix: Mix) {
    (forall h, k, x :: mix(h, x) == mix(k, x) ==> h == k) && forall h :: mix(h, 0) != h
  }

  lemma {:induction false} BytesInjective(mix: Mix, h: int, k: int, bytes: seq<nat>)
    requires Lossless(mix) && h != k
    ensures HashBytes(mix, h, bytes) != HashBytes(mix, k, bytes)
    decreases |bytes|
  {
    if |bytes| >= 8 { BytesInjective(mix, mix(h, WordOf(bytes[..8])), mix(k, WordOf(bytes[..8])), bytes[8..]); }
  }

  /** States that differ stay apart through a value. */
  lemma {:induction false} HashInjective(mix: Mix, h: int, k: int, v: Val)
    requires Lossless(mix) && h != k
    ensures Hash(mix, h, v) != Hash(mix, k, v)
    decreases v
  {
    match v
    case StrV(s) => BytesInjective(mix, h, k, s);
    case CStrV(p) => if p.Some? { BytesInjective(mix, h, k, p.value); }
    case ObjV(tag, fs) => AllInjective(mix, mix(h, tag), mix(k, tag), v, fs, v);
    case VecV(xs) => AllInjective(mix, h, k, v, xs, v);
    case DictV(es) => AllInjective(mix, h, k, v, es, v);
    case _ =>
  }

  lemma {:induction false} AllInjective(mix: Mix, h: int, k: int, v: Val, vs: seq<Val>, w: Val)
    requires Lossless(mix) && h != k && forall i :: 0 <= i < |vs| ==> vs[i] < v && vs[i] < w
    ensures HashAll(mix, h, v, vs) != HashAll(mix, k, w, vs)
    decreases v, |vs|
  {
    hide Hash, Lossless;
    if vs != [] {
      HashInjective(mix, h, k, vs[0]);
      AllInjective(mix, Hash(mix, h, vs[0]), Hash(mix, k, vs[0]), v, vs[1..], w);
    }
  }

  /** NULL mixes in no word, an empty C string a zero one. */
  lemma NullHash(mix: Mix, h: int)
    ensures Hash(mix, h, CStrV(None)) == h && Hash(mix, h, CStrV(Some([]))) == mix(h, 0)
  {}

  /** The first blank leaves the two states apart, and nothing after it brings
      them together. */
  lemma {:induction false} FlippedHash(mix: Mix, h: int, v: Val)
    requires Lossless(mix) && Blank(v)
    ensures Hash(mix, h, Flipped(v)) != Hash(mix, h, v)
    decreases v, 1
  {
    match v
    case CStrV(_) => NullHash(mix, h);
    case ObjV(tag, fs) => FlippedInHash(mix, mix(h, tag), v, fs, Flipped(v));
    case VecV(xs) => FlippedInHash(mix, h, v, xs, Flipped(v));
    case DictV(es) => FlippedInHash(mix, h, v, es, Flipped(v));
    case _ =>
  }

  lemma FlippedInTail(parent: Val, vs: seq<Val>)
    requires vs != [] && forall i :: 0 <= i < |vs| ==> vs[i] < parent
    ensures FlippedIn(parent, vs)[0] == if Blank(vs[0]) then Flipped(vs[0]) else vs[0]
    ensures FlippedIn(parent, vs)[1..] == if Blank(vs[0]) then vs[1..] else FlippedIn(parent, vs[1..])
  {
    hide Blank, Flipped;
  }

  lemma {:induction false} FlippedInHash(mix: Mix, h: int, v: Val, vs: seq<Val>, w: Val)
    requires Lossless(mix) && exists i :: 0 <= i < |vs| && Blank(vs[i])
    requires forall i :: 0 <= i < |vs| ==> vs[i] < v
    requires forall i :: 0 <= i < |vs| ==> FlippedIn(v, vs)[i] < w
    ensures HashAll(mix, h, w, FlippedIn(v, vs)) != HashAll(mix, h, v, vs)
    decreases v, 0, |vs|
  {
    hide Blank, Flipped, Hash, Lossless, FlippedIn;
    var ws := FlippedIn(v, vs);
    FlippedInTail(v, vs);
    assert forall i :: 0 <= i < |vs[1..]| ==> ws[1..][i] == ws[i + 1];
    if Blank(vs[0]) {
      FlippedHash(mix, h, vs[0]);
      AllInjective(mix, Hash(mix, h, ws[0]), Hash(mix, h, vs[0]), w, vs[1..], v);
    } else {
      var i :| 0 <= i < |vs| && Blank(vs[i]);
      assert Blank(vs[1..][i - 1]);
      FlippedInHash(mix, Hash(mix, h, vs[0]), v, vs[1..], w);
    }
  }

  /** Whatever equals `a` in its type hashes as `a`, whatever the seed. */
  ghost predicate HashRespectsEq(mix: Mix, d: Decls, a: Val, t: Ty) {
    forall b: Val, h: int :: HasTy(d, b, t) && Eq(a, b) == Some(true) ==> Hash(mix, h, b) == Hash(mix, h, a)
  }

  /** Equal values hash equally under every mixing where no C string inside is
      NULL or empty. */
  lemma EqualHash(mix: Mix, d: Decls, a: Val, t: Ty)
    requires HasTy(d, a, t) && !Blank(a)
    ensures HashRespectsEq(mix, d, a, t)
  {
    hide HasTy, Eq, Hash, Blank, Canon, Alike;
    forall b: Val, h: int | HasTy(d, b, t) && Eq(a, b) == Some(true) ensures Hash(mix, h, b) == Hash(mix, h, a) {
      TypedAlike(d, a, b, t);
      EqUpToNull(a, b);
      CanonBlank(a);
      CanonBlank(b);
      CanonHash(mix, h, a);
      CanonHash(mix, h, b);
    }
  }

  /** Under a mixing that loses nothing and moves on every word, that is exact: a
      blank anywhere inside tells a value, by its hash, from one it equals. */
  lemma EqualHashIffNoBlank(mix: Mix, d: Decls, a: Val, t: Ty)
    requires HasTy(d, a, t) && Lossless(mix)
    ensures HashRespectsEq(mix, d, a, t) <==> !Blank(a)
  {
    hide HasTy, Eq, Hash, Blank, Canon, Alike, Lossless, Flipped;
    if Blank(a) {
      var b := Flipped(a);
      FlippedTyped(d, a, t);
      TypedAlike(d, a, b, t);
      EqUpToNull(a, b);
      FlippedCanon(a);
      FlippedHash(mix, 0, a);
      assert HasTy(d, b, t) && Eq(a, b) == Some(true) && Hash(mix, 0, b) != Hash(mix, 0, a);
    } else {
      EqualHash(mix, d, a, t);
    }
  }

  /** A mixing that loses nothing: counting the words. */
  const COUNTING: Mix := (h: int, x: int) => h + 1

  /** Whatever the mixing: the values that hash as everything equal to them under
      all mixings are exactly those without a blank, for some mixing loses nothing. */
  lemma EqualHashForAllIffNoBlank(d: Decls, a: Val, t: Ty)
    requires HasTy(d, a, t)
    ensures (forall mix: Mix :: HashRespectsEq(mix, d, a, t)) <==> !Blank(a)
  {
    hide HasTy, Blank, HashRespectsEq;
    if Blank(a) {
      assert Lossless(COUNTING);
      EqualHashIffNoBlank(COUNTING, d, a, t);
    } else {
      forall mix: Mix ensures HashRespectsEq(mix, d, a, t) { EqualHash(mix, d, a, t); }
    }
  }

  /** NULL equals the empty C string; under any mixing and seed at all they hash
      alike exactly where a zero word leaves the seed as it is. */
  lemma NullHashesAlikeIff(mix: Mix, h: int)
    ensures Eq(CStrV(None), CStrV(Some([]))) == Some(true)
    ensures Hash(mix, h, CStrV(None)) == Hash(mix, h, CStrV(Some([]))) <==> mix(h, 0) == h
  {
    NullHash(mix, h);
    assert CmpBytes([], []) == 0;
  }

  // ------------------------------------------------------------ the runtime's mix

  /** The runtime's mixing of a word into a state, on 64 bits. */
  function MixWord(h: bv64, x: bv64): bv64 {
    var a := h ^ (x + 0x9E3779B97F4A7C15 + (h << 6) + (h >> 2));
    var b := (a ^ (a >> 31)) * 0xBF58476D1CE4E5B9;
    b ^ (b >> 29)
  }

  function AsWord(n: int): bv64 { (n % WORD) as bv64 }

  const RUNTIME: Mix := (h: int, x: int) => MixWord(AsWord(h), AsWord(x)) as int

  /** At the seed 1 the runtime's own mixing tells NULL from the empty C string. */
  lemma RuntimeTellsNull()
    ensures Eq(CStrV(None), CStrV(Some([]))) == Some(true)
    ensures Hash(RUNTIME, 1, CStrV(None)) != Hash(RUNTIME, 1, CStrV(Some([])))
  {
    NullHashesAlikeIff(RUNTIME, 1);
    assert RUNTIME(1, 0) == MixWord(AsWord(1), AsWord(0)) as int;
    assert MixWord(1, 0) != 1;
    assert AsWord(1) == 1 && AsWord(0) == 0;
  }
}
