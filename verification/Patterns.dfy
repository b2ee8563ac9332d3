/** Values, their types, and what it means for a pattern to match one
    (src/types.rs, src/infer.rs). */
module Patterns {
  import opened Ast

  datatype CtorInfo = CtorInfo(owner: string, params: seq<string>, args: seq<Ty>, tag: nat)

  /** The declared variants: `variants` lists a type's constructors in order. */
  datatype Data = Data(ctors: map<string, CtorInfo>, variants: map<string, seq<string>>)

  datatype Value =
    | VInt(n: int)
    | VFloat(x: real)
    | VStr(s: string)
    | VChar(c: nat)
    | VBool(b: bool)
    | VCtor(ctor: string, args: seq<Value>)
    | VTuple(parts: seq<Value>)
    | VList(items: seq<Value>)
    /** a record, a function, a C pointer: nothing a pattern takes apart */
    | VOther

  const I64_MAX: int := 0x7FFF_FFFF_FFFF_FFFF
  const U64_MAX: int := 0xFFFF_FFFF_FFFF_FFFF

  predicate IsBoolCtor(c: string) { c == "True" || c == "False" }

  predicate IsInt(n: string) { n in {"U8", "U16", "U32", "U64", "I8", "I16", "I32", "I64"} }

  predicate IsFloat(n: string) { n in {"F32", "F64"} }

  /** The types whose values patterns see into. */
  datatype Kind =
    | Ints | Floats | Strs | Chars | Bools
    | Vecs(el: Ty) | Tuples(parts: seq<Ty>) | Variants(owner: string, args: seq<Ty>) | Opaque

  function KindOf(data: Data, t: Ty): Kind {
    match t
    case TTuple(ts) => Tuples(ts)
    case TCon(n, args) =>
      if args == [] && IsInt(n) then Ints
      else if args == [] && IsFloat(n) then Floats
      else if args == [] && n == "Str" then Strs
      else if args == [] && n == "Char" then Chars
      else if args == [] && n == "Bool" then Bools
      else if |args| == 1 && n == "Vec" then Vecs(args[0])
      else if n in data.variants then Variants(n, args)
      else Opaque
    case _ => Opaque
  }

  /** A declared argument type with the type's parameters instantiated. */
  function Inst(t: Ty, params: seq<string>, args: seq<Ty>): Ty
    decreases t
  {
    match t
    case TVar(n) => InstVar(n, params, args)
    case TCon(n, ts) => TCon(n, seq(|ts|, i requires 0 <= i < |ts| => Inst(ts[i], params, args)))
    case TTuple(ts) => TTuple(seq(|ts|, i requires 0 <= i < |ts| => Inst(ts[i], params, args)))
    case TFun(a, b) => TFun(Inst(a, params, args), Inst(b, params, args))
    case TRef(a) => Inst(a, params, args)
    case TEff(a) => TEff(Inst(a, params, args))
  }

  function InstVar(n: string, params: seq<string>, args: seq<Ty>): Ty {
    if params == [] || args == [] then TVar(n)
    else if params[0] == n then args[0]
    else InstVar(n, params[1..], args[1..])
  }

  function ArgTypes(info: CtorInfo, targs: seq<Ty>): (ts: seq<Ty>)
    ensures |ts| == |info.args|
  {
    seq(|info.args|, i requires 0 <= i < |info.args| => Inst(info.args[i], info.params, targs))
  }

  ghost predicate HasType(data: Data, v: Value, t: Ty)
    decreases v
  {
    match KindOf(data, t)
    case Ints => v.VInt?
    case Floats => v.VFloat?
    case Strs => v.VStr?
    case Chars => v.VChar?
    case Bools => v.VBool?
    case Vecs(el) => v.VList? && forall i :: 0 <= i < |v.items| ==> HasType(data, v.items[i], el)
    case Tuples(ts) => v.VTuple? && |v.parts| == |ts| && forall i :: 0 <= i < |ts| ==> HasType(data, v.parts[i], ts[i])
    case Variants(owner, targs) =>
      && v.VCtor? && v.ctor in data.ctors && data.ctors[v.ctor].owner == owner
      && var ts := ArgTypes(data.ctors[v.ctor], targs);
         |v.args| == |ts| && forall i :: 0 <= i < |ts| ==> HasType(data, v.args[i], ts[i])
    case Opaque => v.VOther?
  }

  ghost predicate HasTypes(data: Data, vs: seq<Value>, ts: seq<Ty>) {
    |vs| == |ts| && forall i :: 0 <= i < |vs| ==> HasType(data, vs[i], ts[i])
  }

  /** What inference establishes of a pattern against its scrutinee's type. The
      lexer keeps integers below 2^64, and one past the signed range is a `U64`. */
  ghost predicate PatTyped(data: Data, p: Pat, t: Ty)
    decreases p
  {
    match p
    case PWild => true
    case PVar(_) => true
    case PInt(n) => KindOf(data, t) == Ints && 0 <= n <= U64_MAX && (n > I64_MAX ==> t == TCon("U64", []))
    case PFloat(_) => KindOf(data, t) == Floats
    case PStr(_) => KindOf(data, t) == Strs
    case PChar(_) => KindOf(data, t) == Chars
    case PBool(_) => KindOf(data, t) == Bools
    case PList(ps) =>
      KindOf(data, t).Vecs? && forall i :: 0 <= i < |ps| ==> PatTyped(data, ps[i], KindOf(data, t).el)
    case PTuple(ps) =>
      KindOf(data, t).Tuples? && |ps| == |KindOf(data, t).parts|
      && forall i :: 0 <= i < |ps| ==> PatTyped(data, ps[i], KindOf(data, t).parts[i])
    case PCtor(c, ps) =>
      if IsBoolCtor(c) then KindOf(data, t) == Bools && ps == []
      else
        && KindOf(data, t).Variants? && c in data.ctors && data.ctors[c].owner == KindOf(data, t).owner
        && var ts := ArgTypes(data.ctors[c], KindOf(data, t).args);
           |ps| == |ts| && forall i :: 0 <= i < |ps| ==> PatTyped(data, ps[i], ts[i])
  }

  ghost predicate PatsTyped(data: Data, ps: seq<Pat>, ts: seq<Ty>) {
    |ps| == |ts| && forall i :: 0 <= i < |ps| ==> PatTyped(data, ps[i], ts[i])
  }

  /** Whether `p` matches `v`. */
  predicate Matches(p: Pat, v: Value)
    decreases p
  {
    match p
    case PWild => true
    case PVar(_) => true
    case PInt(n) => v == VInt(n)
    case PFloat(x) => v == VFloat(x)
    case PStr(s) => v == VStr(s)
    case PChar(c) => v == VChar(c)
    case PBool(b) => v == VBool(b)
    case PList(ps) => v.VList? && |ps| == |v.items| && forall i :: 0 <= i < |ps| ==> Matches(ps[i], v.items[i])
    case PTuple(ps) => v.VTuple? && |ps| == |v.parts| && forall i :: 0 <= i < |ps| ==> Matches(ps[i], v.parts[i])
    case PCtor(c, ps) =>
      if IsBoolCtor(c) then v == VBool(c == "True")
      else v.VCtor? && v.ctor == c && |ps| == |v.args| && forall i :: 0 <= i < |ps| ==> Matches(ps[i], v.args[i])
  }

  predicate MatchesAll(ps: seq<Pat>, vs: seq<Value>) {
    |ps| == |vs| && forall i :: 0 <= i < |ps| ==> Matches(ps[i], vs[i])
  }

  /** Declared data hangs together: a constructor is listed under its owner and
      nowhere else, and is not a boolean. */
  ghost predicate WfData(data: Data) {
    && (forall c :: c in data.ctors ==>
          !IsBoolCtor(c) && data.ctors[c].owner in data.variants && c in data.variants[data.ctors[c].owner])
    && (forall o, i :: o in data.variants && 0 <= i < |data.variants[o]| ==>
          data.variants[o][i] in data.ctors && data.ctors[data.variants[o][i]].owner == o)
  }

  ghost predicate Inhabited(data: Data, t: Ty) {
    exists v :: HasType(data, v, t)
  }

  ghost predicate AllInhabited(data: Data) {
    forall t :: Inhabited(data, t)
  }
}
