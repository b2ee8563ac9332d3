/** What the scalar types and the runtime's words stand for, apart from the tables that
    name them (src/refine.rs, src/types.rs, src/infer.rs, runtime/vibert.h). */
module Scalars {
  import opened Wrappers
  import opened VcGen
  import MatchCode
  import Order
  import Patterns
  import Unify
  import VcSound

  /** A machine word, lowest bit first. */
  type Bits = seq<bool>

  function Pow2(n: nat): nat { if n == 0 then 1 else 2 * Pow2(n - 1) }

  /** The bits as a number. */
  function Plain(w: Bits): nat { if w == [] then 0 else (if w[0] then 1 else 0) + 2 * Plain(w[1..]) }

  /** The bits in two's complement: the highest one counts against. */
  function Twos(w: Bits): int {
    if w != [] && w[|w| - 1] then Plain(w) - Pow2(|w|) else Plain(w)
  }

  lemma {:induction false} PlainBelow(w: Bits)
    ensures Plain(w) < Pow2(|w|)
  {
    if w != [] { PlainBelow(w[1..]); }
  }

  lemma {:induction false} PlainSplit(w: Bits)
    requires w != []
    ensures Plain(w) == Plain(w[..|w| - 1]) + if w[|w| - 1] then Pow2(|w| - 1) else 0
  {
    if |w| == 1 {
      assert w[1..] == [] && w[..0] == [];
    } else {
      PlainSplit(w[1..]);
      assert w[1..][..|w| - 2] == w[..|w| - 1][1..];
    }
  }

  /** Every number below two to the width is a word's. */
  lemma {:induction false} PlainReached(n: nat, width: nat) returns (w: Bits)
    requires n < Pow2(width)
    ensures |w| == width && Plain(w) == n
  {
    if width == 0 {
      w := [];
    } else {
      var v := PlainReached(n / 2, width - 1);
      w := [n % 2 == 1] + v;
      assert w[1..] == v;
    }
  }

  ghost predicate IsPlain(n: int, width: nat) { exists w: Bits :: |w| == width && Plain(w) == n }

  ghost predicate IsTwos(n: int, width: nat) { exists w: Bits :: |w| == width && Twos(w) == n }

  lemma PlainRange(n: int, width: nat)
    ensures IsPlain(n, width) <==> 0 <= n < Pow2(width)
  {
    if 0 <= n < Pow2(width) {
      var w := PlainReached(n, width);
    }
    if IsPlain(n, width) {
      var w: Bits :| |w| == width && Plain(w) == n;
      PlainBelow(w);
    }
  }

  lemma TwosRange(n: int, width: nat)
    requires width > 0
    ensures IsTwos(n, width) <==> 0 <= n + Pow2(width - 1) && n < Pow2(width - 1)
  {
    if 0 <= n + Pow2(width - 1) && n < Pow2(width - 1) {
      var w := PlainReached(if n < 0 then n + Pow2(width) else n, width);
      PlainSplit(w);
      PlainBelow(w[..width - 1]);
      assert Twos(w) == n;
    }
    if IsTwos(n, width) {
      var w: Bits :| |w| == width && Twos(w) == n;
      PlainSplit(w);
      PlainBelow(w[..width - 1]);
    }
  }

  lemma Powers()
    ensures Pow2(7) == 0x80 && Pow2(8) == 0x100 && Pow2(15) == 0x8000 && Pow2(16) == 0x1_0000
    ensures Pow2(31) == 0x8000_0000 && Pow2(32) == 0x1_0000_0000
    ensures Pow2(63) == 0x8000_0000_0000_0000 && Pow2(64) == 0x1_0000_0000_0000_0000
  {
    Squares(8);
    Squares(16);
    Squares(32);
    assert Pow2(8) == 0x100;
    assert Pow2(16) == 0x1_0000;
    assert Pow2(32) == 0x1_0000_0000;
    assert Pow2(64) == 0x1_0000_0000_0000_0000;
  }

  lemma Squares(n: nat)
    ensures Pow2(2 * n) == Pow2(n) * Pow2(n)
  {
    PowAdds(n, n);
  }

  lemma {:induction false} PowAdds(m: nat, n: nat)
    ensures Pow2(m + n) == Pow2(m) * Pow2(n)
  {
    if m > 0 { PowAdds(m - 1, n); }
  }

  /** The range of every scalar type is what its words are: plain bits of its width
      for an unsigned type, two's complement for a signed one, and every natural
      for `Nat`. No other name bounds anything. */
  lemma RangesAreWords(n: int)
    ensures InRange(n, "U8") <==> IsPlain(n, 8)
    ensures InRange(n, "U16") <==> IsPlain(n, 16)
    ensures InRange(n, "U32") <==> IsPlain(n, 32)
    ensures InRange(n, "U64") <==> IsPlain(n, 64)
    ensures InRange(n, "Size") <==> IsPlain(n, 64)
    ensures InRange(n, "I8") <==> IsTwos(n, 8)
    ensures InRange(n, "I16") <==> IsTwos(n, 16)
    ensures InRange(n, "I32") <==> IsTwos(n, 32)
    ensures InRange(n, "I64") <==> IsTwos(n, 64)
    ensures InRange(n, "Nat") <==> n >= 0
  {
    hide Pow2, IsPlain, IsTwos;
    Powers();
    PlainRange(n, 8);
    PlainRange(n, 16);
    PlainRange(n, 32);
    PlainRange(n, 64);
    TwosRange(n, 8);
    TwosRange(n, 16);
    TwosRange(n, 32);
    TwosRange(n, 64);
  }

  /** A type is unsigned exactly where it bounds numbers and no negative one is in it. */
  lemma UnsignedAreNatural(ty: string)
    ensures IsUnsigned(ty) <==> (exists n :: !InRange(n, ty)) && forall n :: InRange(n, ty) ==> n >= 0
  {
    if IsUnsigned(ty) { assert !InRange(-1, ty); }
    else if Range(ty).Some? { assert InRange(-1, ty); }
    else { assert forall n :: InRange(n, ty); assert InRange(-1, ty); }
  }

  /** The types the numeric operators of the inference work on, those whose literals
      patterns see into, and the bounded ones of the obligations are the same, `Size`
      being another name of `U64` there. */
  lemma NumbersAreBounded(ty: string)
    ensures Patterns.IsInt(ty) <==> Unify.IsNum(ty) && !Unify.IsFloat(ty)
    ensures Patterns.IsFloat(ty) <==> Unify.IsFloat(ty)
    ensures Unify.IsNum(ty) && !Unify.IsFloat(ty) <==>
              ty != "Size" && exists n :: InRange(n, ty) && !InRange(n + 1, ty) && n >= 0
  {
    if Unify.IsNum(ty) && !Unify.IsFloat(ty) {
      var top := Range(ty).value.1.value;
      assert InRange(top, ty) && !InRange(top + 1, ty);
    }
  }

  /** The state in which one literal's type is all there is. */
  ghost predicate MayBe(kind: Unify.Kind, ty: string) {
    exists theta: Unify.Theta ::
      Unify.Unifier(theta, [None], [kind], Unify.Var(0), Unify.Con(ty, []))
  }

  /** What a literal may be: a whole number any numeric type, a decimal one a
      floating-point type only, and an unconstrained variable anything. */
  lemma LiteralTypes(ty: string)
    ensures MayBe(Unify.Float, ty) <==> ty == "F32" || ty == "F64"
    ensures MayBe(Unify.Num, ty) <==>
      ty in {"U8", "U16", "U32", "U64", "I8", "I16", "I32", "I64", "F32", "F64"}
    ensures MayBe(Unify.Any, ty)
  {
    MayBeAllowed(Unify.Float, ty);
    MayBeAllowed(Unify.Num, ty);
    MayBeAllowed(Unify.Any, ty);
  }

  lemma MayBeAllowed(kind: Unify.Kind, ty: string)
    ensures MayBe(kind, ty) <==> Unify.Allows(kind, ty)
  {
    var con := Unify.Con(ty, []);
    if Unify.Allows(kind, ty) {
      var theta: Unify.Theta := (i: nat) => con;
      assert Unify.Apply(theta, con) == con;
      assert Unify.Unifier(theta, [None], [kind], Unify.Var(0), con);
    }
    if MayBe(kind, ty) {
      var theta: Unify.Theta :| Unify.Unifier(theta, [None], [kind], Unify.Var(0), con);
      assert theta(0) == Unify.Apply(theta, con) == con;
    }
  }

  /** A kind rules out names of types and nothing else: a literal's variable may come to stand
      for a function or a tuple. */
  lemma OnlyNamesRuledOut(kind: Unify.Kind, t: Unify.T)
    requires !t.Con? && forall theta: Unify.Theta :: Unify.Apply(theta, t) == t
    ensures exists theta: Unify.Theta :: Unify.Unifier(theta, [None], [kind], Unify.Var(0), t)
  {
    var theta: Unify.Theta := (i: nat) => t;
    assert Unify.Unifier(theta, [None], [kind], Unify.Var(0), t);
  }

  /** An undecided whole number becomes the signed type of a whole word, an undecided
      decimal a type that decimals may be, and nothing else is decided. */
  lemma DefaultsFit(n: int)
    ensures Unify.Defaulted(Unify.Num).Some? && Unify.Defaulted(Unify.Num).value.Con?
    ensures InRange(n, Unify.Defaulted(Unify.Num).value.name) <==> IsTwos(n, 64)
    ensures Unify.Defaulted(Unify.Float) == Some(Unify.Con("F64", [])) && MayBe(Unify.Float, "F64")
    ensures Unify.Defaulted(Unify.Any) == None
  {
    RangesAreWords(n);
    LiteralTypes("F64");
  }

  // ----------------------------------------------------------------- conversions

  /** The two numbers are the signed and the unsigned reading of one machine word. */
  ghost predicate SameWord(signed: int, unsigned: int) {
    exists w: Bits :: |w| == 64 && Twos(w) == signed && Plain(w) == unsigned
  }

  lemma SameWordIs(signed: int, unsigned: int)
    ensures SameWord(signed, unsigned) <==>
              0 <= unsigned < Pow2(64) && signed == if unsigned < Pow2(63) then unsigned else unsigned - Pow2(64)
  {
    if 0 <= unsigned < Pow2(64) && signed == (if unsigned < Pow2(63) then unsigned else unsigned - Pow2(64)) {
      var w := PlainReached(unsigned, 64);
      SignBit(w);
    }
    if SameWord(signed, unsigned) {
      var w: Bits :| |w| == 64 && Twos(w) == signed && Plain(w) == unsigned;
      PlainBelow(w);
      SignBit(w);
    }
  }

  lemma SignBit(w: Bits)
    requires |w| == 64
    ensures w[63] <==> Plain(w) >= Pow2(63)
  {
    hide Pow2;
    PlainSplit(w);
    PlainBelow(w[..63]);
  }

  /** Reading a boxed number at the other sort keeps its bits, and reading it at its own
      gives it back. */
  lemma BoxesKeepBits(v: MatchCode.Boxed)
    requires MatchCode.Integral(v)
    requires match v
             case BInt(i) => IsTwos(i, 64)
             case BUInt(u) => IsPlain(u, 64)
             case BChar(c) => IsTwos(c, 64)
             case _ => true
    ensures SameWord(MatchCode.AsInt(v), MatchCode.AsUInt(v))
    ensures match v
            case BInt(i) => MatchCode.AsInt(v) == i
            case BUInt(u) => MatchCode.AsUInt(v) == u
            case BChar(c) => MatchCode.AsInt(v) == c
            case BBool(b) => MatchCode.AsInt(v) == if b then 1 else 0
            case _ => true
  {
    hide Pow2, IsTwos, IsPlain, SameWord;
    Powers();
    if v.BInt? { TwosRange(v.i, 64); }
    if v.BUInt? { PlainRange(v.u, 64); }
    if v.BChar? { TwosRange(v.c, 64); }
    SameWordIs(MatchCode.AsInt(v), MatchCode.AsUInt(v));
  }

  /** The same of the runtime's comparisons and of the machine's arithmetic. */
  lemma WordsKeepBits(signed: int, unsigned: int)
    requires IsTwos(signed, 64) && IsPlain(unsigned, 64)
    ensures Order.AsInt(Order.IntV(signed)) == Some(signed) && Order.AsUInt(Order.UIntV(unsigned)) == Some(unsigned)
    ensures Order.AsUInt(Order.IntV(signed)).Some? && Order.AsInt(Order.UIntV(unsigned)).Some?
    ensures SameWord(signed, Order.AsUInt(Order.IntV(signed)).value)
    ensures SameWord(Order.AsInt(Order.UIntV(unsigned)).value, unsigned)
    ensures VcSound.AsSigned(VcSound.SignedW(signed)) == signed
    ensures VcSound.AsUnsigned(VcSound.UnsignedW(unsigned)) == unsigned
    ensures SameWord(signed, VcSound.AsUnsigned(VcSound.SignedW(signed)))
    ensures SameWord(VcSound.AsSigned(VcSound.UnsignedW(unsigned)), unsigned)
  {
    hide Pow2, IsTwos, IsPlain, SameWord;
    Powers();
    TwosRange(signed, 64);
    PlainRange(unsigned, 64);
    SameWordIs(signed, Order.AsUInt(Order.IntV(signed)).value);
    SameWordIs(Order.AsInt(Order.UIntV(unsigned)).value, unsigned);
    SameWordIs(signed, VcSound.AsUnsigned(VcSound.SignedW(signed)));
    SameWordIs(VcSound.AsSigned(VcSound.UnsignedW(unsigned)), unsigned);
  }

  /** A number that a machine operation leaves is the mathematical one up to the bits of a word. */
  lemma WrapsKeepBits(n: int, unsigned: bool)
    ensures SameWord(VcSound.AsSigned(VcSound.Wrap(n, unsigned)), VcSound.AsUnsigned(VcSound.Wrap(n, unsigned)))
    ensures exists k: int :: VcSound.AsUnsigned(VcSound.Wrap(n, unsigned)) == n + k * Pow2(64)
    ensures VcSound.Wrap(n, unsigned).UnsignedW? <==> unsigned
  {
    hide Pow2, SameWord;
    Powers();
    SameWordIs(VcSound.AsSigned(VcSound.Wrap(n, unsigned)), VcSound.AsUnsigned(VcSound.Wrap(n, unsigned)));
    var k := -(n / WORD);
    assert VcSound.AsUnsigned(VcSound.Wrap(n, unsigned)) == n + k * Pow2(64);
  }

  /** A literal is spelled signed exactly while a signed word holds it. */
  lemma LiteralsTagged(n: nat)
    ensures MatchCode.IntLit(n) == (if IsTwos(n, 64) then MatchCode.BInt(n) else MatchCode.BUInt(n))
    ensures VcSound.Literal(n) == (if IsTwos(n, 64) then VcSound.SignedW(n) else VcSound.UnsignedW(n))
  {
    hide Pow2, IsTwos;
    Powers();
    TwosRange(n, 64);
  }
}
