/** Buffers that double: vectors and owned strings (runtime/vibert.c). */
module Growth {

  const WORD: int := 0x1_0000_0000_0000_0000
  const SIZE_MAX: int := WORD - 1

  /** The most values one allocation can hold, at sixteen bytes each. */
  const MOST: int := SIZE_MAX / 16

  /** A larger array that starts with all of `a`, as `realloc` gives it. */
  method Grow<T(0)>(a: array<T>, cap: nat) returns (b: array<T>)
    requires a.Length <= cap
    ensures fresh(b) && b.Length == cap && b[..a.Length] == a[..]
  {
    b := new T[cap];
    var i := 0;
    while i < a.Length
      invariant i <= a.Length && b[..i] == a[..i]
    {
      b[i] := a[i];
      i := i + 1;
    }
  }

  /** The first `k` of `src` over those of `dst` from `at` on; where they are one
      array, the two stretches are apart. */
  method MemCpy<T>(dst: array<T>, at: nat, src: array<T>, k: nat)
    requires at + k <= dst.Length && k <= src.Length && (dst == src ==> k <= at)
    modifies dst
    ensures dst[..at] == old(dst[..at]) && dst[at..at + k] == old(src[..k])
  {
    ghost var from := src[..k];
    var i := 0;
    while i < k
      invariant i <= k && dst[..at] == old(dst[..at]) && src[..k] == from
      invariant forall q :: 0 <= q < i ==> dst[at + q] == from[q]
    {
      assert src[i] == from[i];
      dst[at + i] := src[i];
      i := i + 1;
    }
  }

  class VecBuf<T(0)> {
    var a: array<T>
    var n: nat
    /** How many elements growing has copied so far. */
    ghost var copied: nat
    ghost const first: nat

    ghost predicate Valid()
      reads this
    {
      && n <= a.Length <= MOST
      && (a.Length == first ==> copied == 0)
      && (a.Length != first ==> n > 0 && copied + Base() == a.Length && (a.Length == Base() || a.Length <= 2 * (n - 1)))
    }

    /** The smallest array with anything in it. */
    ghost function Base(): nat { if first == 0 then 8 else first }

    ghost function Contents(): seq<T>
      reads this, a
      requires n <= a.Length
    {
      a[..n]
    }

    constructor (cap: nat)
      requires cap <= MOST
      ensures Valid() && fresh(a) && Contents() == [] && first == cap && copied == 0
    {
      a := new T[cap];
      n := 0;
      copied := 0;
      first := cap;
    }

    /** Appends, doubling a full array; false where the runtime would be out of
        memory. */
    method Push(x: T) returns (ok: bool)
      requires Valid()
      modifies this, a
      ensures Valid() && (a == old(a) || fresh(a))
      ensures ok <==> old(n) < old(a.Length) || old(a.Length) * 2 <= MOST
      ensures Contents() == if ok then old(Contents()) + [x] else old(Contents())
      ensures old(n) < old(a.Length) || !ok ==> copied == old(copied) && a == old(a)
      ensures old(n) == old(a.Length) && ok ==>
        copied == old(copied) + old(n) && a.Length == if old(n) == 0 then 8 else 2 * old(n)
    {
      if n == a.Length {
        var cap := if a.Length > 0 then a.Length * 2 else 8;
        if cap > MOST { return false; }
        var b := Grow(a, cap);
        copied := copied + a.Length;
        assert b[..n] == a[..];
        a := b;
      }
      ghost var was := a[..n];
      a[n] := x;
      n := n + 1;
      assert a[..n] == was + [x];
      ok := true;
    }

    /** Copies of `s` from `from` up to `to`, one after another. */
    method DupInto(s: seq<T>, from: nat, to: nat) returns (ok: bool)
      requires Valid() && from <= to <= |s|
      modifies this, a
      ensures Valid() && (a == old(a) || fresh(a))
      ensures ok ==> Contents() == old(Contents()) + s[from..to]
      ensures old(n) + (to - from) <= old(a.Length) ==> ok && copied == old(copied) && a == old(a)
    {
      var i := from;
      while i < to
        invariant from <= i <= to && Valid() && (a == old(a) || fresh(a))
        invariant Contents() == old(Contents()) + s[from..i]
        invariant old(n) + (to - from) <= old(a.Length) ==> copied == old(copied) && a == old(a)
      {
        ok := Push(s[i]);
        if !ok { return; }
        assert s[from..i + 1] == s[from..i] + [s[i]];
        i := i + 1;
      }
      ok := true;
    }

    /** What growing has copied, over all the pushes there were, is less than two
        elements a push. */
    lemma CopiesLinear()
      requires Valid()
      ensures copied == 0 || copied < 2 * n
    {
    }
  }

  /** Two vectors end to end, in an array of the right size from the start. */
  method Concat<T(0)>(x: seq<T>, y: seq<T>) returns (w: VecBuf<T>)
    requires |x| + |y| <= MOST
    ensures fresh(w) && w.Valid() && w.Contents() == x + y && w.copied == 0
  {
    w := new VecBuf(|x| + |y|);
    var ok := w.DupInto(x, 0, |x|);
    assert w.Contents() == x;
    ok := w.DupInto(y, 0, |y|);
    assert x + y[0..|y|] == x + y;
  }

  /** `n + k + 1` in a machine word. */
  function SumPlusOne(n: nat, k: nat): nat { (n + k + 1) % WORD }

  /** The sum came out below `k` exactly where it did not fit. */
  lemma SumWraps(n: nat, k: nat)
    requires n < SIZE_MAX && k < SIZE_MAX
    ensures SumPlusOne(n, k) < k <==> n + k + 1 >= WORD
    ensures n + k + 1 < WORD ==> SumPlusOne(n, k) == n + k + 1
  {
    if n + k + 1 >= WORD { assert SumPlusOne(n, k) == n + k + 1 - WORD; }
  }

  /** The capacity after growing for `need`: double, where that fits a word and is
      enough. */
  function Grown(cap: nat, need: nat): nat {
    if cap > SIZE_MAX / 2 || 2 * cap < need then need else 2 * cap
  }

  class StrBuf {
    var p: array<nat>
    var n: nat
    ghost var copied: nat
    ghost const first: nat

    /** A NUL after the bytes, and room for it. */
    ghost predicate Valid()
      reads this, p
    {
      && n < p.Length <= SIZE_MAX && p[n] == 0 && first > 0
      && (p.Length <= SIZE_MAX / 2 ==> copied + first <= p.Length && (p.Length == first || p.Length <= 2 * n))
    }

    ghost function Text(): seq<nat>
      reads this, p
      requires n <= p.Length
    {
      p[..n]
    }

    constructor (s: seq<nat>)
      requires |s| < SIZE_MAX
      ensures Valid() && fresh(p) && Text() == s && copied == 0
    {
      var buf := new nat[|s| + 1];
      var i := 0;
      while i < |s|
        invariant i <= |s| && buf[..i] == s[..i]
      {
        buf[i] := s[i];
        i := i + 1;
      }
      buf[|s|] := 0;
      p := buf;
      n := |s|;
      copied := 0;
      first := |s| + 1;
    }

    /** Room for `need` bytes, twice as much as before where that is enough. */
    method Reserve(need: nat)
      requires Valid() && need <= SIZE_MAX && n + 1 <= need
      modifies this
      ensures n == old(n) && first > 0 && need <= p.Length <= SIZE_MAX && p[..n] == old(p[..n])
      ensures need <= old(p.Length) ==> p == old(p) && copied == old(copied)
      ensures need > old(p.Length) ==>
        fresh(p) && copied == old(copied) + old(p.Length) && p.Length == Grown(old(p.Length), need)
      ensures p.Length <= SIZE_MAX / 2 ==>
        copied + first <= p.Length && (p.Length == first || p.Length <= 2 * (need - 1))
    {
      if need > p.Length {
        var cap := if p.Length > SIZE_MAX / 2 then need else p.Length * 2;
        if cap < need { cap := need; }
        var b := Grow(p, cap);
        assert b[..n] == b[..p.Length][..n] == p[..n];
        copied := copied + p.Length;
        p := b;
      }
    }

    /** The first `k` of `src`, which may be this string's own bytes, and a NUL. */
    method Append(src: array<nat>, k: nat)
      requires n + k < p.Length && k <= src.Length && (src == p ==> k <= n)
      modifies p, this`n
      ensures n == old(n) + k && p[n] == 0 && Text() == old(Text()) + old(src[..k])
    {
      MemCpy(p, n, src, k);
      assert p[..n + k] == p[..n] + p[n..n + k];
      n := n + k;
      p[n] := 0;
    }

    /** Appends `t`, which may be this very string; false where the lengths
        together do not fit a word. */
    method PushOwned(t: StrBuf) returns (ok: bool)
      requires Valid() && t.Valid() && (t == this || t.p != p)
      modifies this, p
      ensures Valid() && (p == old(p) || fresh(p))
      ensures ok <==> old(n) + old(t.n) + 1 < WORD
      ensures Text() == if ok then old(Text()) + old(t.Text()) else old(Text())
      ensures t != this ==> t.Valid() && t.Text() == old(t.Text())
      ensures old(n) + old(t.n) + 1 <= old(p.Length) || !ok ==> p == old(p) && copied == old(copied)
      ensures old(n) + old(t.n) + 1 > old(p.Length) && ok ==>
        copied == old(copied) + old(p.Length) && p.Length == Grown(old(p.Length), old(n) + old(t.n) + 1)
    {
      hide SumPlusOne, Grown;
      var k := t.n;
      var need := SumPlusOne(n, k);
      SumWraps(n, k);
      if need < k { return false; }
      Reserve(need);
      // read after growing: where `t` is this string its bytes have moved too
      assert t.p[..k] == old(t.p[..k]);
      Append(t.p, k);
      ok := true;
    }

    /** Below half the address space, what growing has copied is less than two
        bytes for each byte of the string. */
    lemma CopiesLinear()
      requires Valid() && p.Length <= SIZE_MAX / 2
      ensures copied == 0 || copied < 2 * n
    {
    }
  }
}
