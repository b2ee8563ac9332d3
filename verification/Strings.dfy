/** Substring search, split and replace (runtime/vibert.c). A string is its bytes. */
module Strings {
  import opened Wrappers

  type Bytes = seq<nat>

  // ----------------------------------------------------------------------- search

  predicate OccursAt(x: Bytes, y: Bytes, i: nat) { i + |y| <= |x| && x[i..i + |y|] == y }

  /** The first place from `from` on where `y` occurs in `x`. */
  function Find(x: Bytes, y: Bytes, from: nat): Option<nat>
    decreases |x| - from
  {
    if from + |y| > |x| then None
    else if OccursAt(x, y, from) then Some(from)
    else Find(x, y, from + 1)
  }

  /** Nothing earlier, and nothing at all where it answers so. */
  lemma {:induction false} FindLeast(x: Bytes, y: Bytes, from: nat)
    ensures match Find(x, y, from)
      case Some(i) => from <= i && OccursAt(x, y, i) && forall j :: from <= j < i ==> !OccursAt(x, y, j)
      case None => forall j :: from <= j ==> !OccursAt(x, y, j)
    decreases |x| - from
  {
    if from + |y| <= |x| && !OccursAt(x, y, from) { FindLeast(x, y, from + 1); }
  }

  /** What `FindLeast` says is enough to know the answer. */
  lemma FindIs(x: Bytes, y: Bytes, from: nat, r: Option<nat>)
    requires match r
      case Some(i) => from <= i && OccursAt(x, y, i) && forall j :: from <= j < i ==> !OccursAt(x, y, j)
      case None => forall j :: from <= j ==> !OccursAt(x, y, j)
    ensures Find(x, y, from) == r
  {
    FindLeast(x, y, from);
  }

  /** The first of the `n` bytes from `at` on that is `c`. */
  method MemChr(x: Bytes, at: nat, c: nat, n: nat) returns (r: Option<nat>)
    requires at + n <= |x|
    ensures r == None ==> forall j :: at <= j < at + n ==> x[j] != c
    ensures r.Some? ==> at <= r.value < at + n && x[r.value] == c && forall j :: at <= j < r.value ==> x[j] != c
  {
    var k := at;
    while k < at + n
      invariant at <= k <= at + n
      invariant forall j :: at <= j < k ==> x[j] != c
    {
      if x[k] == c { return Some(k); }
      k := k + 1;
    }
    r := None;
  }

  /** Jumps from candidate to candidate; the least occurrence from `from` on. */
  method StrFind(x: Bytes, y: Bytes, from: nat) returns (r: Option<nat>)
    ensures r == Find(x, y, from)
  {
    hide Find;
    if |y| == 0 {
      r := if from <= |x| then Some(from) else None;
      FindIs(x, y, from, r);
      return;
    }
    if |y| > |x| {
      FindIs(x, y, from, None);
      return None;
    }
    var last := |x| - |y|;
    var i := from;
    while i <= last
      invariant from <= i && forall j :: from <= j < i ==> !OccursAt(x, y, j)
      decreases last + 1 - i
    {
      var c := MemChr(x, i, y[0], last - i + 1);
      if c == None {
        forall j | i <= j ensures !OccursAt(x, y, j) { HeadFirst(x, y, j); }
        FindIs(x, y, from, None);
        return None;
      }
      forall j | i <= j < c.value ensures !OccursAt(x, y, j) { HeadFirst(x, y, j); }
      i := c.value;
      if x[i..i + |y|] == y {
        FindIs(x, y, from, Some(i));
        return Some(i);
      }
      i := i + 1;
    }
    FindIs(x, y, from, None);
    r := None;
  }

  /** An occurrence starts with the first byte. */
  lemma HeadFirst(x: Bytes, y: Bytes, j: nat)
    requires y != []
    ensures OccursAt(x, y, j) ==> j <= |x| - |y| && x[j] == y[0]
  {
    if OccursAt(x, y, j) { assert x[j..j + |y|][0] == x[j]; }
  }

  // ------------------------------------------------------------------------- split

  /** The pieces of `x` from `start` on between occurrences of `sep`. */
  function Pieces(x: Bytes, sep: Bytes, start: nat): seq<Bytes>
    requires sep != [] && start <= |x|
    decreases |x| - start
  {
    match Find(x, sep, start)
    case None => [x[start..]]
    case Some(i) =>
      FindLeast(x, sep, start);
      [x[start..i]] + Pieces(x, sep, i + |sep|)
  }

  function Join(ps: seq<Bytes>, sep: Bytes): Bytes {
    if ps == [] then [] else if |ps| == 1 then ps[0] else ps[0] + sep + Join(ps[1..], sep)
  }

  ghost predicate Free(p: Bytes, y: Bytes) { forall j: nat :: !OccursAt(p, y, j) }

  method SplitOn(x: Bytes, sep: Bytes) returns (w: seq<Bytes>)
    requires sep != []
    ensures w == Pieces(x, sep, 0)
  {
    hide Find;
    w := [];
    var start := 0;
    var i := StrFind(x, sep, start);
    while i.Some?
      invariant start <= |x| && i == Find(x, sep, start) && Pieces(x, sep, 0) == w + Pieces(x, sep, start)
      decreases |x| - start
    {
      FindLeast(x, sep, start);
      PiecesStep(x, sep, start);
      w := w + [x[start..i.value]];
      start := i.value + |sep|;
      i := StrFind(x, sep, start);
    }
    w := w + [x[start..]];
  }

  lemma PiecesStep(x: Bytes, sep: Bytes, start: nat)
    requires sep != [] && start <= |x| && Find(x, sep, start).Some?
    ensures start <= Find(x, sep, start).value && Find(x, sep, start).value + |sep| <= |x|
    ensures Pieces(x, sep, start) == [x[start..Find(x, sep, start).value]]
             + Pieces(x, sep, Find(x, sep, start).value + |sep|)
  {
    FindLeast(x, sep, start);
  }

  /** The pieces rejoin to what was split. */
  lemma {:induction false} JoinPieces(x: Bytes, sep: Bytes, start: nat)
    requires sep != [] && start <= |x|
    ensures Pieces(x, sep, start) != [] && Join(Pieces(x, sep, start), sep) == x[start..]
    decreases |x| - start
  {
    hide Find;
    if Find(x, sep, start).Some? {
      var i := Find(x, sep, start).value;
      PiecesStep(x, sep, start);
      FindLeast(x, sep, start);
      JoinPieces(x, sep, i + |sep|);
      var rest := Pieces(x, sep, i + |sep|);
      assert ([x[start..i]] + rest)[1..] == rest;
      assert x[start..] == x[start..i] + x[i..i + |sep|] + x[i + |sep|..];
    }
  }

  /** No piece holds the separator. */
  lemma {:induction false} PiecesFree(x: Bytes, sep: Bytes, start: nat)
    requires sep != [] && start <= |x|
    ensures forall k :: 0 <= k < |Pieces(x, sep, start)| ==> Free(Pieces(x, sep, start)[k], sep)
    decreases |x| - start
  {
    hide Find;
    FindLeast(x, sep, start);
    match Find(x, sep, start)
    case None =>
      StretchFree(x, sep, start, |x|);
      assert x[start..|x|] == x[start..];
    case Some(i) =>
      PiecesStep(x, sep, start);
      StretchFree(x, sep, start, i);
      PiecesFree(x, sep, i + |sep|);
  }

  lemma SliceOfSlice(x: Bytes, a: nat, b: nat, i: nat, j: nat)
    requires a <= b <= |x| && i <= j <= b - a
    ensures x[a..b][i..j] == x[a + i..a + j]
  {
    var s, t := x[a..b][i..j], x[a + i..a + j];
    forall k | 0 <= k < j - i ensures s[k] == t[k] { assert x[a..b][i + k] == x[a + i + k]; }
    assert s == t;
  }

  lemma StretchFree(x: Bytes, sep: Bytes, start: nat, end: nat)
    requires sep != [] && start <= end <= |x| && forall j :: start <= j < end ==> !OccursAt(x, sep, j)
    ensures Free(x[start..end], sep)
  {
    var p := x[start..end];
    forall j: nat ensures !OccursAt(p, sep, j) {
      var at: nat := start + j;
      if j + |sep| <= |p| { SliceOfSlice(x, start, end, j, j + |sep|); }
      assert OccursAt(p, sep, j) ==> OccursAt(x, sep, at);
    }
  }

  /** A separator that cannot begin inside itself. */
  predicate LeadOnce(sep: Bytes) { sep != [] && sep[0] !in sep[1..] }

  /** The bytes of a character; what is no scalar value is written U+FFFD. */
  function Utf8(c: nat): Bytes {
    if c < 0x80 then [c]
    else if c < 0x800 then [0xC0 + c / 0x40, 0x80 + c % 0x40]
    else
      var s := if c > 0x10FFFF || 0xD800 <= c <= 0xDFFF then 0xFFFD else c;
      if s < 0x10000 then [0xE0 + s / 0x1000, 0x80 + s / 0x40 % 0x40, 0x80 + s % 0x40]
      else [0xF0 + s / 0x40000, 0x80 + s / 0x1000 % 0x40, 0x80 + s / 0x40 % 0x40, 0x80 + s % 0x40]
  }

  lemma CharactersLeadOnce(c: nat)
    ensures LeadOnce(Utf8(c)) && |Utf8(c)| <= 4 && forall k :: 0 <= k < |Utf8(c)| ==> Utf8(c)[k] < 256
  {
    var u := Utf8(c);
    forall k | 1 <= k < |u| ensures u[k] != u[0] {
    }
  }

  /** What a lead byte of `n` bytes begins at: as many ones from the top, then a zero. */
  function Mark(n: nat): nat
    requires 1 <= n <= 4
  {
    if n == 1 then 0 else if n == 2 then 0x100 - 0x40 else if n == 3 then 0x100 - 0x20 else 0x100 - 0x10
  }

  /** Six bits from each further byte. */
  function Further(high: int, rest: Bytes): int
    decreases |rest|
  {
    if rest == [] then high else Further(high * 0x40 + rest[0] - 0x80, rest[1..])
  }

  predicate Scalar(c: nat) { c <= 0x10FFFF && !(0xD800 <= c <= 0xDFFF) }

  /** The bytes spell the character as UTF-8 has it, in the fewest bytes that hold it:
      the number that the lead byte and the further bytes make up is the character, or
      U+FFFD for what is no scalar value. */
  lemma Utf8Spells(c: nat)
    ensures var u, s := Utf8(c), if Scalar(c) then c else 0xFFFD;
            && 1 <= |u| <= 4 && |u| == (if s < 0x80 then 1 else if s < 0x800 then 2 else if s < 0x10000 then 3 else 4)
            && Further(u[0] - Mark(|u|), u[1..]) == s
            && Mark(|u|) <= u[0] < 0x100 && (|u| < 4 ==> u[0] < if |u| == 1 then 0x80 else Mark(|u| + 1))
            && forall k :: 1 <= k < |u| ==> 0x80 <= u[k] < 0xC0
  {
    hide Further;
    var u, s := Utf8(c), if Scalar(c) then c else 0xFFFD;
    SixBits(s);
    if |u| == 1 {
      assert u[1..] == [];
      Once(s, 0, []);
    } else if |u| == 2 {
      assert u[1..] == [0x80 + s % 0x40];
    } else if |u| == 3 {
      assert u[1..] == [0x80 + s / 0x40 % 0x40] + [0x80 + s % 0x40];
    } else {
      assert u[1..] == [0x80 + s / 0x1000 % 0x40] + ([0x80 + s / 0x40 % 0x40] + [0x80 + s % 0x40]);
    }
  }

  /** Six bits at a time, from the low end up. */
  lemma SixBits(s: nat)
    ensures Further(s / 0x40, [0x80 + s % 0x40]) == s
    ensures Further(s / 0x1000, [0x80 + s / 0x40 % 0x40] + [0x80 + s % 0x40]) == s
    ensures Further(s / 0x40000, [0x80 + s / 0x1000 % 0x40] + ([0x80 + s / 0x40 % 0x40] + [0x80 + s % 0x40])) == s
  {
    hide Further;
    assert s / 0x40 == s / 0x1000 * 0x40 + s / 0x40 % 0x40;
    assert s / 0x1000 == s / 0x40000 * 0x40 + s / 0x1000 % 0x40;
    Once(s / 0x40, 0x80 + s % 0x40, []);
    Once(s, 0, []);
    Once(s / 0x1000, 0x80 + s / 0x40 % 0x40, [0x80 + s % 0x40]);
    Once(s / 0x40000, 0x80 + s / 0x1000 % 0x40, [0x80 + s / 0x40 % 0x40] + [0x80 + s % 0x40]);
  }

  lemma Once(high: int, b: nat, rest: Bytes)
    ensures Further(high, [b] + rest) == Further(high * 0x40 + b - 0x80, rest)
    ensures Further(high, []) == high && [b] + [] == [b]
  {
    assert ([b] + rest)[1..] == rest;
  }

  /** Joining pieces free of the separator puts its first occurrence right after
      the first of them. */
  lemma FirstAfterPiece(p: Bytes, sep: Bytes, rest: Bytes)
    requires LeadOnce(sep) && Free(p, sep)
    ensures Find(p + sep + rest, sep, 0) == Some(|p|)
  {
    hide Find;
    var x := p + sep + rest;
    assert x[|p|..|p| + |sep|] == sep;
    forall j | 0 <= j < |p| ensures !OccursAt(x, sep, j) {
      if j + |sep| <= |p| {
        assert x[j..j + |sep|] == p[j..j + |sep|] && !OccursAt(p, sep, j);
      } else {
        var k := |p| - j;
        assert x[j..j + |sep|][k] == x[|p|] == sep[0] && sep[1..][k - 1] == sep[k];
      }
    }
    FindIs(x, sep, 0, Some(|p|));
  }

  /** Pieces free of a character, joined by it and split on it, come back. */
  lemma {:induction false} SplitJoin(ps: seq<Bytes>, sep: Bytes)
    requires ps != [] && LeadOnce(sep) && forall k :: 0 <= k < |ps| ==> Free(ps[k], sep)
    ensures Pieces(Join(ps, sep), sep, 0) == ps
  {
    hide Find;
    var x := Join(ps, sep);
    if |ps| == 1 {
      FindIs(x, sep, 0, None);
      assert x[0..] == x;
    } else {
      var rest := Join(ps[1..], sep);
      FirstAfterPiece(ps[0], sep, rest);
      PiecesStep(x, sep, 0);
      assert x[0..|ps[0]|] == ps[0];
      PiecesShift(ps[0] + sep, rest, sep, 0);
      assert ps[0] + sep + rest == x;
      SplitJoin(ps[1..], sep);
      assert ps == [ps[0]] + ps[1..];
    }
  }

  /** What lies before the start does not matter. */
  lemma {:induction false} PiecesShift(pre: Bytes, x: Bytes, sep: Bytes, start: nat)
    requires sep != [] && start <= |x|
    ensures Pieces(pre + x, sep, |pre| + start) == Pieces(x, sep, start)
    decreases |x| - start
  {
    hide Find;
    FindShift(pre, x, sep, start);
    var long := pre + x;
    match Find(x, sep, start)
    case None => assert long[|pre| + start..] == x[start..];
    case Some(i) =>
      PiecesStep(x, sep, start);
      PiecesStep(long, sep, |pre| + start);
      PiecesShift(pre, x, sep, i + |sep|);
      assert long[|pre| + start..|pre| + i] == x[start..i];
  }

  lemma FindShift(pre: Bytes, x: Bytes, sep: Bytes, start: nat)
    ensures Find(pre + x, sep, |pre| + start)
      == match Find(x, sep, start) case None => None case Some(i) => Some(|pre| + i)
  {
    hide Find;
    var long := pre + x;
    FindLeast(x, sep, start);
    forall j: nat ensures OccursAt(long, sep, |pre| + j) == OccursAt(x, sep, j) {
      if j + |sep| <= |x| { assert long[|pre| + j..|pre| + j + |sep|] == x[j..j + |sep|]; }
    }
    match Find(x, sep, start)
    case None =>
      forall j | |pre| + start <= j ensures !OccursAt(long, sep, j) { assert !OccursAt(x, sep, j - |pre|); }
      FindIs(long, sep, |pre| + start, None);
    case Some(i) =>
      forall j | |pre| + start <= j < |pre| + i ensures !OccursAt(long, sep, j) { assert !OccursAt(x, sep, j - |pre|); }
      FindIs(long, sep, |pre| + start, Some(|pre| + i));
  }

  // ----------------------------------------------------------------------- replace

  /** Each occurrence of a non-empty `from`, left to right and not overlapping,
      for `to`; an empty one changes nothing. */
  method Replace(x: Bytes, from: Bytes, to: Bytes) returns (acc: Bytes)
    ensures acc == if from == [] then x else Join(Pieces(x, from, 0), to)
  {
    hide Find, Pieces;
    if |from| == 0 { return x; }
    acc := [];
    var done := 0;
    var i := StrFind(x, from, done);
    while i.Some?
      invariant done <= |x| && i == Find(x, from, done)
      invariant Join(Pieces(x, from, 0), to) == acc + Join(Pieces(x, from, done), to)
      decreases |x| - done
    {
      FindLeast(x, from, done);
      JoinStep(x, from, to, done);
      ghost var rest := Join(Pieces(x, from, i.value + |from|), to);
      assert acc + (x[done..i.value] + to + rest) == (acc + x[done..i.value] + to) + rest;
      acc := acc + x[done..i.value];
      acc := acc + to;
      done := i.value + |from|;
      i := StrFind(x, from, done);
    }
    JoinLast(x, from, to, done);
    acc := acc + x[done..];
  }

  lemma JoinStep(x: Bytes, from: Bytes, to: Bytes, done: nat)
    requires from != [] && done <= |x| && Find(x, from, done).Some?
    ensures done <= Find(x, from, done).value && Find(x, from, done).value + |from| <= |x|
    ensures Join(Pieces(x, from, done), to)
      == x[done..Find(x, from, done).value] + to + Join(Pieces(x, from, Find(x, from, done).value + |from|), to)
  {
    hide Find;
    PiecesStep(x, from, done);
    var i := Find(x, from, done).value;
    var rest := Pieces(x, from, i + |from|);
    JoinPieces(x, from, i + |from|);
    assert ([x[done..i]] + rest)[1..] == rest;
  }

  lemma JoinLast(x: Bytes, from: Bytes, to: Bytes, done: nat)
    requires from != [] && done <= |x| && Find(x, from, done) == None
    ensures Join(Pieces(x, from, done), to) == x[done..]
  {
  }

  /** Replacing something by itself changes nothing. */
  lemma ReplaceBySelf(x: Bytes, from: Bytes)
    requires from != []
    ensures Join(Pieces(x, from, 0), from) == x
  {
    JoinPieces(x, from, 0);
    assert x[0..] == x;
  }
}
