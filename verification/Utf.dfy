/**
 * UTF-8 (sections 3 and 4 of RFC 3629), UTF-16, and how their orders relate.
 *
 * Go compares strings byte by byte, JavaScript compares them code unit by code
 * unit, and `TextEncoder` turns code units into UTF-8 with every lone surrogate
 * replaced by U+FFFD.
 */
module Utf {
  import opened Bytes

  predicate IsScalar(s: int) { 0 <= s < 0xD800 || 0xE000 <= s < 0x11_0000 }

  type scalar = s: int | 0 <= s < 0xD800 || 0xE000 <= s < 0x11_0000
  type unit = u: int | 0 <= u < 0x1_0000

  // ---- UTF-8 -------------------------------------------------------------------

  function Encode8(s: scalar): (e: seq<byte>)
    ensures 1 <= |e| <= 4
  {
    var a := s / 0x40;
    var b := a / 0x40;
    if s < 0x80 then [s]
    else if s < 0x800 then [0xC0 + a, 0x80 + s % 0x40]
    else if s < 0x1_0000 then [0xE0 + b, 0x80 + a % 0x40, 0x80 + s % 0x40]
    else [0xF0 + b / 0x40, 0x80 + b % 0x40, 0x80 + a % 0x40, 0x80 + s % 0x40]
  }

  function Utf8(p: seq<scalar>): seq<byte> { Concat(Encode8, p) }

  /** Valid UTF-8 is exactly what encodes some sequence of scalar values. */
  ghost predicate Valid8(b: seq<byte>) { exists p :: Utf8(p) == b }

  predicate IsContinuation(b: byte) { 0x80 <= b < 0xC0 }

  /** The value a leading byte and its continuation bytes spell, with its width. */
  function First8(b: seq<byte>): (r: Option<(int, nat)>)
    ensures r.Some? ==> IsScalar(r.value.0) && 1 <= r.value.1 <= |b|
  {
    if b == [] then None
    else
      var b0: int := b[0];
      if b0 < 0x80 then Some((b0, 1))
      else if |b| < 2 || !IsContinuation(b[1]) then None
      else
        var b1: int := b[1] - 0x80;
        if 0xC2 <= b0 < 0xE0 then Some(((b0 - 0xC0) * 0x40 + b1, 2))
        else if |b| < 3 || !IsContinuation(b[2]) then None
        else
          var b2: int := b[2] - 0x80;
          if 0xE0 <= b0 < 0xF0 then
            var s := (b0 - 0xE0) * 0x1000 + b1 * 0x40 + b2;
            if s >= 0x800 && IsScalar(s) then Some((s, 3)) else None
          else if |b| < 4 || !IsContinuation(b[3]) || !(0xF0 <= b0 < 0xF5) then None
          else
            var b3: int := b[3] - 0x80;
            var s := (b0 - 0xF0) * 0x4_0000 + b1 * 0x1000 + b2 * 0x40 + b3;
            if 0x1_0000 <= s < 0x11_0000 then Some((s, 4)) else None
  }

  function FirstScalar(b: seq<byte>): Option<(scalar, nat)> {
    match First8(b)
    case None => None
    case Some((s, width)) => Some((s as scalar, width))
  }

  /** Read one value after the other, to the end. */
  function DecodeBy<T>(first: seq<byte> -> Option<(T, nat)>, b: seq<byte>): Option<seq<T>> {
    if b == [] then Some([])
    else match first(b)
      case None => None
      case Some((s, width)) => if 1 <= width <= |b| then Then(Some(s), DecodeBy(first, b[width..])) else None
  }

  function Decode8(b: seq<byte>): Option<seq<scalar>> { DecodeBy(FirstScalar, b) }

  lemma FirstOfEncoded(s: scalar, rest: seq<byte>)
    ensures First8(Encode8(s) + rest) == Some((s, |Encode8(s)|))
  {
    var e := Encode8(s);
    var b := e + rest;
    assert b[0] == e[0];
    var a: int := s / 0x40;
    var c: int := a / 0x40;
    if 0x80 <= s < 0x800 {
      assert b[1] == e[1];
    } else if 0x800 <= s < 0x1_0000 {
      assert b[1] == e[1] && b[2] == e[2];
      assert s == (c * 0x40 + a % 0x40) * 0x40 + s % 0x40;
    } else if 0x1_0000 <= s {
      assert b[1] == e[1] && b[2] == e[2] && b[3] == e[3];
      assert s == ((c / 0x40 * 0x40 + c % 0x40) * 0x40 + a % 0x40) * 0x40 + s % 0x40;
    }
  }

  /** The reader reads each written value, and knows where it ends. */
  ghost predicate ReadsWritten<T(!new)>(first: seq<byte> -> Option<(T, nat)>, write: T -> seq<byte>) {
    forall s, rest :: |write(s)| >= 1 && first(write(s) + rest) == Some((s, |write(s)|))
  }

  /** What the reader reads is what the writer writes for it. */
  ghost predicate WritesRead<T(!new)>(first: seq<byte> -> Option<(T, nat)>, write: T -> seq<byte>) {
    forall b :: first(b).Some? ==> first(b).value.1 <= |b| && write(first(b).value.0) == b[..first(b).value.1]
  }

  lemma {:induction false} DecodeUndoes<T(!new)>(first: seq<byte> -> Option<(T, nat)>, write: T -> seq<byte>, p: seq<T>)
    requires ReadsWritten(first, write)
    ensures DecodeBy(first, Concat(write, p)) == Some(p)
  {
    if p != [] {
      var e, rest := write(p[0]), Concat(write, p[1..]);
      ConcatFirst(write, p);
      assert first(e + rest) == Some((p[0], |e|)) && (e + rest)[|e|..] == rest;
      DecodeUndoes(first, write, p[1..]);
      assert [p[0]] + p[1..] == p;
    }
  }

  lemma {:induction false} DecodeIsUndone<T(!new)>(
    first: seq<byte> -> Option<(T, nat)>, write: T -> seq<byte>, b: seq<byte>)
    requires WritesRead(first, write) && DecodeBy(first, b).Some?
    ensures Concat(write, DecodeBy(first, b).value) == b
  {
    if b != [] {
      var (s, width) := first(b).value;
      var rest := DecodeBy(first, b[width..]).value;
      DecodeIsUndone(first, write, b[width..]);
      assert b == b[..width] + b[width..];
      ConcatPush(write, s, rest, b);
    }
  }

  lemma ConcatPush<T, U>(write: T -> seq<U>, s: T, rest: seq<T>, b: seq<U>)
    requires b == write(s) + Concat(write, rest)
    ensures Concat(write, [s] + rest) == b
  {
    var p := [s] + rest;
    ConcatFirst(write, p);
    assert p[1..] == rest;
  }

  /** Decoding undoes encoding, for every sequence of scalar values. */
  lemma Utf8RoundTrip(p: seq<scalar>)
    ensures Decode8(Utf8(p)) == Some(p)
  {
    forall s: scalar, rest: seq<byte>
      ensures |Encode8(s)| >= 1 && FirstScalar(Encode8(s) + rest) == Some((s, |Encode8(s)|))
    {
      FirstOfEncoded(s, rest);
    }
    assert ReadsWritten(FirstScalar, Encode8);
    DecodeUndoes(FirstScalar, Encode8, p);
  }

  lemma EncodeThree(x: int, y: int, z: int)
    requires 0 <= x < 0x10 && 0 <= y < 0x40 && 0 <= z < 0x40
    requires var s := x * 0x1000 + y * 0x40 + z; s >= 0x800 && IsScalar(s)
    ensures Encode8(x * 0x1000 + y * 0x40 + z) == [0xE0 + x, 0x80 + y, 0x80 + z]
  {
    Digits(x * 0x40 + y, z);
    Digits(x, y);
  }

  lemma EncodeFour(w: int, x: int, y: int, z: int)
    requires 0 <= w < 5 && 0 <= x < 0x40 && 0 <= y < 0x40 && 0 <= z < 0x40
    requires 0x1_0000 <= w * 0x4_0000 + x * 0x1000 + y * 0x40 + z < 0x11_0000
    ensures Encode8(w * 0x4_0000 + x * 0x1000 + y * 0x40 + z) == [0xF0 + w, 0x80 + x, 0x80 + y, 0x80 + z]
  {
    Digits((w * 0x40 + x) * 0x40 + y, z);
    Digits(w * 0x40 + x, y);
    Digits(w, x);
  }

  /** What `First8` reads is spelled the one way `Encode8` spells it: no overlong forms. */
  lemma EncodedOfFirst(b: seq<byte>)
    requires First8(b).Some?
    ensures var (s, width) := First8(b).value; Encode8(s) == b[..width]
  {
    var (s, width) := First8(b).value;
    if width == 2 {
      Digits(b[0] - 0xC0, b[1] - 0x80);
    } else if width == 3 {
      EncodeThree(b[0] - 0xE0, b[1] - 0x80, b[2] - 0x80);
    } else if width == 4 {
      EncodeFour(b[0] - 0xF0, b[1] - 0x80, b[2] - 0x80, b[3] - 0x80);
    }
  }

  lemma Digits(high: int, low: int)
    requires 0 <= low < 0x40
    ensures (high * 0x40 + low) / 0x40 == high && (high * 0x40 + low) % 0x40 == low
  {
  }

  lemma DecodedEncodes(b: seq<byte>)
    requires Decode8(b).Some?
    ensures Utf8(Decode8(b).value) == b
  {
    forall c: seq<byte> | FirstScalar(c).Some?
      ensures FirstScalar(c).value.1 <= |c| && Encode8(FirstScalar(c).value.0) == c[..FirstScalar(c).value.1]
    {
      EncodedOfFirst(c);
    }
    DecodeIsUndone(FirstScalar, Encode8, b);
  }

  /** The decoder accepts exactly the valid byte strings. */
  lemma DecodesExactly(b: seq<byte>)
    ensures Decode8(b).Some? <==> Valid8(b)
  {
    if Decode8(b).Some? { DecodedEncodes(b); }
    if Valid8(b) {
      var p :| Utf8(p) == b;
      Utf8RoundTrip(p);
    }
  }

  lemma Utf8IsInjective(p: seq<scalar>, q: seq<scalar>)
    requires Utf8(p) == Utf8(q)
    ensures p == q
  {
    Utf8RoundTrip(p);
    Utf8RoundTrip(q);
  }

  lemma Utf8Concat(p: seq<scalar>, q: seq<scalar>)
    ensures Utf8(p + q) == Utf8(p) + Utf8(q)
  {
    ConcatAppend(Encode8, p, q);
  }

  lemma {:induction false} AsciiIsItself(p: seq<scalar>)
    requires forall i :: 0 <= i < |p| ==> p[i] < 0x80
    ensures Utf8(p) == p && Utf16(p) == p
  {
    if p != [] {
      ConcatFirst(Encode8, p);
      ConcatFirst(Encode16, p);
      AsciiIsItself(p[1..]);
    }
  }

  // ---- UTF-16 ------------------------------------------------------------------

  predicate IsHigh(u: int) { 0xD800 <= u < 0xDC00 }
  predicate IsLow(u: int) { 0xDC00 <= u < 0xE000 }

  function Encode16(s: scalar): (e: seq<unit>)
    ensures 1 <= |e| <= 2
  {
    if s < 0x1_0000 then [s] else [0xD800 + (s - 0x1_0000) / 0x400, 0xDC00 + (s - 0x1_0000) % 0x400]
  }

  function Utf16(p: seq<scalar>): seq<unit> { Concat(Encode16, p) }

  /** The scalar values `TextEncoder` reads from a string, lone surrogates replaced. */
  function Scalars(u: seq<unit>): seq<scalar> {
    if u == [] then []
    else if IsHigh(u[0]) && |u| > 1 && IsLow(u[1]) then
      [0x1_0000 + (u[0] - 0xD800) * 0x400 + (u[1] - 0xDC00)] + Scalars(u[2..])
    else if IsHigh(u[0]) || IsLow(u[0]) then [0xFFFD] + Scalars(u[1..])
    else [u[0]] + Scalars(u[1..])
  }

  function TextEncode(u: seq<unit>): seq<byte> { Utf8(Scalars(u)) }

  /** A surrogate pair holds the value it was made from. */
  lemma PairHolds(s: scalar)
    requires s >= 0x1_0000
    ensures |Encode16(s)| == 2
    ensures var high: int, low: int := Encode16(s)[0], Encode16(s)[1];
      IsHigh(high) && IsLow(low) && 0x1_0000 + (high - 0xD800) * 0x400 + (low - 0xDC00) == s
  {
  }

  lemma ScalarsOfEncoded(s: scalar, u: seq<unit>)
    ensures Scalars(Encode16(s) + u) == [s] + Scalars(u)
  {
    var e := Encode16(s);
    assert (e + u)[0] == e[0] && (e + u)[|e|..] == u;
    if s >= 0x1_0000 {
      PairHolds(s);
      assert (e + u)[1] == e[1];
    }
  }

  lemma {:induction false} ScalarsOfPrefix(p: seq<scalar>, u: seq<unit>)
    ensures Scalars(Utf16(p) + u) == p + Scalars(u)
  {
    if p == [] {
      assert Utf16(p) + u == u;
    } else {
      ScalarsOfPrefix(p[1..], u);
      ConcatFirst(Encode16, p);
      ScalarsPush(p[0], p[1..], Utf16(p[1..]), u);
      assert [p[0]] + p[1..] == p;
    }
  }

  lemma ScalarsPush(s: scalar, p: seq<scalar>, encoded: seq<unit>, u: seq<unit>)
    requires Scalars(encoded + u) == p + Scalars(u)
    ensures Scalars(Encode16(s) + encoded + u) == [s] + p + Scalars(u)
  {
    ScalarsOfEncoded(s, encoded + u);
    Regroup(Scalars, Encode16(s), encoded, u, [s], p, Scalars(u));
  }

  /** Of any reading, by the associativity of concatenation on both sides. */
  lemma Regroup<T, U>(read: seq<U> -> seq<T>, e: seq<U>, encoded: seq<U>, u: seq<U>, s: seq<T>, p: seq<T>, rest: seq<T>)
    requires read(e + (encoded + u)) == s + read(encoded + u) && read(encoded + u) == p + rest
    ensures read(e + encoded + u) == s + p + rest
  {
    assert e + encoded + u == e + (encoded + u);
    assert s + p + rest == s + (p + rest);
  }

  lemma Utf16RoundTrip(p: seq<scalar>)
    ensures Scalars(Utf16(p)) == p
  {
    ScalarsOfPrefix(p, []);
    assert Utf16(p) + [] == Utf16(p);
  }

  lemma Utf16Concat(p: seq<scalar>, q: seq<scalar>)
    ensures Utf16(p + q) == Utf16(p) + Utf16(q)
  {
    ConcatAppend(Encode16, p, q);
  }

  /** U+0041, U+00E9, U+20AC and U+1F600, one of each width, as RFC 3629 and RFC 2781 write them. */
  lemma KnownEncodings()
    ensures Encode8(0x41) == [0x41] && Encode8(0xE9) == [0xC3, 0xA9] && Encode8(0x20AC) == [0xE2, 0x82, 0xAC]
    ensures Encode8(0x1F600) == [0xF0, 0x9F, 0x98, 0x80] && Encode16(0x1F600) == [0xD83D, 0xDE00]
    ensures Encode16(0x20AC) == [0x20AC]
  {
  }

  // ---- Order -------------------------------------------------------------------

  /** Lexicographic order: Go's `<` on bytes, JavaScript's `<` on code units. */
  predicate Less(a: seq<int>, b: seq<int>) {
    b != [] && (a == [] || a[0] < b[0] || (a[0] == b[0] && Less(a[1..], b[1..])))
  }

  lemma {:induction false} LessAfterPrefix(c: seq<int>, a: seq<int>, b: seq<int>)
    ensures Less(c + a, c + b) == Less(a, b)
  {
    if c == [] {
      assert c + a == a && c + b == b;
    } else {
      LessAfterPrefix(c[1..], a, b);
      assert (c + a)[1..] == c[1..] + a && (c + b)[1..] == c[1..] + b;
    }
  }

  /** Two words that differ at `i`, and agree before it, compare as their `i`-th letters do. */
  lemma {:induction false} LessAt(a: seq<int>, b: seq<int>, i: nat)
    requires i < |a| && i < |b| && a[..i] == b[..i] && a[i] < b[i]
    ensures Less(a, b) && !Less(b, a)
  {
    if i > 0 {
      assert a[..i][0] == b[..i][0];
      assert a[1..][..i - 1] == a[..i][1..] && b[1..][..i - 1] == b[..i][1..];
      LessAt(a[1..], b[1..], i - 1);
    }
  }

  /** The words agree before `k`, where the first ends, or has the smaller letter. */
  predicate FirstAt(a: seq<int>, b: seq<int>, k: int) {
    && 0 <= k <= |a| && k < |b| && a[..k] == b[..k] && (k == |a| || a[k] < b[k])
  }

  /** A word comes first if it is a proper prefix, or has the smaller letter at the first difference. */
  lemma {:induction false} LessExactly(a: seq<int>, b: seq<int>)
    ensures Less(a, b) <==> exists k :: FirstAt(a, b, k)
  {
    forall k | FirstAt(a, b, k) && k > 0
      ensures a[0] == b[0]
    {
      assert a[..k][0] == b[..k][0];
    }
    if b != [] && a == [] {
      assert FirstAt(a, b, 0);
    } else if b != [] && a[0] < b[0] {
      assert FirstAt(a, b, 0);
    } else if b != [] && a[0] == b[0] {
      LessExactly(a[1..], b[1..]);
      if k :| FirstAt(a[1..], b[1..], k) { FirstLater(a, b, k); }
      if k :| FirstAt(a, b, k) { FirstEarlier(a, b, k); }
    }
  }

  lemma FirstLater(a: seq<int>, b: seq<int>, k: int)
    requires a != [] && b != [] && a[0] == b[0] && FirstAt(a[1..], b[1..], k)
    ensures FirstAt(a, b, k + 1)
  {
    assert a[..k + 1] == [a[0]] + a[1..][..k] && b[..k + 1] == [b[0]] + b[1..][..k];
  }

  lemma FirstEarlier(a: seq<int>, b: seq<int>, k: int)
    requires a != [] && b != [] && a[0] == b[0] && FirstAt(a, b, k)
    ensures k > 0 && FirstAt(a[1..], b[1..], k - 1)
  {
    assert a[1..][..k - 1] == a[..k][1..] && b[1..][..k - 1] == b[..k][1..];
  }

  lemma {:induction false} LessIsTotal(a: seq<int>, b: seq<int>)
    ensures a == b || Less(a, b) || Less(b, a)
    ensures !(Less(a, b) && Less(b, a)) && !Less(a, a)
  {
    if a != [] {
      if b != [] && a[0] == b[0] {
        LessIsTotal(a[1..], b[1..]);
        assert a == [a[0]] + a[1..] && b == [b[0]] + b[1..];
      }
      LessIsTotal(a[1..], a[1..]);
    }
  }

  lemma {:induction false} LessIsTransitive(a: seq<int>, b: seq<int>, c: seq<int>)
    requires Less(a, b) && Less(b, c)
    ensures Less(a, c)
  {
    if a != [] && a[0] == b[0] && b[0] == c[0] { LessIsTransitive(a[1..], b[1..], c[1..]); }
  }

  /** The first place where two encodings differ. */
  ghost predicate DifferAt(a: seq<int>, b: seq<int>, i: int) {
    0 <= i < |a| && i < |b| && a[..i] == b[..i] && a[i] < b[i]
  }

  lemma ShorterDiffers(x: scalar, y: scalar)
    requires |Encode8(x)| < |Encode8(y)|
    ensures DifferAt(Encode8(x), Encode8(y), 0)
  {
  }

  lemma TwoDiffer(x: scalar, y: scalar)
    requires 0x80 <= x < y < 0x800
    ensures DifferAt(Encode8(x), Encode8(y), if x / 0x40 < y / 0x40 then 0 else 1)
  {
  }

  lemma ThreeDiffer(x: scalar, y: scalar)
    requires 0x800 <= x < y < 0x1_0000
    ensures var a, b := x / 0x40, y / 0x40;
      DifferAt(Encode8(x), Encode8(y), if a / 0x40 < b / 0x40 then 0 else if a < b then 1 else 2)
  {
  }

  lemma FourDiffer(x: scalar, y: scalar)
    requires 0x1_0000 <= x < y
    ensures var a, b := x / 0x40, y / 0x40;
      var c, d := a / 0x40, b / 0x40;
      DifferAt(Encode8(x), Encode8(y), if c / 0x40 < d / 0x40 then 0 else if c < d then 1 else if a < b then 2 else 3)
  {
  }

  lemma Encode8Differs(x: scalar, y: scalar) returns (i: nat)
    requires x < y
    ensures DifferAt(Encode8(x), Encode8(y), i)
  {
    var a, b := x / 0x40, y / 0x40;
    var c, d := a / 0x40, b / 0x40;
    if |Encode8(x)| < |Encode8(y)| {
      ShorterDiffers(x, y);
      i := 0;
    } else if y < 0x80 {
      i := 0;
    } else if y < 0x800 {
      TwoDiffer(x, y);
      i := if a < b then 0 else 1;
    } else if y < 0x1_0000 {
      ThreeDiffer(x, y);
      i := if c < d then 0 else if a < b then 1 else 2;
    } else {
      FourDiffer(x, y);
      i := if c / 0x40 < d / 0x40 then 0 else if c < d then 1 else if a < b then 2 else 3;
    }
  }

  lemma Encode8KeepsOrder(x: scalar, y: scalar, a: seq<byte>, b: seq<byte>)
    requires x < y
    ensures Less(Encode8(x) + a, Encode8(y) + b) && !Less(Encode8(y) + b, Encode8(x) + a)
  {
    var e, f := Encode8(x), Encode8(y);
    var i := Encode8Differs(x, y);
    assert (e + a)[..i] == e[..i] && (f + b)[..i] == f[..i];
    LessAt(e + a, f + b, i);
  }

  /** UTF-8 byte order is code-point order (section 1 of RFC 3629). */
  lemma {:induction false} Utf8KeepsOrder(p: seq<scalar>, q: seq<scalar>)
    ensures Less(Utf8(p), Utf8(q)) == Less(p, q)
  {
    if p != [] { ConcatFirst(Encode8, p); }
    if q != [] { ConcatFirst(Encode8, q); }
    if p != [] && q != [] {
      if p[0] == q[0] {
        Utf8KeepsOrder(p[1..], q[1..]);
        LessAfterPrefix(Encode8(p[0]), Utf8(p[1..]), Utf8(q[1..]));
      } else if p[0] < q[0] {
        Encode8KeepsOrder(p[0], q[0], Utf8(p[1..]), Utf8(q[1..]));
      } else {
        Encode8KeepsOrder(q[0], p[0], Utf8(q[1..]), Utf8(p[1..]));
      }
    }
  }

  predicate IsAstral(s: scalar) { s >= 0x1_0000 }
  predicate IsHighBmp(s: scalar) { 0xE000 <= s < 0x1_0000 }

  /**
   * The first difference sets a supplementary code point against one of
   * U+E000..U+FFFF: the one case where code-unit order is not code-point order,
   * since a surrogate pair starts below U+E000.
   */
  predicate Inverted(p: seq<scalar>, q: seq<scalar>) {
    && p != [] && q != []
    && if p[0] == q[0] then Inverted(p[1..], q[1..])
       else (IsAstral(p[0]) && IsHighBmp(q[0])) || (IsHighBmp(p[0]) && IsAstral(q[0]))
  }

  lemma Encode16Order(x: scalar, y: scalar, a: seq<unit>, b: seq<unit>)
    requires x != y
    ensures Less(Encode16(x) + a, Encode16(y) + b)
        == ((x < y) != ((IsAstral(x) && IsHighBmp(y)) || (IsHighBmp(x) && IsAstral(y))))
  {
    var e, f := Encode16(x), Encode16(y);
    if e[0] < f[0] {
      LessAt(e + a, f + b, 0);
    } else if f[0] < e[0] {
      LessAt(f + b, e + a, 0);
    } else if e[1] < f[1] {
      LessAt(e + a, f + b, 1);
    } else {
      LessAt(f + b, e + a, 1);
    }
  }

  /** Code-unit order is code-point order exactly when the pair is not inverted. */
  lemma {:induction false} Utf16Order(p: seq<scalar>, q: seq<scalar>)
    requires p != q
    ensures Less(Utf16(p), Utf16(q)) == (Less(p, q) != Inverted(p, q))
  {
    if p != [] { ConcatFirst(Encode16, p); }
    if q != [] { ConcatFirst(Encode16, q); }
    if p != [] && q != [] {
      if p[0] == q[0] {
        assert p == [p[0]] + p[1..] && q == [q[0]] + q[1..];
        Utf16Order(p[1..], q[1..]);
        LessAfterPrefix(Encode16(p[0]), Utf16(p[1..]), Utf16(q[1..]));
      } else {
        Encode16Order(p[0], q[0], Utf16(p[1..]), Utf16(q[1..]));
      }
    }
  }

  lemma {:induction false} InvertedIsSymmetric(p: seq<scalar>, q: seq<scalar>)
    ensures Inverted(p, q) == Inverted(q, p)
  {
    if p != [] && q != [] && p[0] == q[0] { InvertedIsSymmetric(p[1..], q[1..]); }
  }

  lemma {:induction false} NoInversionInBmp(p: seq<scalar>, q: seq<scalar>)
    requires forall i :: 0 <= i < |p| ==> !IsAstral(p[i])
    requires forall i :: 0 <= i < |q| ==> !IsAstral(q[i])
    ensures !Inverted(p, q)
  {
    if p != [] && q != [] && p[0] == q[0] { NoInversionInBmp(p[1..], q[1..]); }
  }
}
