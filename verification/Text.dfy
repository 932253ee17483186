/**
 * Go strings: sequences of bytes that may or may not be UTF-8. White space and letter case
 * are those of ASCII.
 */
module Text {
  import opened Bytes
  import opened Utf

  type text = seq<byte>

  const NEWLINE: byte := 0x0A
  const RETURN: byte := 0x0D

  /** An ASCII literal. */
  function Ascii(s: string): (t: text)
    ensures |t| == |s|
  {
    seq(|s|, i requires 0 <= i < |s| => s[i] as int % 0x80)
  }

  // ---- Valid UTF-8 -------------------------------------------------------------

  lemma ValidConcat(a: text, b: text)
    requires Valid8(a) && Valid8(b)
    ensures Valid8(a + b)
  {
    var p :| Utf8(p) == a;
    var q :| Utf8(q) == b;
    Utf8Concat(p, q);
  }

  lemma {:induction false} AsciiIsValid(s: text)
    requires forall i :: 0 <= i < |s| ==> s[i] < 0x80
    ensures Valid8(s)
  {
    var p := seq(|s|, i requires 0 <= i < |s| => s[i] as scalar);
    AsciiIsItself(p);
    assert p == s;
  }

  lemma EncodingStarts(s: scalar)
    ensures var e := Encode8(s);
      && !IsContinuation(e[0]) && (forall i :: 1 <= i < |e| ==> IsContinuation(e[i]))
      && (e[0] < 0x80 <==> |e| == 1)
  {
  }

  lemma OneIsValid(s: scalar)
    ensures Valid8(Encode8(s))
  {
    var p := [s];
    ConcatFirst(Encode8, p);
    assert Utf8(p) == Encode8(s);
  }

  /** A cut past the first character is a cut of what follows it. */
  lemma CutAfter(e: text, rest: text, cut: nat)
    requires Valid8(e) && |e| <= cut <= |e + rest|
    requires Valid8(rest[..cut - |e|]) && Valid8(rest[cut - |e|..])
    ensures Valid8((e + rest)[..cut]) && Valid8((e + rest)[cut..])
  {
    ValidConcat(e, rest[..cut - |e|]);
    assert (e + rest)[..cut] == e + rest[..cut - |e|];
    assert (e + rest)[cut..] == rest[cut - |e|..];
  }

  /** No character starts inside the first one. */
  lemma StartsAfter(s: scalar, rest: text, cut: nat)
    requires 0 < cut <= |Encode8(s) + rest|
    requires cut < |Encode8(s) + rest| ==> !IsContinuation((Encode8(s) + rest)[cut])
    ensures cut >= |Encode8(s)|
    ensures cut - |Encode8(s)| < |rest| ==> !IsContinuation(rest[cut - |Encode8(s)|])
  {
    EncodingStarts(s);
  }

  lemma {:induction false} CutEncoded(p: seq<scalar>, cut: nat)
    requires cut <= |Utf8(p)| && (cut < |Utf8(p)| ==> !IsContinuation(Utf8(p)[cut]))
    ensures Valid8(Utf8(p)[..cut]) && Valid8(Utf8(p)[cut..])
  {
    if cut == 0 {
      AsciiIsValid(Utf8(p)[..0]);
      assert Utf8(p)[0..] == Utf8(p);
    } else {
      ConcatFirst(Encode8, p);
      OneIsValid(p[0]);
      StartsAfter(p[0], Utf8(p[1..]), cut);
      CutEncoded(p[1..], cut - |Encode8(p[0])|);
      CutAfter(Encode8(p[0]), Utf8(p[1..]), cut);
    }
  }

  /** Valid text may be cut wherever a character starts. */
  lemma CutIsValid(s: text, cut: nat)
    requires Valid8(s) && cut <= |s| && (cut < |s| ==> !IsContinuation(s[cut]))
    ensures Valid8(s[..cut]) && Valid8(s[cut..])
  {
    var p :| Utf8(p) == s;
    CutEncoded(p, cut);
  }

  lemma DropAscii(s: text)
    requires Valid8(s) && s != [] && s[0] < 0x80
    ensures Valid8(s[1..])
  {
    var p :| Utf8(p) == s;
    ConcatFirst(Encode8, p);
    EncodingStarts(p[0]);
    assert s[1..] == Utf8(p[1..]);
  }

  /** An ASCII byte separates valid text into valid pieces. */
  lemma SplitIsValid(a: text, c: byte, b: text)
    requires c < 0x80 && Valid8(a + [c] + b)
    ensures Valid8(a) && Valid8(b)
  {
    var s := a + [c] + b;
    CutIsValid(s, |a|);
    assert s[..|a|] == a;
    var tail := s[|a|..];
    assert tail[0] == c && tail[1..] == b;
    DropAscii(tail);
  }

  lemma {:induction false} StartNearEncoded(p: seq<scalar>, at: nat)
    requires at < |Utf8(p)|
    ensures exists d :: 0 <= d <= at <= d + 3 && !IsContinuation(Utf8(p)[d])
  {
    var s, e, rest := Utf8(p), Encode8(p[0]), Utf8(p[1..]);
    ConcatFirst(Encode8, p);
    EncodingStarts(p[0]);
    assert s == e + rest;
    if at < |e| {
      assert !IsContinuation(s[0]);
    } else {
      StartNearEncoded(p[1..], at - |e|);
      var d :| 0 <= d <= at - |e| <= d + 3 && !IsContinuation(rest[d]);
      assert s[d + |e|] == rest[d];
    }
  }

  /** In valid text no character is longer than four bytes. */
  lemma StartIsNear(s: text, at: nat)
    requires Valid8(s) && at < |s|
    ensures exists d :: 0 <= d <= at <= d + 3 && !IsContinuation(s[d])
  {
    var p :| Utf8(p) == s;
    StartNearEncoded(p, at);
  }

  // ---- White space -------------------------------------------------------------

  predicate IsSpace(b: byte) { IsSpaceCode(b) }

  function TrimSpace(s: text): text { TrimRight(IsSpace, TrimLeft(IsSpace, s)) }

  predicate Blank(s: text) { TrimSpace(s) == [] }

  predicate AllSpace(s: text) { forall i :: 0 <= i < |s| ==> IsSpace(s[i]) }

  lemma {:induction false} TrimLeftKeeps(s: text)
    ensures Valid8(s) ==> Valid8(TrimLeft(IsSpace, s))
    ensures AllSpace(s) <==> TrimLeft(IsSpace, s) == []
    ensures TrimLeft(IsSpace, s) != [] ==> !IsSpace(TrimLeft(IsSpace, s)[0])
  {
    if s != [] && IsSpace(s[0]) {
      if Valid8(s) { DropAscii(s); }
      TrimLeftKeeps(s[1..]);
      assert s == [s[0]] + s[1..];
    }
  }

  lemma {:induction false} TrimRightKeeps(s: text)
    ensures Valid8(s) ==> Valid8(TrimRight(IsSpace, s))
    ensures TrimRight(IsSpace, s) <= s
    ensures s != [] && !IsSpace(s[0]) ==> TrimRight(IsSpace, s) != []
    ensures AllSpace(s) ==> TrimRight(IsSpace, s) == []
  {
    if s != [] && IsSpace(s[|s| - 1]) {
      if Valid8(s) { CutIsValid(s, |s| - 1); }
      TrimRightKeeps(s[..|s| - 1]);
    }
  }

  /** Text is blank exactly when all of it is white space. */
  lemma BlankExactly(s: text)
    ensures Blank(s) <==> AllSpace(s)
  {
    TrimLeftKeeps(s);
    TrimRightKeeps(TrimLeft(IsSpace, s));
  }

  lemma TrimIsValid(s: text)
    ensures Valid8(s) ==> Valid8(TrimSpace(s))
    ensures !Blank(s) ==> !Blank(TrimSpace(s))
  {
    TrimLeftKeeps(s);
    TrimRightKeeps(TrimLeft(IsSpace, s));
    if !Blank(s) {
      var t := TrimSpace(s);
      assert t[0] == TrimLeft(IsSpace, s)[0];
      BlankExactly(t);
    }
  }

  lemma {:induction false} TrimLeftDrops(s: text)
    ensures |TrimLeft(IsSpace, s)| <= |s|
    ensures var n := |s| - |TrimLeft(IsSpace, s)|; AllSpace(s[..n]) && s[n..] == TrimLeft(IsSpace, s)
  {
    if s != [] && IsSpace(s[0]) {
      TrimLeftDrops(s[1..]);
      var n := |s| - |TrimLeft(IsSpace, s)|;
      assert s[..n] == [s[0]] + s[1..][..n - 1] && s[n..] == s[1..][n - 1..];
    }
  }

  lemma {:induction false} TrimRightDrops(s: text)
    ensures TrimRight(IsSpace, s) <= s && AllSpace(s[|TrimRight(IsSpace, s)|..])
    ensures var t := TrimRight(IsSpace, s); t != [] ==> !IsSpace(t[|t| - 1])
  {
    if s != [] && IsSpace(s[|s| - 1]) {
      var front := s[..|s| - 1];
      TrimRightDrops(front);
      var n := |TrimRight(IsSpace, s)|;
      assert s[n..] == front[n..] + [s[|s| - 1]];
    }
  }

  /** The white space is the six ASCII ones. */
  lemma SpacesAre(c: byte)
    ensures IsSpace(c) <==> c == 9 || c == 10 || c == 11 || c == 12 || c == 13 || c == 32
  {
  }

  /** Trimming drops white space at both ends, all of it, and nothing else. */
  lemma TrimExactly(s: text) returns (from: nat, to: nat)
    ensures from <= to <= |s| && TrimSpace(s) == s[from..to] && AllSpace(s[..from]) && AllSpace(s[to..])
    ensures from < to ==> !IsSpace(s[from]) && !IsSpace(s[to - 1])
  {
    var t := TrimLeft(IsSpace, s);
    TrimLeftDrops(s);
    TrimLeftKeeps(s);
    TrimRightDrops(t);
    from := |s| - |t|;
    to := from + |TrimSpace(s)|;
    TrimmedSlice(s, t, TrimSpace(s), from);
  }

  lemma TrimmedSlice(s: text, t: text, u: text, from: nat)
    requires from <= |s| && t == s[from..] && u <= t
    ensures var to := from + |u|; to <= |s| && u == s[from..to] && t[|u|..] == s[to..]
    ensures |u| > 0 ==> s[from] == t[0] == u[0] && s[from + |u| - 1] == u[|u| - 1]
  {
  }

  lemma {:induction false} TrimSkipsSpace(a: text, s: text)
    requires AllSpace(a)
    ensures TrimSpace(a + s) == TrimSpace(s)
  {
    if a == [] {
      assert a + s == s;
    } else {
      assert (a + s)[1..] == a[1..] + s;
      TrimSkipsSpace(a[1..], s);
    }
  }

  // ---- Lines -------------------------------------------------------------------

  lemma {:induction false} JoinedAreValid(parts: seq<text>, sep: byte)
    requires sep < 0x80 && Valid8(Join(parts, [sep]))
    ensures forall i :: 0 <= i < |parts| ==> Valid8(parts[i])
  {
    if |parts| > 1 {
      SplitIsValid(parts[0], sep, Join(parts[1..], [sep]));
      JoinedAreValid(parts[1..], sep);
    }
  }

  lemma SplitPartsAreValid(s: text, sep: byte)
    requires sep < 0x80 && Valid8(s)
    ensures forall i :: 0 <= i < |Split(s, sep)| ==> Valid8(Split(s, sep)[i])
  {
    JoinOfSplit(s, sep);
    JoinedAreValid(Split(s, sep), sep);
  }

  lemma {:induction false} JoinIsValid(parts: seq<text>, sep: text)
    requires Valid8(sep) && forall i :: 0 <= i < |parts| ==> Valid8(parts[i])
    ensures Valid8(Join(parts, sep))
  {
    if parts == [] {
      AsciiIsValid([]);
    } else if |parts| > 1 {
      JoinIsValid(parts[1..], sep);
      ValidConcat(parts[0], sep);
      ValidConcat(parts[0] + sep, Join(parts[1..], sep));
    }
  }

  lemma {:induction false} JoinSnoc(parts: seq<text>, last: text, sep: text)
    ensures Join(parts + [last], sep) == if parts == [] then last else Join(parts, sep) + sep + last
  {
    if parts != [] {
      assert (parts + [last])[1..] == parts[1..] + [last];
      JoinSnoc(parts[1..], last, sep);
      if |parts| > 1 {
        var head, rest := parts[0] + sep, Join(parts[1..], sep);
        assert head + (rest + sep + last) == head + rest + sep + last;
      }
    }
  }

  /** Every carriage return before a newline goes. */
  function Unix(s: text): text {
    if s == [] then []
    else if |s| > 1 && s[0] == RETURN && s[1] == NEWLINE then [NEWLINE] + Unix(s[2..])
    else [s[0]] + Unix(s[1..])
  }

  /** A carriage return and a newline stand at `i`. */
  predicate PairAt(s: text, i: int) { 0 <= i < |s| - 1 && s[i] == 0x0D && s[i + 1] == 0x0A }

  /** Text without such a pair is left alone. */
  lemma {:induction false} UnixKeeps(s: text)
    requires forall i :: 0 <= i < |s| ==> !PairAt(s, i)
    ensures Unix(s) == s
  {
    if s != [] {
      assert !PairAt(s, 0);
      forall i | 0 <= i < |s| - 1 ensures !PairAt(s[1..], i) { assert !PairAt(s, i + 1); }
      UnixKeeps(s[1..]);
    }
  }

  /** And one anywhere becomes a newline. */
  lemma {:induction false} UnixJoins(a: text, b: text)
    requires forall i :: 0 <= i < |a| ==> !PairAt(a, i)
    ensures Unix(a + [0x0D, 0x0A] + b) == a + [0x0A] + Unix(b)
  {
    var s := a + [0x0D, 0x0A] + b;
    if a == [] {
      assert s[2..] == b;
    } else {
      assert !PairAt(a, 0);
      forall i | 0 <= i < |a| - 1 ensures !PairAt(a[1..], i) { assert !PairAt(a, i + 1); }
      UnixJoins(a[1..], b);
      assert s[1..] == a[1..] + [0x0D, 0x0A] + b && s[0] == a[0];
    }
  }

  lemma {:induction false} UnixSkips(e: text, s: text)
    requires RETURN !in e
    ensures Unix(e + s) == e + Unix(s)
  {
    if e == [] {
      assert e + s == s;
    } else {
      assert (e + s)[1..] == e[1..] + s;
      UnixSkips(e[1..], s);
    }
  }

  lemma UnixStep(s: scalar, rest: text)
    requires s != RETURN || rest == [] || rest[0] != NEWLINE
    ensures Unix(Encode8(s) + rest) == Encode8(s) + Unix(rest)
  {
    var e := Encode8(s);
    if s == RETURN {
      assert (e + rest)[1..] == rest;
    } else {
      EncodingStarts(s);
      UnixSkips(e, rest);
    }
  }

  lemma {:induction false} UnixIsValid(p: seq<scalar>)
    ensures Valid8(Unix(Utf8(p)))
  {
    if p == [] {
      AsciiIsValid([]);
    } else {
      var e, rest := Encode8(p[0]), Utf8(p[1..]);
      ConcatFirst(Encode8, p);
      UnixIsValid(p[1..]);
      if p[0] == RETURN && rest != [] && rest[0] == NEWLINE {
        assert Utf8(p)[1..] == rest && Utf8(p)[2..] == rest[1..];
        assert Unix(rest) == [NEWLINE] + Unix(rest[1..]);
      } else {
        UnixStep(p[0], rest);
        OneIsValid(p[0]);
        ValidConcat(e, Unix(rest));
      }
    }
  }
}
