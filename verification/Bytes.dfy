/** Bytes, the option type, and the small functions the other modules share. */
module Bytes {
  type byte = b: int | 0 <= b < 256

  datatype Option<+T> = None | Some(value: T)

  function Find<T>(m: map<string, T>, key: string): Option<T> { if key in m then Some(m[key]) else None }

  function Min(a: int, b: int): int { if a < b then a else b }
  function Max(a: int, b: int): int { if a < b then b else a }

  function LowerChar(c: char): char { if 'A' <= c <= 'Z' then c - 'A' + 'a' else c }

  function AsciiLower(s: string): string { seq(|s|, i requires 0 <= i < |s| => LowerChar(s[i])) }

  /** ASCII white space. */
  predicate IsSpaceCode(n: int) { n == 0x20 || 0x09 <= n <= 0x0D }

  function TrimLeft<T>(p: T -> bool, s: seq<T>): seq<T> { if s != [] && p(s[0]) then TrimLeft(p, s[1..]) else s }

  function TrimRight<T>(p: T -> bool, s: seq<T>): seq<T> {
    if s != [] && p(s[|s| - 1]) then TrimRight(p, s[..|s| - 1]) else s
  }

  /** The parts between the separators: one more than there are separators. */
  function Split<T(==)>(s: seq<T>, sep: T): (parts: seq<seq<T>>)
    ensures parts != []
  {
    if s == [] then [[]]
    else
      var rest := Split(s[1..], sep);
      if s[0] == sep then [[]] + rest else [[s[0]] + rest[0]] + rest[1..]
  }

  function Join<T>(parts: seq<seq<T>>, sep: seq<T>): seq<T> {
    if parts == [] then [] else if |parts| == 1 then parts[0] else parts[0] + sep + Join(parts[1..], sep)
  }

  lemma {:induction false} JoinOfSplit<T>(s: seq<T>, sep: T)
    ensures Join(Split(s, sep), [sep]) == s
    ensures forall i :: 0 <= i < |Split(s, sep)| ==> sep !in Split(s, sep)[i]
  {
    if s != [] {
      JoinOfSplit(s[1..], sep);
      var rest := Split(s[1..], sep);
      if s[0] == sep {
        assert ([[]] + rest)[1..] == rest;
        assert [] + [sep] + s[1..] == s;
      } else {
        JoinGrows(s[0], rest, sep);
        assert [s[0]] + s[1..] == s;
      }
    }
  }

  lemma {:induction false} SplitAt<T>(a: seq<T>, sep: T, b: seq<T>)
    ensures Split(a + [sep] + b, sep) == Split(a, sep) + Split(b, sep)
  {
    var s := a + [sep] + b;
    if a == [] {
      assert s[1..] == b;
    } else {
      assert s[1..] == a[1..] + [sep] + b;
      SplitAt(a[1..], sep, b);
    }
  }

  lemma JoinGrows<T>(b: T, parts: seq<seq<T>>, sep: T)
    requires parts != []
    ensures Join([[b] + parts[0]] + parts[1..], [sep]) == [b] + Join(parts, [sep])
  {
    assert ([[b] + parts[0]] + parts[1..])[1..] == parts[1..];
  }

  lemma {:induction false} SplitOnePart<T>(s: seq<T>, sep: T)
    requires sep !in s
    ensures Split(s, sep) == [s]
  {
    if s != [] {
      SplitOnePart(s[1..], sep);
      assert [s[0]] + s[1..] == s;
    }
  }

  /** The concatenation of a list of chunks. */
  function Flatten<T>(chunks: seq<seq<T>>): seq<T> {
    if chunks == [] then [] else Flatten(chunks[..|chunks| - 1]) + chunks[|chunks| - 1]
  }

  lemma {:induction false} FlattenConcat<T>(a: seq<seq<T>>, b: seq<seq<T>>)
    ensures Flatten(a + b) == Flatten(a) + Flatten(b)
  {
    if b == [] {
      assert a + b == a;
    } else {
      FlattenConcat(a, b[..|b| - 1]);
      assert (a + b)[..|a + b| - 1] == a + b[..|b| - 1];
    }
  }

  /** What `f` writes for each element, one after the other. */
  function Concat<T, U>(f: T -> seq<U>, xs: seq<T>): seq<U> {
    if xs == [] then [] else Concat(f, xs[..|xs| - 1]) + f(xs[|xs| - 1])
  }

  lemma {:induction false} ConcatSplit<T, U>(f: T -> seq<U>, xs: seq<T>, i: nat)
    requires i <= |xs|
    ensures Concat(f, xs) == Concat(f, xs[..i]) + Concat(f, xs[i..])
  {
    var n := |xs| - 1;
    if i == |xs| {
      assert xs[..i] == xs;
    } else {
      ConcatSplit(f, xs[..n], i);
      assert xs[..n][..i] == xs[..i] && xs[..n][i..] == xs[i..][..n - i];
      assert xs[i..][n - i] == xs[n];
    }
  }

  /** The part written for element `i` stands right after the parts written before it. */
  lemma ConcatAt<T, U>(f: T -> seq<U>, xs: seq<T>, i: nat)
    requires i < |xs|
    ensures Concat(f, xs) == Concat(f, xs[..i]) + f(xs[i]) + Concat(f, xs[i + 1..])
    ensures Concat(f, xs[..i + 1]) == Concat(f, xs[..i]) + f(xs[i])
  {
    ConcatSplit(f, xs, i + 1);
    assert xs[..i + 1][..i] == xs[..i];
  }

  lemma ConcatFirst<T, U>(f: T -> seq<U>, xs: seq<T>)
    requires xs != []
    ensures Concat(f, xs) == f(xs[0]) + Concat(f, xs[1..])
  {
    ConcatAt(f, xs, 0);
    assert xs[..0] == [];
  }

  lemma ConcatCons<T, U>(f: T -> seq<U>, x: T, xs: seq<T>)
    ensures Concat(f, [x] + xs) == f(x) + Concat(f, xs)
  {
    ConcatFirst(f, [x] + xs);
    assert ([x] + xs)[1..] == xs;
  }

  lemma ConcatOne<T, U>(f: T -> seq<U>, x: T)
    ensures Concat(f, [x]) == f(x)
  {
    var one := [x];
    ConcatFirst(f, one);
    assert one[1..] == [] && f(x) + [] == f(x);
  }

  lemma {:induction false} ConcatOfConcat<T, U, V>(f: T -> seq<U>, g: U -> seq<V>, h: T -> seq<V>, xs: seq<T>)
    requires forall x :: x in xs ==> h(x) == Concat(g, f(x))
    ensures Concat(g, Concat(f, xs)) == Concat(h, xs)
  {
    if xs != [] {
      var n := |xs| - 1;
      assert forall x :: x in xs[..n] ==> x in xs;
      ConcatOfConcat(f, g, h, xs[..n]);
      ConcatAppend(g, Concat(f, xs[..n]), f(xs[n]));
      assert xs[n] in xs;
    }
  }

  /** `f` of every element, or nothing if `f` refuses one of them. */
  function Traverse<T, U>(f: T -> Option<U>, xs: seq<T>): Option<seq<U>> {
    if xs == [] then Some([])
    else Then(f(xs[0]), Traverse(f, xs[1..]))
  }

  function Then<T>(x: Option<T>, rest: Option<seq<T>>): Option<seq<T>> {
    if x.Some? && rest.Some? then Some([x.value] + rest.value) else None
  }

  lemma {:induction false} TraverseAll<T, U>(f: T -> Option<U>, xs: seq<T>, ys: seq<U>)
    requires |xs| == |ys| && forall i :: 0 <= i < |xs| ==> f(xs[i]) == Some(ys[i])
    ensures Traverse(f, xs) == Some(ys)
  {
    if xs != [] {
      TraverseAll(f, xs[1..], ys[1..]);
      assert ys == [ys[0]] + ys[1..];
    }
  }

  lemma {:induction false} TraverseAt<T, U>(f: T -> Option<U>, xs: seq<T>)
    requires Traverse(f, xs).Some?
    ensures |Traverse(f, xs).value| == |xs|
    ensures forall i :: 0 <= i < |xs| ==> f(xs[i]) == Some(Traverse(f, xs).value[i])
  {
    if xs != [] { TraverseAt(f, xs[1..]); }
  }

  lemma ConcatAppend<T, U>(f: T -> seq<U>, a: seq<T>, b: seq<T>)
    ensures Concat(f, a + b) == Concat(f, a) + Concat(f, b)
  {
    ConcatSplit(f, a + b, |a|);
    assert (a + b)[..|a|] == a && (a + b)[|a|..] == b;
  }
}
