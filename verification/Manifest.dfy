/**
 * The whole-deploy digest of internal/manifest/manifest.go (Go) and of
 * apps/dashboard/lib/deploy-manifest.ts (TypeScript): both hash one line per file,
 * but Go sorts paths by UTF-8 bytes and TypeScript sorts them by UTF-16 code units.
 *
 * SHA-256 is left abstract: everything here is about the bytes that are hashed.
 * `sort.Slice` and `Array.prototype.sort` promise some ordered permutation, so the
 * results hold for every ordered permutation.
 */
module Manifest {
  import opened Bytes
  import opened Utf
  import opened Sorting

  datatype File = File(path: seq<scalar>, sha: seq<scalar>)

  const SPACE := 0x20
  const NEWLINE := 0x0A

  function GoKey(f: File): seq<int> { Utf8(f.path) }
  function TsKey(f: File): seq<int> { Utf16(f.path) }

  // ---- The two pre-images ------------------------------------------------------

  function GoLine(f: File): seq<byte> { Utf8(f.sha) + [SPACE, SPACE] + Utf8(f.path) + [NEWLINE] }
  function TsLine(f: File): seq<unit> { Utf16(f.sha) + [SPACE, SPACE] + Utf16(f.path) + [NEWLINE] }

  function GoPreImage(sorted: seq<File>): seq<byte> { Concat(GoLine, sorted) }
  function TsPreImage(sorted: seq<File>): seq<byte> { TextEncode(Concat(TsLine, sorted)) }

  /** Go's `Digest`, up to the hash: sort a copy, then feed it line by line. */
  method Digest(files: seq<File>) returns (fed: seq<byte>)
    ensures exists sorted :: SortOf(GoKey, files, sorted) && fed == GoPreImage(sorted)
  {
    var sorted := Sort(GoKey, files);
    SortSorts(GoKey, files);
    fed := [];
    for i := 0 to |sorted|
      invariant fed == Concat(GoLine, sorted[..i])
    {
      ConcatAt(GoLine, sorted, i);
      fed := fed + GoLine(sorted[i]);
    }
    assert sorted[..|sorted|] == sorted;
  }

  /** The line `computeDigest` builds encodes to the line `Digest` feeds. */
  function LineScalars(f: File): seq<scalar> { f.sha + [SPACE, SPACE] + f.path + [NEWLINE] }

  lemma LinesAgree(f: File)
    ensures TsLine(f) == Utf16(LineScalars(f)) && GoLine(f) == Utf8(LineScalars(f))
  {
    var spaces: seq<scalar> := [SPACE, SPACE];
    var newline: seq<scalar> := [NEWLINE];
    AsciiIsItself(newline);
    AsciiIsItself(spaces);
    Utf16Concat(f.sha, spaces);
    Utf16Concat(f.sha + spaces, f.path);
    Utf16Concat(f.sha + spaces + f.path, newline);
    Utf8Concat(f.sha, spaces);
    Utf8Concat(f.sha + spaces, f.path);
    Utf8Concat(f.sha + spaces + f.path, newline);
  }

  lemma {:induction false} PreImagesAgree(sorted: seq<File>)
    ensures Concat(TsLine, sorted) == Utf16(Concat(LineScalars, sorted))
    ensures Concat(GoLine, sorted) == Utf8(Concat(LineScalars, sorted))
    ensures TsPreImage(sorted) == GoPreImage(sorted)
  {
    if sorted != [] {
      var n := |sorted| - 1;
      PreImagesAgree(sorted[..n]);
      LinesAgree(sorted[n]);
      Utf16Concat(Concat(LineScalars, sorted[..n]), LineScalars(sorted[n]));
      Utf8Concat(Concat(LineScalars, sorted[..n]), LineScalars(sorted[n]));
    }
    Utf16RoundTrip(Concat(LineScalars, sorted));
  }

  // ---- Order independence ------------------------------------------------------

  predicate DistinctPaths(files: seq<File>) {
    forall f, g :: f in files && g in files && f.path == g.path ==> f == g
  }

  lemma PathsAreKeys(files: seq<File>)
    requires DistinctPaths(files)
    ensures KeyDetermines(GoKey, files) && KeyDetermines(TsKey, files)
  {
    forall f, g | f in files && g in files && Utf8(f.path) == Utf8(g.path) ensures f == g {
      Utf8IsInjective(f.path, g.path);
    }
    forall f, g | f in files && g in files && Utf16(f.path) == Utf16(g.path) ensures f == g {
      Utf16RoundTrip(f.path);
      Utf16RoundTrip(g.path);
    }
  }

  /** Whatever order the manifest comes in and whatever sort is used, Go hashes the same bytes. */
  lemma GoPreImageIgnoresOrder(a: seq<File>, b: seq<File>, sa: seq<File>, sb: seq<File>)
    requires DistinctPaths(a) && multiset(a) == multiset(b)
    requires SortOf(GoKey, a, sa) && SortOf(GoKey, b, sb)
    ensures GoPreImage(sa) == GoPreImage(sb)
  {
    PathsAreKeys(a);
    SameElements(a, sa);
    SortIsUnique(GoKey, sa, sb);
  }

  // ---- Unique decoding ---------------------------------------------------------

  /** A 64-character hash, and no newline anywhere. */
  predicate LineSafe(f: File) {
    |f.sha| == 64 && NEWLINE !in f.path && forall i :: 0 <= i < |f.sha| ==> f.sha[i] < 0x80 && f.sha[i] != NEWLINE
  }

  lemma {:induction false} NoNewlineInUtf8(p: seq<scalar>)
    requires NEWLINE !in p
    ensures NEWLINE !in Utf8(p)
  {
    if p != [] {
      ConcatFirst(Encode8, p);
      NoNewlineInUtf8(p[1..]);
      assert p[0] in p;
      assert NEWLINE !in Encode8(p[0]);
    }
  }

  lemma {:induction false} FirstLineIsUnique(x: seq<byte>, u: seq<byte>, y: seq<byte>, v: seq<byte>)
    requires NEWLINE !in x && NEWLINE !in y && x + [NEWLINE] + u == y + [NEWLINE] + v
    ensures x == y && u == v
  {
    var a, b := x + [NEWLINE] + u, y + [NEWLINE] + v;
    assert a[|x|] == NEWLINE && b[|y|] == NEWLINE;
    assert x == a[..|x|] && y == b[..|y|] && u == a[|x| + 1..] && v == b[|y| + 1..];
  }

  lemma LineBody(f: File) returns (body: seq<byte>)
    requires LineSafe(f)
    ensures GoLine(f) == body + [NEWLINE] && NEWLINE !in body
    ensures |body| >= 66 && body[..64] == Utf8(f.sha) && body[66..] == Utf8(f.path)
  {
    body := Utf8(f.sha) + [SPACE, SPACE] + Utf8(f.path);
    AsciiIsItself(f.sha);
    NoNewlineInUtf8(f.path);
  }

  /** The pre-image determines the list of (path, hash) pairs it was built from. */
  lemma {:induction false} PreImageIsInjective(a: seq<File>, b: seq<File>)
    requires forall f :: f in a || f in b ==> LineSafe(f)
    requires GoPreImage(a) == GoPreImage(b)
    ensures a == b
  {
    if a != [] { ConcatFirst(GoLine, a); }
    if b != [] { ConcatFirst(GoLine, b); }
    if a != [] && b != [] {
      assert a[0] in a && b[0] in b;
      var x := LineBody(a[0]);
      var y := LineBody(b[0]);
      FirstLineIsUnique(x, GoPreImage(a[1..]), y, GoPreImage(b[1..]));
      Utf8IsInjective(a[0].sha, b[0].sha);
      Utf8IsInjective(a[0].path, b[0].path);
      PreImageIsInjective(a[1..], b[1..]);
      assert a == [a[0]] + a[1..] && b == [b[0]] + b[1..];
    }
  }

  // ---- A reader of the hashed text ---------------------------------------------

  /** Sixty-four bytes of hash, two spaces, and the path. */
  function ReadLine(line: seq<byte>): Option<File> {
    if |line| < 66 || line[64] != 0x20 || line[65] != 0x20 then None
    else if Decode8(line[..64]).None? || Decode8(line[66..]).None? then None
    else Some(File(Decode8(line[66..]).value, Decode8(line[..64]).value))
  }

  /** One file a line, each line ended by a newline. */
  function ReadPreImage(b: seq<byte>): Option<seq<File>> {
    var parts := Split(b, 0x0A);
    if parts[|parts| - 1] != [] then None else Traverse(ReadLine, parts[..|parts| - 1])
  }

  lemma LineReads(f: File) returns (body: seq<byte>)
    requires LineSafe(f)
    ensures GoLine(f) == body + [0x0A] && 0x0A !in body && ReadLine(body) == Some(f)
  {
    body := Utf8(f.sha) + [SPACE, SPACE] + Utf8(f.path);
    AsciiIsItself(f.sha);
    NoNewlineInUtf8(f.path);
    assert body[..64] == Utf8(f.sha) && body[66..] == Utf8(f.path);
    Utf8RoundTrip(f.sha);
    Utf8RoundTrip(f.path);
  }

  lemma {:induction false} LinesSplit(a: seq<File>)
    requires forall f :: f in a ==> LineSafe(f)
    ensures var parts := Split(GoPreImage(a), 0x0A);
      && |parts| == |a| + 1 && parts[|a|] == []
      && forall i :: 0 <= i < |a| ==> ReadLine(parts[i]) == Some(a[i])
  {
    if a != [] {
      assert a[0] in a && forall f :: f in a[1..] ==> f in a;
      LinesSplit(a[1..]);
      ConcatFirst(GoLine, a);
      var body := LineReads(a[0]);
      SplitAt(body, 0x0A, GoPreImage(a[1..]));
      SplitOnePart(body, 0x0A);
      FirstOfParts(body, Split(GoPreImage(a[1..]), 0x0A), Split(GoPreImage(a), 0x0A));
    }
  }

  lemma FirstOfParts(body: seq<byte>, rest: seq<seq<byte>>, parts: seq<seq<byte>>)
    requires parts == [body] + rest
    ensures |parts| == |rest| + 1 && parts[0] == body && forall i :: 0 < i < |parts| ==> parts[i] == rest[i - 1]
  {
  }

  /** The hashed text reads back as exactly the files, in order. */
  lemma PreImageReadsBack(a: seq<File>)
    requires forall f :: f in a ==> LineSafe(f)
    ensures ReadPreImage(GoPreImage(a)) == Some(a)
  {
    LinesSplit(a);
    var parts := Split(GoPreImage(a), 0x0A);
    TraverseAll(ReadLine, parts[..|a|], a);
  }

  /** In what Go hashes no path comes before one that precedes it, as code points compare. */
  lemma GoOrderIsCodePoints(files: seq<File>, sorted: seq<File>, i: nat, j: nat)
    requires SortOf(GoKey, files, sorted) && i < j < |sorted|
    ensures !exists k :: FirstAt(sorted[j].path, sorted[i].path, k)
  {
    Utf8KeepsOrder(sorted[j].path, sorted[i].path);
    LessExactly(sorted[j].path, sorted[i].path);
    assert !Less(GoKey(sorted[j]), GoKey(sorted[i]));
  }

  /** In what TypeScript hashes, as code units compare. */
  lemma TsOrderIsCodeUnits(files: seq<File>, sorted: seq<File>, i: nat, j: nat)
    requires SortOf(TsKey, files, sorted) && i < j < |sorted|
    ensures !exists k :: FirstAt(Utf16(sorted[j].path), Utf16(sorted[i].path), k)
  {
    LessExactly(Utf16(sorted[j].path), Utf16(sorted[i].path));
    assert !Less(TsKey(sorted[j]), TsKey(sorted[i]));
  }

  /** Go hashes the same bytes for every order of the manifest and every sort. */
  ghost predicate OrderFree(a: seq<File>) {
    forall b, sa, sb :: multiset(a) == multiset(b) && SortOf(GoKey, a, sa) && SortOf(GoKey, b, sb) ==>
      GoPreImage(sa) == GoPreImage(sb)
  }

  lemma SharedPathShows(a: seq<File>, f: File, g: File)
    requires forall h :: h in a ==> LineSafe(h)
    requires f in a && g in a && f != g && f.path == g.path
    ensures !OrderFree(a)
  {
    var t := Sort(GoKey, a);
    SortSorts(GoKey, a);
    SameElements(a, t);
    var i :| 0 <= i < |t| && t[i] == f;
    var j :| 0 <= j < |t| && t[j] == g;
    var first, second := if i < j then i else j, if i < j then j else i;
    var u := Swap(t, first, second);
    SwapStaysSorted(GoKey, a, t, first, second);
    SameElements(a, u);
    assert u[first] != t[first];
    if GoPreImage(t) == GoPreImage(u) { PreImageIsInjective(t, u); }
  }

  /** The digest does not depend on the order exactly when no two different files share a path. */
  lemma OrderFreeExactly(a: seq<File>)
    requires forall f :: f in a ==> LineSafe(f)
    ensures OrderFree(a) <==> DistinctPaths(a)
  {
    if DistinctPaths(a) {
      forall b, sa, sb | multiset(a) == multiset(b) && SortOf(GoKey, a, sa) && SortOf(GoKey, b, sb)
        ensures GoPreImage(sa) == GoPreImage(sb)
      {
        GoPreImageIgnoresOrder(a, b, sa, sb);
      }
    } else {
      var f, g :| f in a && g in a && f.path == g.path && f != g;
      SharedPathShows(a, f, g);
    }
  }

  // ---- Go against TypeScript ---------------------------------------------------

  predicate NoInversion(files: seq<File>) {
    forall f, g :: f in files && g in files ==> !Inverted(f.path, g.path)
  }

  lemma OrdersAgree(files: seq<File>, t: seq<File>)
    requires NoInversion(files) && SortOf(TsKey, files, t)
    ensures SortOf(GoKey, files, t)
  {
    SameElements(files, t);
    forall i, j | 0 <= i < j < |t| ensures !Less(GoKey(t[j]), GoKey(t[i])) {
      var p, q := t[j].path, t[i].path;
      Utf8KeepsOrder(p, q);
      assert t[j] in files && t[i] in files;
      if p == q { LessIsTotal(p, q); } else { Utf16Order(p, q); }
      assert !Less(TsKey(t[j]), TsKey(t[i]));
    }
  }

  /** Without an inverted pair of paths, the two languages hash the same bytes. */
  lemma DigestsAgree(files: seq<File>, g: seq<File>, t: seq<File>)
    requires DistinctPaths(files) && NoInversion(files)
    requires SortOf(GoKey, files, g) && SortOf(TsKey, files, t)
    ensures TsPreImage(t) == GoPreImage(g)
  {
    OrdersAgree(files, t);
    GoPreImageIgnoresOrder(files, files, g, t);
    PreImagesAgree(t);
  }

  /** In particular for paths of Basic Multilingual Plane characters. */
  lemma DigestsAgreeInBmp(files: seq<File>, g: seq<File>, t: seq<File>)
    requires DistinctPaths(files)
    requires forall f, i :: f in files && 0 <= i < |f.path| ==> !IsAstral(f.path[i])
    requires SortOf(GoKey, files, g) && SortOf(TsKey, files, t)
    ensures TsPreImage(t) == GoPreImage(g)
  {
    forall f, h | f in files && h in files ensures !Inverted(f.path, h.path) { NoInversionInBmp(f.path, h.path); }
    DigestsAgree(files, g, t);
  }

  /** Exactly when the two languages agree: an inverted pair always makes the digests differ. */
  lemma DigestsAgreeExactly(files: seq<File>, g: seq<File>, t: seq<File>)
    requires DistinctPaths(files) && forall f :: f in files ==> LineSafe(f)
    requires SortOf(GoKey, files, g) && SortOf(TsKey, files, t)
    ensures TsPreImage(t) == GoPreImage(g) <==> NoInversion(files)
  {
    if NoInversion(files) {
      DigestsAgree(files, g, t);
    }
    if TsPreImage(t) == GoPreImage(g) {
      PreImagesAgree(t);
      SameElements(files, g);
      SameElements(files, t);
      PreImageIsInjective(g, t);
      forall x, y | x in files && y in files ensures !Inverted(x.path, y.path) {
        BothOrdersAllow(g, x, y);
      }
    }
  }

  lemma BothOrdersAllow(s: seq<File>, x: File, y: File)
    requires x in s && y in s && Ordered(GoKey, s) && Ordered(TsKey, s)
    ensures !Inverted(x.path, y.path)
  {
    if x.path == y.path {
      NotInvertedAlone(x.path);
    } else {
      var i :| 0 <= i < |s| && s[i] == x;
      var j :| 0 <= j < |s| && s[j] == y;
      var p, q := if i < j then x else y, if i < j then y else x;
      assert !Less(GoKey(q), GoKey(p)) && !Less(TsKey(q), TsKey(p));
      Utf8KeepsOrder(q.path, p.path);
      Utf16Order(q.path, p.path);
      InvertedIsSymmetric(x.path, y.path);
    }
  }

  lemma {:induction false} NotInvertedAlone(p: seq<scalar>)
    ensures !Inverted(p, p)
  {
    if p != [] { NotInvertedAlone(p[1..]); }
  }

  /** A manifest with one file named U+FF5E and one named U+10000 has two digests. */
  lemma AstralPathsDisagree(f: File, h: File, g: seq<File>, t: seq<File>)
    requires f.path == [0xFF5E] && h.path == [0x1_0000] && LineSafe(f) && LineSafe(h)
    requires SortOf(GoKey, [f, h], g) && SortOf(TsKey, [f, h], t)
    ensures TsPreImage(t) != GoPreImage(g)
  {
    assert f in [f, h] && h in [f, h] && Inverted(f.path, h.path);
    DigestsAgreeExactly([f, h], g, t);
  }
}
