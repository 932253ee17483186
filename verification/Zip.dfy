/**
 * The STORE-only ZIP writer of apps/dashboard/lib/zip.ts, with a reader that
 * follows sections 4.3.7, 4.3.12 and 4.3.16 of the PKWARE APPNOTE.
 *
 * The 16- and 32-bit setters wrap, as `DataView` does.
 */
module ZipLayout {
  import opened Bytes

  /** One stored file: its encoded name, its checksum and its bytes. */
  datatype Member = Member(name: seq<byte>, crc: nat, data: seq<byte>)

  const LOCAL_SIGNATURE := 0x04034b50
  const CENTRAL_SIGNATURE := 0x02014b50
  const END_SIGNATURE := 0x06054b50

  // ---- The archive as a value --------------------------------------------------

  function LE16(v: nat): (b: seq<byte>)
    ensures |b| == 2
  {
    [v % 0x100, v / 0x100 % 0x100]
  }

  function LE32(v: nat): (b: seq<byte>)
    ensures |b| == 4
  {
    LE16(v % 0x1_0000) + LE16(v / 0x1_0000 % 0x1_0000)
  }

  function Zeros(n: nat): (b: seq<byte>)
    ensures |b| == n
  {
    seq(n, _ => 0)
  }

  function LocalHeader(crc: nat, size: nat, nameLength: nat): (h: seq<byte>)
    ensures |h| == 30
  {
    LE32(LOCAL_SIGNATURE) + LE16(20) + LE16(0x0800) + LE16(0) + LE16(0) + LE16(0)
    + LE32(crc) + LE32(size) + LE32(size) + LE16(nameLength) + LE16(0)
  }

  function CentralHeader(crc: nat, size: nat, nameLength: nat, offset: nat): (h: seq<byte>)
    ensures |h| == 46
  {
    LE32(CENTRAL_SIGNATURE) + LE16(20) + LE16(20) + LE16(0x0800) + LE16(0) + LE16(0) + LE16(0)
    + LE32(crc) + LE32(size) + LE32(size) + LE16(nameLength)
    + Zeros(12) + LE32(offset)
  }

  function EndRecord(count: nat, centralSize: nat, centralOffset: nat): (h: seq<byte>)
    ensures |h| == 22
  {
    LE32(END_SIGNATURE) + Zeros(4) + LE16(count) + LE16(count)
    + LE32(centralSize) + LE32(centralOffset) + Zeros(2)
  }

  // ---- DataView ----------------------------------------------------------------

  /** The bytes before `at` are final, and those from `at` on still zero. */
  predicate Filled(view: seq<byte>, at: nat, front: seq<byte>) {
    at == |front| <= |view| && view == front + Zeros(|view| - at)
  }

  method SetUint16(view: array<byte>, at: nat, v: nat, ghost front: seq<byte>)
    requires at + 2 <= view.Length && Filled(view[..], at, front)
    modifies view
    ensures Filled(view[..], at + 2, front + LE16(v))
  {
    view[at] := v % 0x100;
    view[at + 1] := v / 0x100 % 0x100;
  }

  method SetUint32(view: array<byte>, at: nat, v: nat, ghost front: seq<byte>)
    requires at + 4 <= view.Length && Filled(view[..], at, front)
    modifies view
    ensures Filled(view[..], at + 4, front + LE32(v))
  {
    var low, high := v % 0x1_0000, v / 0x1_0000 % 0x1_0000;
    SetUint16(view, at, low, front);
    SetUint16(view, at + 2, high, front + LE16(low));
    assert front + LE16(low) + LE16(high) == front + LE32(v);
  }

  method WriteLocalHeader(crc: nat, size: nat, nameLength: nat) returns (local: array<byte>)
    ensures fresh(local) && local[..] == LocalHeader(crc, size, nameLength)
  {
    local := new byte[30](_ => 0);
    ghost var f: seq<byte> := [];
    assert local[..] == f + Zeros(30);
    SetUint32(local, 0, 0x04034b50, f); f := LE32(0x04034b50);
    SetUint16(local, 4, 20, f); f := f + LE16(20);
    SetUint16(local, 6, 0x0800, f); f := f + LE16(0x0800);
    SetUint16(local, 8, 0, f); f := f + LE16(0);
    SetUint16(local, 10, 0, f); f := f + LE16(0);
    SetUint16(local, 12, 0, f); f := f + LE16(0);
    SetUint32(local, 14, crc, f); f := f + LE32(crc);
    SetUint32(local, 18, size, f); f := f + LE32(size);
    SetUint32(local, 22, size, f); f := f + LE32(size);
    SetUint16(local, 26, nameLength, f); f := f + LE16(nameLength);
    SetUint16(local, 28, 0, f); f := f + LE16(0);
    assert f + Zeros(0) == f;
  }

  method WriteCentralHeader(crc: nat, size: nat, nameLength: nat, offset: nat) returns (cen: array<byte>)
    ensures fresh(cen) && cen[..] == CentralHeader(crc, size, nameLength, offset)
  {
    cen := new byte[46](_ => 0);
    ghost var f: seq<byte> := [];
    assert cen[..] == f + Zeros(46);
    SetUint32(cen, 0, 0x02014b50, f); f := LE32(0x02014b50);
    SetUint16(cen, 4, 20, f); f := f + LE16(20);
    SetUint16(cen, 6, 20, f); f := f + LE16(20);
    SetUint16(cen, 8, 0x0800, f); f := f + LE16(0x0800);
    SetUint16(cen, 10, 0, f); f := f + LE16(0);
    SetUint16(cen, 12, 0, f); f := f + LE16(0);
    SetUint16(cen, 14, 0, f); f := f + LE16(0);
    SetUint32(cen, 16, crc, f); f := f + LE32(crc);
    SetUint32(cen, 20, size, f); f := f + LE32(size);
    SetUint32(cen, 24, size, f); f := f + LE32(size);
    SetUint16(cen, 28, nameLength, f); f := f + LE16(nameLength);
    SkipZeros(cen[..], f, 12); f := f + Zeros(12);
    SetUint32(cen, 42, offset, f); f := f + LE32(offset);
    assert f + Zeros(0) == f;
  }

  lemma SkipZeros(view: seq<byte>, front: seq<byte>, n: nat)
    requires |front| + n <= |view| && Filled(view, |front|, front)
    ensures Filled(view, |front| + n, front + Zeros(n))
  {
    assert Zeros(|view| - |front|) == Zeros(n) + Zeros(|view| - |front| - n);
  }

  method WriteEndRecord(count: nat, centralSize: nat, centralOffset: nat) returns (eocd: array<byte>)
    ensures fresh(eocd) && eocd[..] == EndRecord(count, centralSize, centralOffset)
  {
    eocd := new byte[22](_ => 0);
    ghost var f: seq<byte> := [];
    assert eocd[..] == f + Zeros(22);
    SetUint32(eocd, 0, 0x06054b50, f); f := LE32(0x06054b50);
    SkipZeros(eocd[..], f, 4); f := f + Zeros(4);
    SetUint16(eocd, 8, count, f); f := f + LE16(count);
    SetUint16(eocd, 10, count, f); f := f + LE16(count);
    SetUint32(eocd, 12, centralSize, f); f := f + LE32(centralSize);
    SetUint32(eocd, 16, centralOffset, f); f := f + LE32(centralOffset);
    SkipZeros(eocd[..], f, 2); f := f + Zeros(2);
    assert f + Zeros(0) == f;
  }

  lemma Signatures()
    ensures LE32(LOCAL_SIGNATURE) == [0x50, 0x4B, 3, 4] && LE32(CENTRAL_SIGNATURE) == [0x50, 0x4B, 1, 2]
    ensures LE32(END_SIGNATURE) == [0x50, 0x4B, 5, 6]
    ensures LE16(20) == [20, 0] && LE16(0x0800) == [0, 8] && LE16(0) == [0, 0]
  {
  }

  lemma Begins(h: seq<byte>, start: seq<byte>)
    requires |start| <= |h| && forall i :: 0 <= i < |start| ==> h[i] == start[i]
    ensures h[..|start|] == start
  {
  }

  /** How a local header begins: its signature, version 2.0, a name in UTF-8, stored, no time stamp. */
  lemma LocalIsStandard(crc: nat, size: nat, nameLength: nat)
    ensures LocalHeader(crc, size, nameLength)[..14] == [0x50, 0x4B, 3, 4, 20, 0, 0, 8, 0, 0, 0, 0, 0, 0]
  {
    Signatures();
    Begins(LocalHeader(crc, size, nameLength), [0x50, 0x4B, 3, 4, 20, 0, 0, 8, 0, 0, 0, 0, 0, 0]);
  }

  /** The same of a directory entry, with the version twice. */
  lemma CentralIsStandard(crc: nat, size: nat, nameLength: nat, offset: nat)
    ensures CentralHeader(crc, size, nameLength, offset)[..16]
      == [0x50, 0x4B, 1, 2, 20, 0, 20, 0, 0, 8, 0, 0, 0, 0, 0, 0]
  {
    Signatures();
    Begins(CentralHeader(crc, size, nameLength, offset), [0x50, 0x4B, 1, 2, 20, 0, 20, 0, 0, 8, 0, 0, 0, 0, 0, 0]);
  }

  lemma EndIsStandard(count: nat, size: nat, offset: nat)
    ensures EndRecord(count, size, offset)[..8] == [0x50, 0x4B, 5, 6, 0, 0, 0, 0]
  {
    Signatures();
    Begins(EndRecord(count, size, offset), [0x50, 0x4B, 5, 6, 0, 0, 0, 0]);
  }

  // ---- Layout ------------------------------------------------------------------

  function Local(m: Member): seq<byte> {
    LocalHeader(m.crc, |m.data|, |m.name|) + m.name + m.data
  }

  function Locals(ms: seq<Member>): seq<byte> { Concat(Local, ms) }

  /** A member, and where its local header starts. */
  datatype Placed = Placed(member: Member, offset: nat)

  function Place(ms: seq<Member>): seq<Placed> {
    seq(|ms|, i requires 0 <= i < |ms| => Placed(ms[i], |Locals(ms[..i])|))
  }

  function CentralRecord(p: Placed): seq<byte> {
    CentralHeader(p.member.crc, |p.member.data|, |p.member.name|, p.offset) + p.member.name
  }

  function Central(ms: seq<Member>): seq<byte> { Concat(CentralRecord, Place(ms)) }

  function Archive(ms: seq<Member>): seq<byte> {
    Locals(ms) + Central(ms) + EndRecord(|ms|, |Central(ms)|, |Locals(ms)|)
  }

  lemma PlacePrefix(ms: seq<Member>, i: nat)
    requires i <= |ms|
    ensures Place(ms[..i]) == Place(ms)[..i]
  {
    forall k | 0 <= k < i ensures Place(ms[..i])[k] == Place(ms)[k] {
      assert ms[..i][..k] == ms[..k];
    }
  }

  lemma PlaceNext(ms: seq<Member>, i: nat)
    requires i < |ms|
    ensures Locals(ms[..i + 1]) == Locals(ms[..i]) + Local(ms[i])
    ensures Central(ms[..i + 1]) == Central(ms[..i]) + CentralRecord(Placed(ms[i], |Locals(ms[..i])|))
  {
    ConcatAt(Local, ms, i);
    ConcatAt(CentralRecord, Place(ms), i);
    PlacePrefix(ms, i);
    PlacePrefix(ms, i + 1);
  }

  method AddLocal(chunks: seq<seq<byte>>, m: Member) returns (chunks': seq<seq<byte>>)
    ensures Flatten(chunks') == Flatten(chunks) + Local(m)
  {
    var local := WriteLocalHeader(m.crc, |m.data|, |m.name|);
    FlattenPush(chunks, local[..]);
    FlattenPush(chunks + [local[..]], m.name);
    FlattenPush(chunks + [local[..]] + [m.name], m.data);
    chunks' := chunks + [local[..]] + [m.name] + [m.data];
    Regroup(Flatten(chunks), local[..], m.name, m.data);
  }

  method AddCentral(central: seq<seq<byte>>, m: Member, offset: nat) returns (central': seq<seq<byte>>)
    ensures Flatten(central') == Flatten(central) + CentralRecord(Placed(m, offset))
  {
    var cen := WriteCentralHeader(m.crc, |m.data|, |m.name|, offset);
    FlattenPush(central, cen[..]);
    FlattenPush(central + [cen[..]], m.name);
    central' := central + [cen[..]] + [m.name];
    Regroup(Flatten(central), cen[..], m.name, []);
  }

  lemma Regroup(a: seq<byte>, b: seq<byte>, c: seq<byte>, d: seq<byte>)
    ensures a + b + c + d == a + (b + c + d) && a + b + c == a + (b + c)
  {
  }

  lemma FlattenPush(chunks: seq<seq<byte>>, c: seq<byte>)
    ensures Flatten(chunks + [c]) == Flatten(chunks) + c
  {
    assert (chunks + [c])[..|chunks|] == chunks;
  }

  method TotalLength(chunks: seq<seq<byte>>) returns (n: nat)
    ensures n == |Flatten(chunks)|
  {
    n := 0;
    for i := 0 to |chunks|
      invariant n == |Flatten(chunks[..i])|
    {
      n := n + |chunks[i]|;
      assert chunks[..i + 1][..i] == chunks[..i];
    }
    assert chunks[..|chunks|] == chunks;
  }

  /** The copy loop fills the output exactly. */
  method Join(chunks: seq<seq<byte>>) returns (out: array<byte>)
    ensures fresh(out) && out[..] == Flatten(chunks)
  {
    var total := TotalLength(chunks);
    out := new byte[total](_ => 0);
    var pos := 0;
    for i := 0 to |chunks|
      invariant pos == |Flatten(chunks[..i])| <= total
      invariant out[..pos] == Flatten(chunks[..i])
    {
      assert chunks[..i + 1][..i] == chunks[..i];
      assert chunks == chunks[..i + 1] + chunks[i + 1..];
      FlattenConcat(chunks[..i + 1], chunks[i + 1..]);
      ghost var before := out[..pos];
      forall k | 0 <= k < |chunks[i]| { out[pos + k] := chunks[i][k]; }
      assert out[..pos] == before;
      assert out[pos..pos + |chunks[i]|] == chunks[i];
      pos := pos + |chunks[i]|;
      assert out[..pos] == before + chunks[i];
    }
    assert chunks[..|chunks|] == chunks;
    assert out[..pos] == out[..];
  }

  /** The loop's state after `i` members. */
  ghost predicate Written(ms: seq<Member>, i: nat, chunks: seq<seq<byte>>, central: seq<seq<byte>>, offset: nat) {
    && i <= |ms| && Flatten(chunks) == Locals(ms[..i]) && Flatten(central) == Central(ms[..i])
    && offset == |Locals(ms[..i])|
  }

  method AddMember(
    chunks: seq<seq<byte>>, central: seq<seq<byte>>, offset: nat, m: Member, ghost ms: seq<Member>, ghost i: nat)
    returns (chunks': seq<seq<byte>>, central': seq<seq<byte>>, offset': nat)
    requires Written(ms, i, chunks, central, offset) && i < |ms| && ms[i] == m
    ensures Written(ms, i + 1, chunks', central', offset')
  {
    PlaceNext(ms, i);
    chunks' := AddLocal(chunks, m);
    central' := AddCentral(central, m, offset);
    offset' := offset + 30 + |m.name| + |m.data|;
  }

  method Finish(chunks: seq<seq<byte>>, central: seq<seq<byte>>, offset: nat, count: nat, ghost ms: seq<Member>)
    returns (out: array<byte>)
    requires Written(ms, |ms|, chunks, central, offset) && count == |ms|
    ensures fresh(out) && out[..] == Archive(ms)
  {
    assert ms[..|ms|] == ms;
    var centralSize := TotalLength(central);
    var eocd := WriteEndRecord(count, centralSize, offset);
    FlattenConcat(chunks, central);
    FlattenPush(chunks + central, eocd[..]);
    out := Join(chunks + central + [eocd[..]]);
  }

  // ---- Reading an archive back -------------------------------------------------

  function Get16(b: seq<byte>, at: nat): nat
    requires at + 2 <= |b|
  {
    b[at] as int + 0x100 * b[at + 1] as int
  }

  function Get32(b: seq<byte>, at: nat): nat
    requires at + 4 <= |b|
  {
    Get16(b, at) + 0x1_0000 * Get16(b, at + 2)
  }

  /** What a central record says of a member. */
  datatype Record = Record(name: seq<byte>, crc: nat, size: nat, offset: nat)

  /** Version 2.0 at most, UTF-8 names, stored without compression. */
  predicate IsStored(h: seq<byte>, at: nat)
    requires at + 6 <= |h|
  {
    Get16(h, at) <= 20 && Get16(h, at + 2) == 0x0800 && Get16(h, at + 4) == 0
  }

  predicate CentralOk(h: seq<byte>)
    requires |h| == 46
  {
    Get32(h, 0) == CENTRAL_SIGNATURE && IsStored(h, 6) && Get32(h, 20) == Get32(h, 24)
  }

  /** The record at `at`, and where the next one starts. */
  function ReadRecord(b: seq<byte>, at: nat): Option<(Record, nat)> {
    if at + 46 > |b| || !CentralOk(b[at..at + 46]) then None
    else
      var h := b[at..at + 46];
      var n := Get16(h, 28);
      var next := at + 46 + n + Get16(h, 30) + Get16(h, 32);
      if next > |b| then None
      else Some((Record(b[at + 46..at + 46 + n], Get32(h, 16), Get32(h, 24), Get32(h, 42)), next))
  }

  /** `count` items one after the other, each saying where the next one starts. */
  function ReadList<R>(read: nat -> Option<(R, nat)>, at: nat, count: nat): Option<seq<R>>
    decreases count
  {
    if count == 0 then Some([])
    else match read(at)
      case None => None
      case Some((item, next)) => Then(Some(item), ReadList(read, next, count - 1))
  }

  function RecordReader(b: seq<byte>): nat -> Option<(Record, nat)> { at => ReadRecord(b, at) }

  function ReadCentral(b: seq<byte>, at: nat, count: nat): Option<seq<Record>> { ReadList(RecordReader(b), at, count) }

  /** The local header says of the member what the directory says. */
  predicate LocalAgrees(h: seq<byte>, r: Record)
    requires |h| == 30
  {
    && Get32(h, 0) == LOCAL_SIGNATURE && IsStored(h, 4)
    && Get32(h, 14) == r.crc && Get32(h, 18) == r.size && Get32(h, 22) == r.size && Get16(h, 26) == |r.name|
  }

  /** Follow a record to its local header, and take the stored bytes if the two agree. */
  function ReadMember(b: seq<byte>, r: Record): Option<Member> {
    if r.offset + 30 > |b| || !LocalAgrees(b[r.offset..r.offset + 30], r) then None
    else
      var nameAt := r.offset + 30;
      var dataAt := nameAt + |r.name| + Get16(b[r.offset..r.offset + 30], 28);
      if dataAt + r.size > |b| || b[nameAt..nameAt + |r.name|] != r.name then None
      else Some(Member(r.name, r.crc, b[dataAt..dataAt + r.size]))
  }

  function ReadMembers(b: seq<byte>, rs: seq<Record>): Option<seq<Member>> {
    Traverse(r => ReadMember(b, r), rs)
  }

  /** One disk, one count. */
  predicate EndOk(h: seq<byte>)
    requires |h| == 22
  {
    Get32(h, 0) == END_SIGNATURE && Get32(h, 4) == 0 && Get16(h, 8) == Get16(h, 10)
  }

  /** Start from the last 22 bytes and follow the central directory. */
  function ReadArchive(b: seq<byte>): Option<seq<Member>> {
    if |b| < 22 || !EndOk(b[|b| - 22..]) then None
    else
      var h := b[|b| - 22..];
      if Get32(h, 16) + Get32(h, 12) != |b| - 22 then None
      else match ReadCentral(b, Get32(h, 16), Get16(h, 10))
        case None => None
        case Some(records) => ReadMembers(b, records)
  }

  /** The 16- and 32-bit fields hold what the writer puts in them. */
  predicate InLimits(ms: seq<Member>) {
    && |ms| < 0x1_0000
    && (forall i :: 0 <= i < |ms| ==> |ms[i].name| < 0x1_0000 && ms[i].crc < 0x1_0000_0000)
    && |Locals(ms)| < 0x1_0000_0000 && |Central(ms)| < 0x1_0000_0000
  }

  // ---- Fields of the three record types ----------------------------------------

  lemma Get16Of(v: nat, a: seq<byte>, c: seq<byte>)
    requires v < 0x1_0000
    ensures Get16(a + LE16(v) + c, |a|) == v
  {
    var b := a + LE16(v) + c;
    assert b[|a|] == LE16(v)[0] && b[|a| + 1] == LE16(v)[1];
  }

  lemma Get32Of(v: nat, a: seq<byte>, c: seq<byte>)
    requires v < 0x1_0000_0000
    ensures Get32(a + LE32(v) + c, |a|) == v
  {
    var low, high := v % 0x1_0000, v / 0x1_0000;
    assert a + LE32(v) + c == a + LE16(low) + (LE16(high) + c) == (a + LE16(low)) + LE16(high) + c;
    Get16Of(low, a, LE16(high) + c);
    Get16Of(high, a + LE16(low), c);
  }

  /** `x` stands in `b` at position `at`. */
  predicate At(b: seq<byte>, at: nat, x: seq<byte>) {
    at + |x| <= |b| && b[at..at + |x|] == x
  }

  lemma AtSplit(b: seq<byte>, at: nat, x: seq<byte>, y: seq<byte>)
    requires At(b, at, x + y)
    ensures At(b, at, x) && At(b, at + |x|, y)
  {
    assert b[at..at + |x|] == b[at..at + |x + y|][..|x|];
    assert b[at + |x|..at + |x| + |y|] == b[at..at + |x + y|][|x|..];
  }

  /** A 16-bit field, and a 32-bit one, written between two parts of a header. */
  lemma Field16(h: seq<byte>, at: nat, v: nat)
    requires v < 0x1_0000 && at + 2 <= |h| && h[at..at + 2] == LE16(v)
    ensures Get16(h, at) == v
  {
    assert h == h[..at] + LE16(v) + h[at + 2..];
    Get16Of(v, h[..at], h[at + 2..]);
  }

  lemma Field32(h: seq<byte>, at: nat, v: nat)
    requires v < 0x1_0000_0000 && at + 4 <= |h| && h[at..at + 4] == LE32(v)
    ensures Get32(h, at) == v
  {
    assert h == h[..at] + LE32(v) + h[at + 4..];
    Get32Of(v, h[..at], h[at + 4..]);
  }

  /** Checksum, both sizes and the length of the name, as both headers hold them. */
  function SizeFields(crc: nat, size: nat, n: nat): (f: seq<byte>)
    ensures |f| == 14
  {
    LE32(crc) + LE32(size) + LE32(size) + LE16(n)
  }

  lemma SizesRead(crc: nat, size: nat, n: nat)
    requires crc < 0x1_0000_0000 && size < 0x1_0000_0000 && n < 0x1_0000
    ensures var f := SizeFields(crc, size, n);
      Get32(f, 0) == crc && Get32(f, 4) == size && Get32(f, 8) == size && Get16(f, 12) == n
  {
    var f := SizeFields(crc, size, n);
    Field32(f, 0, crc);
    Field32(f, 4, size);
    Field32(f, 8, size);
    Field16(f, 12, n);
  }

  /** Version, flags and method, and the two zero fields after them. */
  function KindFields(): (f: seq<byte>)
    ensures |f| == 10
  {
    LE16(20) + LE16(0x0800) + LE16(0) + LE16(0) + LE16(0)
  }

  lemma KindReads()
    ensures IsStored(KindFields(), 0)
  {
    var f := KindFields();
    Field16(f, 0, 20);
    Field16(f, 2, 0x0800);
    Field16(f, 4, 0);
  }

  /** Where the shared fields stand in a header, the header reads as they do. */
  lemma SharedFields(a: seq<byte>, crc: nat, size: nat, n: nat, z: seq<byte>)
    requires crc < 0x1_0000_0000 && size < 0x1_0000_0000 && n < 0x1_0000
    ensures var h, at := a + KindFields() + SizeFields(crc, size, n) + z, |a|;
      && IsStored(h, at) && Get32(h, at + 10) == crc && Get32(h, at + 14) == size && Get32(h, at + 18) == size
      && Get16(h, at + 22) == n
  {
    var kind, sizes := KindFields(), SizeFields(crc, size, n);
    var h := a + kind + sizes + z;
    KindReads();
    SizesRead(crc, size, n);
    assert h[|a|..|a| + 10] == kind && h[|a| + 10..|a| + 24] == sizes;
    SliceReads(h, |a|, kind);
    SliceReads(h, |a| + 10, sizes);
  }

  lemma SliceReads(h: seq<byte>, at: nat, x: seq<byte>)
    requires At(h, at, x)
    ensures forall k: nat {:trigger Get16(x, k)} :: k + 2 <= |x| ==> Get16(h, at + k) == Get16(x, k)
    ensures forall k: nat {:trigger Get32(x, k)} :: k + 4 <= |x| ==> Get32(h, at + k) == Get32(x, k)
  {
    assert forall k {:trigger x[k]} :: 0 <= k < |x| ==> x[k] == h[at + k];
  }

  lemma LocalFields(crc: nat, size: nat, n: nat, r: Record)
    requires crc < 0x1_0000_0000 && size < 0x1_0000_0000 && n < 0x1_0000
    requires r.crc == crc && r.size == size && |r.name| == n
    ensures LocalAgrees(LocalHeader(crc, size, n), r) && Get16(LocalHeader(crc, size, n), 28) == 0
  {
    var h := LocalHeader(crc, size, n);
    assert h == LE32(LOCAL_SIGNATURE) + KindFields() + SizeFields(crc, size, n) + LE16(0);
    SharedFields(LE32(LOCAL_SIGNATURE), crc, size, n, LE16(0));
    Field32(h, 0, LOCAL_SIGNATURE);
    Field16(h, 28, 0);
  }

  lemma CentralFields(crc: nat, size: nat, n: nat, offset: nat)
    requires crc < 0x1_0000_0000 && size < 0x1_0000_0000 && n < 0x1_0000 && offset < 0x1_0000_0000
    ensures var h := CentralHeader(crc, size, n, offset);
      && CentralOk(h) && Get32(h, 16) == crc && Get32(h, 24) == size
      && Get16(h, 28) == n && Get16(h, 30) == 0 && Get16(h, 32) == 0 && Get32(h, 42) == offset
  {
    var h := CentralHeader(crc, size, n, offset);
    var a, z := LE32(CENTRAL_SIGNATURE) + LE16(20), Zeros(12) + LE32(offset);
    assert h == a + KindFields() + SizeFields(crc, size, n) + z;
    SharedFields(a, crc, size, n, z);
    Field32(h, 0, CENTRAL_SIGNATURE);
    Field16(h, 30, 0);
    Field16(h, 32, 0);
    Field32(h, 42, offset);
  }

  /** The end record reads back as written, each field wrapped to its width. */
  lemma EndFields(count: nat, size: nat, offset: nat)
    ensures var h := EndRecord(count, size, offset);
      && EndOk(h) && Get16(h, 10) == count % 0x1_0000
      && Get32(h, 12) == size % 0x1_0000_0000 && Get32(h, 16) == offset % 0x1_0000_0000
  {
    var h := EndRecord(count, size, offset);
    EndCount(count, size, offset);
    Field32(h, 0, END_SIGNATURE);
    Field32(h, 4, 0);
    Wraps32(size);
    Wraps32(offset);
    assert h[12..16] == LE32(size) && h[16..20] == LE32(offset);
    Field32(h, 12, size % 0x1_0000_0000);
    Field32(h, 16, offset % 0x1_0000_0000);
  }

  lemma WrapSplits(v: nat)
    ensures v % 0x1_0000_0000 % 0x1_0000 == v % 0x1_0000
    ensures v % 0x1_0000_0000 / 0x1_0000 % 0x1_0000 == v / 0x1_0000 % 0x1_0000
  {
    var q, r := v / 0x1_0000_0000, v % 0x1_0000_0000;
    var high, low := r / 0x1_0000, r % 0x1_0000;
    assert v == (q * 0x1_0000 + high) * 0x1_0000 + low;
    assert v / 0x1_0000 == q * 0x1_0000 + high;
  }

  lemma Wraps32(v: nat)
    ensures LE32(v) == LE32(v % 0x1_0000_0000)
  {
    WrapSplits(v);
    SameHalves(v, v % 0x1_0000_0000);
  }

  lemma SameHalves(v: nat, w: nat)
    requires v % 0x1_0000 == w % 0x1_0000 && v / 0x1_0000 % 0x1_0000 == w / 0x1_0000 % 0x1_0000
    ensures LE32(v) == LE32(w)
  {
  }

  lemma Wraps16(v: nat)
    ensures LE16(v) == LE16(v % 0x1_0000)
  {
    var q, r := v / 0x1_0000, v % 0x1_0000;
    var high, low := r / 0x100, r % 0x100;
    assert v == (q * 0x100 + high) * 0x100 + low;
    assert v / 0x100 == q * 0x100 + high;
  }

  lemma EndCount(count: nat, size: nat, offset: nat)
    ensures var h := EndRecord(count, size, offset); Get16(h, 8) == Get16(h, 10) == count % 0x1_0000
  {
    var h := EndRecord(count, size, offset);
    assert h[8..10] == LE16(count) && h[10..12] == LE16(count);
    Wraps16(count);
    Field16(h, 8, count % 0x1_0000);
    Field16(h, 10, count % 0x1_0000);
  }

  // ---- Reading back what was written -------------------------------------------

  function RecordOf(p: Placed): Record {
    Record(p.member.name, p.member.crc, |p.member.data|, p.offset)
  }

  lemma ReadRecordAt(b: seq<byte>, at: nat, h: seq<byte>, name: seq<byte>)
    requires |h| == 46 && CentralOk(h)
    requires Get16(h, 28) == |name| && Get16(h, 30) == 0 && Get16(h, 32) == 0
    requires At(b, at, h) && At(b, at + 46, name)
    ensures ReadRecord(b, at) == Some((Record(name, Get32(h, 16), Get32(h, 24), Get32(h, 42)), at + 46 + |name|))
  {
  }

  predicate Fits(p: Placed) {
    && |p.member.name| < 0x1_0000 && p.member.crc < 0x1_0000_0000
    && |p.member.data| < 0x1_0000_0000 && p.offset < 0x1_0000_0000
  }

  lemma CentralRecordReadsAt(b: seq<byte>, at: nat, p: Placed)
    requires Fits(p) && At(b, at, CentralRecord(p))
    ensures ReadRecord(b, at) == Some((RecordOf(p), at + |CentralRecord(p)|))
  {
    var m := p.member;
    var h := CentralHeader(m.crc, |m.data|, |m.name|, p.offset);
    CentralFields(m.crc, |m.data|, |m.name|, p.offset);
    AtSplit(b, at, h, m.name);
    ReadRecordAt(b, at, h, m.name);
  }

  lemma CentralRecordReads(b: seq<byte>, p: Placed)
    requires Fits(p)
    ensures ReadsIn(b, RecordReader(b), CentralRecord(p), RecordOf(p))
  {
    forall at: nat | At(b, at, CentralRecord(p))
      ensures RecordReader(b)(at) == Some((RecordOf(p), at + |CentralRecord(p)|))
    {
      CentralRecordReadsAt(b, at, p);
    }
  }

  /** Wherever `x` stands in `b`, it reads as `r`. */
  ghost predicate ReadsIn<R>(b: seq<byte>, read: nat -> Option<(R, nat)>, x: seq<byte>, r: R) {
    forall at: nat {:trigger At(b, at, x)} :: At(b, at, x) ==> read(at) == Some((r, at + |x|))
  }

  lemma FirstAt<T>(b: seq<byte>, at: nat, ps: seq<T>, write: T -> seq<byte>)
    requires ps != [] && At(b, at, Concat(write, ps))
    ensures At(b, at, write(ps[0])) && At(b, at + |write(ps[0])|, Concat(write, ps[1..]))
  {
    ConcatFirst(write, ps);
    AtSplit(b, at, write(ps[0]), Concat(write, ps[1..]));
  }

  lemma ReadListStep<R>(read: nat -> Option<(R, nat)>, at: nat, next: nat, rs: seq<R>)
    requires rs != [] && read(at) == Some((rs[0], next)) && ReadList(read, next, |rs| - 1) == Some(rs[1..])
    ensures ReadList(read, at, |rs|) == Some(rs)
  {
    assert rs == [rs[0]] + rs[1..];
  }

  lemma ReadAt<R>(b: seq<byte>, read: nat -> Option<(R, nat)>, at: nat, x: seq<byte>, r: R)
    requires ReadsIn(b, read, x, r) && At(b, at, x)
    ensures read(at) == Some((r, at + |x|))
  {
  }

  ghost predicate AllReadIn<T, R>(
    b: seq<byte>, read: nat -> Option<(R, nat)>, ps: seq<T>, write: T -> seq<byte>, rs: seq<R>)
  {
    |ps| == |rs| && forall i :: 0 <= i < |ps| ==> ReadsIn(b, read, write(ps[i]), rs[i])
  }

  lemma AllButFirst<T, R>(
    b: seq<byte>, read: nat -> Option<(R, nat)>, ps: seq<T>, write: T -> seq<byte>, rs: seq<R>)
    requires ps != [] && AllReadIn(b, read, ps, write, rs)
    ensures ReadsIn(b, read, write(ps[0]), rs[0]) && AllReadIn(b, read, ps[1..], write, rs[1..])
  {
  }

  lemma {:induction false} ReadListAt<T, R>(
    b: seq<byte>, read: nat -> Option<(R, nat)>, at: nat, ps: seq<T>, write: T -> seq<byte>, rs: seq<R>)
    requires AllReadIn(b, read, ps, write, rs) && At(b, at, Concat(write, ps))
    ensures ReadList(read, at, |ps|) == Some(rs)
    decreases |ps|
  {
    if ps != [] {
      var next := at + |write(ps[0])|;
      FirstAt(b, at, ps, write);
      AllButFirst(b, read, ps, write, rs);
      ReadAt(b, read, at, write(ps[0]), rs[0]);
      ReadListAt(b, read, next, ps[1..], write, rs[1..]);
      ReadListStep(read, at, next, rs);
    }
  }

  function RecordsOf(ps: seq<Placed>): seq<Record> {
    seq(|ps|, i requires 0 <= i < |ps| => RecordOf(ps[i]))
  }

  /** The directory is read back record by record. */
  lemma ReadRecords(b: seq<byte>, at: nat, ps: seq<Placed>)
    requires forall i :: 0 <= i < |ps| ==> Fits(ps[i])
    requires At(b, at, Concat(CentralRecord, ps))
    ensures ReadCentral(b, at, |ps|) == Some(RecordsOf(ps))
  {
    forall i | 0 <= i < |ps| ensures ReadsIn(b, RecordReader(b), CentralRecord(ps[i]), RecordsOf(ps)[i]) {
      CentralRecordReads(b, ps[i]);
    }
    ReadListAt(b, RecordReader(b), at, ps, CentralRecord, RecordsOf(ps));
  }

  lemma ReadMemberAt(b: seq<byte>, r: Record, h: seq<byte>, data: seq<byte>)
    requires |h| == 30 && LocalAgrees(h, r) && Get16(h, 28) == 0
    requires At(b, r.offset, h) && At(b, r.offset + 30, r.name) && At(b, r.offset + 30 + |r.name|, data)
    requires r.size == |data|
    ensures ReadMember(b, r) == Some(Member(r.name, r.crc, data))
  {
  }

  lemma ReadOneMember(b: seq<byte>, p: Placed)
    requires Fits(p) && At(b, p.offset, Local(p.member))
    ensures ReadMember(b, RecordOf(p)) == Some(p.member)
  {
    var m := p.member;
    var h := LocalHeader(m.crc, |m.data|, |m.name|);
    LocalFields(m.crc, |m.data|, |m.name|, RecordOf(p));
    AtSplit(b, p.offset, h + m.name, m.data);
    AtSplit(b, p.offset, h, m.name);
    ReadMemberAt(b, RecordOf(p), h, m.data);
  }

  /** Every recorded offset lands on its member's local header. */
  lemma OffsetsLand(ms: seq<Member>, i: nat)
    requires i < |ms|
    ensures At(Archive(ms), Place(ms)[i].offset, Local(ms[i]))
  {
    var rest := Concat(Local, ms[i + 1..]);
    ConcatAt(Local, ms, i);
    Embed(Locals(ms[..i]), Local(ms[i]), rest, Central(ms), EndRecord(|ms|, |Central(ms)|, |Locals(ms)|));
  }

  lemma Embed(a: seq<byte>, x: seq<byte>, c: seq<byte>, d: seq<byte>, e: seq<byte>)
    ensures At(a + x + c + d + e, |a|, x)
  {
    assert (a + x + c + d + e)[|a|..|a| + |x|] == x;
  }

  lemma PlacedFits(ms: seq<Member>, i: nat)
    requires InLimits(ms) && i < |ms|
    ensures Fits(Place(ms)[i])
  {
    ConcatAt(Local, ms, i);
    assert |Local(ms[i])| == 30 + |ms[i].name| + |ms[i].data|;
  }

  /** The end record of `b` places a directory of `count` records. */
  predicate EndsWith(b: seq<byte>, count: nat, size: nat, offset: nat) {
    |b| == offset + size + 22 && EndSays(b[|b| - 22..], count, size, offset)
  }

  predicate EndSays(h: seq<byte>, count: nat, size: nat, offset: nat) {
    |h| == 22 && EndOk(h) && Get16(h, 10) == count && Get32(h, 12) == size && Get32(h, 16) == offset
  }

  predicate AllRead(b: seq<byte>, rs: seq<Record>, ms: seq<Member>) {
    |rs| == |ms| && forall i :: 0 <= i < |ms| ==> ReadMember(b, rs[i]) == Some(ms[i])
  }

  lemma ReadArchiveBy(b: seq<byte>, size: nat, offset: nat, rs: seq<Record>, ms: seq<Member>)
    requires EndsWith(b, |ms|, size, offset)
    requires ReadCentral(b, offset, |ms|) == Some(rs) && AllRead(b, rs, ms)
    ensures ReadArchive(b) == Some(ms)
  {
    TraverseAll(r => ReadMember(b, r), rs, ms);
  }

  lemma DirectoryReads(ms: seq<Member>)
    requires InLimits(ms)
    ensures ReadCentral(Archive(ms), |Locals(ms)|, |ms|) == Some(RecordsOf(Place(ms)))
  {
    CentralInPlace(ms);
    forall i | 0 <= i < |ms| ensures Fits(Place(ms)[i]) { PlacedFits(ms, i); }
    ReadRecords(Archive(ms), |Locals(ms)|, Place(ms));
  }

  lemma MemberReads(ms: seq<Member>, i: nat)
    requires InLimits(ms) && i < |ms|
    ensures ReadMember(Archive(ms), RecordsOf(Place(ms))[i]) == Some(ms[i])
  {
    PlacedFits(ms, i);
    OffsetsLand(ms, i);
    ReadOneMember(Archive(ms), Place(ms)[i]);
  }

  /** Within the field widths, the reader recovers exactly what was stored, in order. */
  lemma ArchiveRoundTrip(ms: seq<Member>)
    requires InLimits(ms)
    ensures ReadArchive(Archive(ms)) == Some(ms)
  {
    ArchiveEnds(ms, Locals(ms) + Central(ms), |Central(ms)|, |Locals(ms)|);
    ReadArchiveOf(ms, Archive(ms));
  }

  lemma ArchiveEnds(ms: seq<Member>, front: seq<byte>, size: nat, offset: nat)
    requires |ms| < 0x1_0000 && |front| == offset + size && size < 0x1_0000_0000 && offset < 0x1_0000_0000
    ensures EndsWith(front + EndRecord(|ms|, size, offset), |ms|, size, offset)
  {
    EndOfArchive(front, |ms|, |ms|, size, size, offset, offset);
  }

  lemma ReadArchiveOf(ms: seq<Member>, b: seq<byte>)
    requires InLimits(ms) && b == Archive(ms)
    requires EndsWith(b, |ms|, |Central(ms)|, |Locals(ms)|)
    ensures ReadArchive(b) == Some(ms)
  {
    DirectoryReads(ms);
    MembersRead(ms);
    ReadArchiveBy(b, |Central(ms)|, |Locals(ms)|, RecordsOf(Place(ms)), ms);
  }

  lemma MembersRead(ms: seq<Member>)
    requires InLimits(ms)
    ensures AllRead(Archive(ms), RecordsOf(Place(ms)), ms)
  {
    forall i | 0 <= i < |ms| ensures ReadMember(Archive(ms), RecordsOf(Place(ms))[i]) == Some(ms[i]) {
      MemberReads(ms, i);
    }
  }

  lemma CentralInPlace(ms: seq<Member>)
    ensures At(Archive(ms), |Locals(ms)|, Central(ms))
  {
    Embed(Locals(ms), Central(ms), [], [], EndRecord(|ms|, |Central(ms)|, |Locals(ms)|));
    assert Locals(ms) + Central(ms) + [] + [] == Locals(ms) + Central(ms);
  }

  lemma EndOfArchive(front: seq<byte>, n: nat, count: nat, size: nat, size': nat, offset: nat, offset': nat)
    requires count == n % 0x1_0000 && size' == size % 0x1_0000_0000 && offset' == offset % 0x1_0000_0000
    ensures var b := front + EndRecord(n, size, offset);
      |b| == |front| + 22 && EndSays(b[|b| - 22..], count, size', offset')
  {
    var h := EndRecord(n, size, offset);
    EndFields(n, size, offset);
    assert (front + h)[|front|..] == h;
  }

  // ---- What any archive that reads back must satisfy ---------------------------

  lemma {:induction false} ReadListHolds<R>(read: nat -> Option<(R, nat)>, at: nat, count: nat, ok: R -> bool)
    requires forall a :: read(a).Some? ==> ok(read(a).value.0)
    ensures ReadList(read, at, count).Some? ==>
      |ReadList(read, at, count).value| == count && forall r :: r in ReadList(read, at, count).value ==> ok(r)
    decreases count
  {
    if count > 0 && read(at).Some? { ReadListHolds(read, read(at).value.1, count - 1, ok); }
  }

  predicate SmallRecord(r: Record) { |r.name| < 0x1_0000 && r.crc < 0x1_0000_0000 }

  predicate SmallMember(m: Member) { |m.name| < 0x1_0000 && m.crc < 0x1_0000_0000 }

  lemma FieldsAreSmall(h: seq<byte>, at: nat)
    ensures at + 2 <= |h| ==> Get16(h, at) < 0x1_0000
    ensures at + 4 <= |h| ==> Get32(h, at) < 0x1_0000_0000
  {
  }

  lemma RecordIsSmall(b: seq<byte>, at: nat)
    requires ReadRecord(b, at).Some?
    ensures SmallRecord(ReadRecord(b, at).value.0)
  {
    FieldsAreSmall(b[at..at + 46], 28);
    FieldsAreSmall(b[at..at + 46], 16);
  }

  lemma MembersAreSmall(b: seq<byte>, rs: seq<Record>)
    requires ReadMembers(b, rs).Some? && forall r :: r in rs ==> SmallRecord(r)
    ensures |ReadMembers(b, rs).value| == |rs|
    ensures forall i :: 0 <= i < |rs| ==> SmallMember(ReadMembers(b, rs).value[i])
  {
    TraverseAt(r => ReadMember(b, r), rs);
    forall i | 0 <= i < |rs| ensures SmallMember(ReadMembers(b, rs).value[i]) { assert rs[i] in rs; }
  }

  /** The reader's own fields bound what it reads. */
  lemma ReadIsSmall(b: seq<byte>, h: seq<byte>)
    requires |b| >= 22 && h == b[|b| - 22..] && ReadArchive(b).Some?
    ensures |ReadArchive(b).value| == Get16(h, 10) && Get32(h, 16) + Get32(h, 12) == |b| - 22
    ensures forall i :: 0 <= i < |ReadArchive(b).value| ==> SmallMember(ReadArchive(b).value[i])
  {
    forall a | RecordReader(b)(a).Some? ensures SmallRecord(RecordReader(b)(a).value.0) { RecordIsSmall(b, a); }
    ReadListHolds(RecordReader(b), Get32(h, 16), Get16(h, 10), SmallRecord);
    MembersAreSmall(b, ReadCentral(b, Get32(h, 16), Get16(h, 10)).value);
  }

  lemma WrappedSum(a: nat, b: nat)
    requires a % 0x1_0000_0000 + b % 0x1_0000_0000 == a + b
    ensures a < 0x1_0000_0000 && b < 0x1_0000_0000
  {
  }

  /** Whatever an archive reads as, its parts fit their fields and its count is the wrapped one. */
  lemma ReadsOnlyInLimits(ms: seq<Member>)
    requires ReadArchive(Archive(ms)).Some?
    ensures |Locals(ms)| < 0x1_0000_0000 && |Central(ms)| < 0x1_0000_0000
    ensures |ReadArchive(Archive(ms)).value| == |ms| % 0x1_0000
    ensures forall i :: 0 <= i < |ReadArchive(Archive(ms)).value| ==> SmallMember(ReadArchive(Archive(ms)).value[i])
  {
    var b, front := Archive(ms), Locals(ms) + Central(ms);
    var size, offset := |Central(ms)| % 0x1_0000_0000, |Locals(ms)| % 0x1_0000_0000;
    EndOfArchive(front, |ms|, |ms| % 0x1_0000, |Central(ms)|, size, |Locals(ms)|, offset);
    ReadIsSmall(b, b[|b| - 22..]);
    WrappedSum(|Locals(ms)|, |Central(ms)|);
  }

  /** An archive reads back as its members exactly when every count, length and offset fits its field. */
  lemma ArchiveReadsExactly(ms: seq<Member>)
    ensures ReadArchive(Archive(ms)) == Some(ms) <==> InLimits(ms)
  {
    if InLimits(ms) {
      ArchiveRoundTrip(ms);
    } else if ReadArchive(Archive(ms)) == Some(ms) {
      ReadsOnlyInLimits(ms);
    }
  }

  /** The 16-bit entry count wraps: no archive of 65536 or more members reads back. */
  lemma TooManyMembers(ms: seq<Member>)
    requires |ms| >= 0x1_0000
    ensures ReadArchive(Archive(ms)) != Some(ms)
  {
    ArchiveReadsExactly(ms);
  }
}

/** `buildZip`: names through TextEncoder, checksums through the CRC table, then the layout. */
module Zip {
  import opened Bytes
  import opened Utf
  import opened ZipLayout
  import Crc32

  datatype Entry = Entry(path: seq<unit>, data: seq<byte>)
  datatype File = File(path: seq<scalar>, data: seq<byte>)

  function MemberOf(e: Entry): Member { Member(TextEncode(e.path), Crc32.Crc(e.data), e.data) }

  function MembersOf(es: seq<Entry>): seq<Member> {
    seq(|es|, i requires 0 <= i < |es| => MemberOf(es[i]))
  }

  method BuildZip(table: array<bv32>, entries: seq<Entry>) returns (out: array<byte>)
    requires Crc32.IsTable(table[..])
    ensures out[..] == Archive(MembersOf(entries))
  {
    ghost var ms := MembersOf(entries);
    var chunks: seq<seq<byte>> := [];
    var central: seq<seq<byte>> := [];
    var offset := 0;
    for i := 0 to |entries|
      invariant Written(ms, i, chunks, central, offset)
    {
      var name := TextEncode(entries[i].path);
      var crc := Crc32.TableCrc(table, entries[i].data);
      chunks, central, offset := AddMember(chunks, central, offset, Member(name, crc, entries[i].data), ms, i);
    }
    out := Finish(chunks, central, offset, |entries|, ms);
  }

  /** A member whose checksum agrees and whose name is valid UTF-8. */
  function FileOf(m: Member): Option<File> {
    if Crc32.Crc(m.data) != m.crc then None
    else match Decode8(m.name)
      case None => None
      case Some(path) => Some(File(path, m.data))
  }

  function ReadZip(b: seq<byte>): Option<seq<File>> {
    match ReadArchive(b)
    case None => None
    case Some(ms) => Traverse(FileOf, ms)
  }

  function Files(es: seq<Entry>): seq<File> {
    seq(|es|, i requires 0 <= i < |es| => File(Scalars(es[i].path), es[i].data))
  }

  predicate EntriesInLimits(es: seq<Entry>) {
    && |es| < 0x1_0000
    && (forall i :: 0 <= i < |es| ==> |TextEncode(es[i].path)| < 0x1_0000)
    && |Locals(MembersOf(es))| < 0x1_0000_0000 && |Central(MembersOf(es))| < 0x1_0000_0000
  }

  lemma EntryReads(e: Entry)
    ensures FileOf(MemberOf(e)) == Some(File(Scalars(e.path), e.data))
  {
    Utf8RoundTrip(Scalars(e.path));
  }

  lemma FilesRead(es: seq<Entry>)
    ensures Traverse(FileOf, MembersOf(es)) == Some(Files(es))
  {
    forall i | 0 <= i < |es| ensures FileOf(MembersOf(es)[i]) == Some(Files(es)[i]) { EntryReads(es[i]); }
    TraverseAll(FileOf, MembersOf(es), Files(es));
  }

  /** A file that reads back under its own path had its name stored whole. */
  lemma NameIsWhole(m: Member, f: File)
    requires FileOf(m) == Some(f)
    ensures m.name == Utf8(f.path)
  {
    DecodedEncodes(m.name);
  }

  lemma ReadOnlyInLimits(es: seq<Entry>)
    requires ReadZip(Archive(MembersOf(es))) == Some(Files(es))
    ensures EntriesInLimits(es)
  {
    var read := ReadArchive(Archive(MembersOf(es))).value;
    ReadsOnlyInLimits(MembersOf(es));
    TraverseAt(FileOf, read);
    forall i | 0 <= i < |es| ensures |TextEncode(es[i].path)| < 0x1_0000 { NameIsWhole(read[i], Files(es)[i]); }
  }

  /** Names, bytes, order and checksums come back exactly when every count, length and offset fits its field. */
  lemma ZipRoundTrip(es: seq<Entry>)
    ensures ReadZip(Archive(MembersOf(es))) == Some(Files(es)) <==> EntriesInLimits(es)
  {
    if EntriesInLimits(es) {
      forall i | 0 <= i < |es| ensures MembersOf(es)[i].crc < 0x1_0000_0000 { Crc32.CrcFits(es[i].data); }
      ArchiveRoundTrip(MembersOf(es));
      FilesRead(es);
    } else if ReadZip(Archive(MembersOf(es))) == Some(Files(es)) {
      ReadOnlyInLimits(es);
    }
  }

  lemma BytesOfNumber(b: seq<byte>)
    requires |b| == 4
    ensures LE32(Crc32.FromBytes(b)) == b
  {
    var b0: int, b1: int, b2: int, b3: int := b[0], b[1], b[2], b[3];
    var n := b0 + 0x100 * b1 + 0x1_0000 * b2 + 0x100_0000 * b3;
    assert n % 0x1_0000 == b0 + 0x100 * b1 && n / 0x1_0000 == b2 + 0x100 * b3;
    Pair(b0, b1);
    Pair(b2, b3);
  }

  lemma Pair(low: byte, high: byte)
    ensures LE16(low as int + 0x100 * high as int) == [low, high] && low as int + 0x100 * high as int < 0x1_0000
  {
  }

  /**
   * The checksum is the CRC-32 of the standard: data with its checksum appended as the headers
   * store it always has the checksum 0x2144DF1C, nothing has 0, and a zero byte has 0xD202EF8D.
   */
  lemma ChecksumIsStandard(data: seq<byte>)
    ensures Crc32.Crc(data + LE32(Crc32.Crc(data))) == 0x2144DF1C
    ensures Crc32.Crc([]) == 0 && Crc32.Crc([0]) == 0xD202EF8D
  {
    BytesOfNumber(Crc32.WordBytes(Crc32.FeedBytes(Crc32.ALL_ONES, data) ^ Crc32.ALL_ONES));
    Crc32.CrcOfOwnCrc(data);
    Crc32.CrcOfNothing();
    Crc32.CrcOfZeroByte();
  }

  /** A stored byte changed in place is caught: the checksum no longer agrees. */
  lemma CorruptionDetected(e: Entry, k: nat, x: byte)
    requires k < |e.data| && e.data[k] != x
    ensures FileOf(MemberOf(e).(data := e.data[k := x])) == None
  {
    var before, after := e.data[..k], e.data[k + 1..];
    assert e.data == before + [e.data[k]] + after && e.data[k := x] == before + [x] + after;
    Crc32.OneByteChangeDetected(before, e.data[k], x, after);
  }
}
