/**
 * The completion stream of internal/openrouter/stream.go: Server-Sent-Events lines
 * (the subset of section 9.2.6 of the HTML Living Standard the source reads) to text
 * deltas and one assembled message. The JSON decoder is a parameter.
 */
module Assembly {
  import opened Bytes

  datatype ToolDelta = ToolDelta(index: int, id: string, kind: string, name: string, arguments: string)
  datatype Delta = Delta(content: string, tools: seq<ToolDelta>)
  datatype Counts = Counts(prompt: int, completion: int, cost: real)
  datatype Chunk = Chunk(id: string, model: string, choices: seq<Delta>, usage: Option<Counts>)

  datatype ToolCall = ToolCall(id: string, kind: string, name: string, arguments: string)
  datatype Usage = Usage(generation: string, model: string, counts: Counts)
  datatype Message = Message(content: string, toolCalls: seq<ToolCall>)

  const NO_COUNTS := Counts(0, 0, 0.0)

  // ---- What a completion is, from all its chunks --------------------------------

  /** Only the first choice counts. */
  function TextOf(c: Chunk): string { if c.choices == [] then "" else c.choices[0].content }
  function ToolsOf(c: Chunk): seq<ToolDelta> { if c.choices == [] then [] else c.choices[0].tools }

  function Text(chunks: seq<Chunk>): string { Concat(TextOf, chunks) }
  function Tools(chunks: seq<Chunk>): seq<ToolDelta> { Concat(ToolsOf, chunks) }

  /** The fragments of one tool call, in order. */
  function Of(ds: seq<ToolDelta>, i: nat): seq<ToolDelta> {
    if ds == [] then []
    else Of(ds[..|ds| - 1], i) + if ds[|ds| - 1].index == i then [ds[|ds| - 1]] else []
  }

  function IdOf(d: ToolDelta): string { d.id }
  function KindOf(d: ToolDelta): string { d.kind }
  function NameOf(d: ToolDelta): string { d.name }
  function ArgumentsOf(d: ToolDelta): string { d.arguments }

  /** The last non-empty value, or `none`. */
  function LastOf<T>(f: T -> string, ds: seq<T>, none: string): string {
    if ds == [] then none
    else if f(ds[|ds| - 1]) != "" then f(ds[|ds| - 1])
    else LastOf(f, ds[..|ds| - 1], none)
  }

  function CallOf(fragments: seq<ToolDelta>): ToolCall {
    ToolCall(LastOf(IdOf, fragments, ""), LastOf(KindOf, fragments, "function"), LastOf(NameOf, fragments, ""),
             Concat(ArgumentsOf, fragments))
  }

  /** One past the highest wire index. */
  function CallCount(ds: seq<ToolDelta>): nat {
    if ds == [] then 0
    else
      var front, i := CallCount(ds[..|ds| - 1]), ds[|ds| - 1].index;
      if i >= front then i + 1 else front
  }

  function Calls(ds: seq<ToolDelta>): seq<ToolCall> {
    seq(CallCount(ds), i requires 0 <= i => CallOf(Of(ds, i)))
  }

  function UsageAfter(u: Option<Usage>, c: Chunk): Option<Usage> {
    var was := if u.Some? then u.value else Usage("", "", NO_COUNTS);
    Some(Usage(if c.id != "" then c.id else was.generation, if c.model != "" then c.model else was.model,
               if c.usage.Some? then c.usage.value else was.counts))
  }

  function UsageOf(chunks: seq<Chunk>): Option<Usage> {
    if chunks == [] then None else UsageAfter(UsageOf(chunks[..|chunks| - 1]), chunks[|chunks| - 1])
  }

  function ChunkId(c: Chunk): string { c.id }
  function ChunkModel(c: Chunk): string { c.model }

  function LastCounts(chunks: seq<Chunk>): Counts {
    if chunks == [] then NO_COUNTS
    else if chunks[|chunks| - 1].usage.Some? then chunks[|chunks| - 1].usage.value
    else LastCounts(chunks[..|chunks| - 1])
  }

  /** Usage is absent only if no chunk came; else it is the last id, the last model and the last counts given. */
  lemma {:induction false} UsageIsLast(chunks: seq<Chunk>)
    ensures UsageOf(chunks) == if chunks == [] then None
      else Some(Usage(LastOf(ChunkId, chunks, ""), LastOf(ChunkModel, chunks, ""), LastCounts(chunks)))
  {
    if chunks != [] { UsageIsLast(chunks[..|chunks| - 1]); }
  }

  function Assembled(chunks: seq<Chunk>): Message { Message(Text(chunks), Calls(Tools(chunks))) }

  // ---- Interleaving ------------------------------------------------------------

  lemma {:induction false} CountCovers(ds: seq<ToolDelta>, i: nat)
    ensures Of(ds, i) != [] ==> i < CallCount(ds)
  {
    if ds != [] { CountCovers(ds[..|ds| - 1], i); }
  }

  lemma {:induction false} CountReached(ds: seq<ToolDelta>)
    ensures CallCount(ds) > 0 ==> Of(ds, CallCount(ds) - 1) != []
  {
    if ds != [] { CountReached(ds[..|ds| - 1]); }
  }

  /** However the fragments of different calls interleave, the calls assembled are the same. */
  lemma InterleavingDoesNotMatter(a: seq<ToolDelta>, b: seq<ToolDelta>)
    requires forall i: nat :: Of(a, i) == Of(b, i)
    ensures Calls(a) == Calls(b)
  {
    CountReached(a);
    CountReached(b);
    if CallCount(a) > 0 { CountCovers(b, CallCount(a) - 1); }
    if CallCount(b) > 0 { CountCovers(a, CallCount(b) - 1); }
  }

  /** Fragment `j` is the last of call `i` that gives a field. */
  predicate GivesLast(f: ToolDelta -> string, ds: seq<ToolDelta>, i: nat, j: int) {
    && 0 <= j < |ds| && ds[j].index == i && f(ds[j]) != ""
    && forall m :: j < m < |ds| && ds[m].index == i ==> f(ds[m]) == ""
  }

  lemma LastOfPush(f: ToolDelta -> string, ds: seq<ToolDelta>, i: nat, none: string)
    requires ds != []
    ensures var n := |ds| - 1;
      LastOf(f, Of(ds, i), none)
        == if ds[n].index == i && f(ds[n]) != "" then f(ds[n]) else LastOf(f, Of(ds[..n], i), none)
  {
    var n := |ds| - 1;
    var front := Of(ds[..n], i);
    assert (front + [ds[n]])[..|front|] == front && front + [] == front;
  }

  lemma {:induction false} LastOfGiven(f: ToolDelta -> string, ds: seq<ToolDelta>, i: nat, none: string, j: nat)
    requires GivesLast(f, ds, i, j)
    ensures LastOf(f, Of(ds, i), none) == f(ds[j])
  {
    LastOfPush(f, ds, i, none);
    if j < |ds| - 1 { LastOfGiven(f, ds[..|ds| - 1], i, none, j); }
  }

  lemma {:induction false} LastOfNone(f: ToolDelta -> string, ds: seq<ToolDelta>, i: nat, none: string)
    requires forall m :: 0 <= m < |ds| && ds[m].index == i ==> f(ds[m]) == ""
    ensures LastOf(f, Of(ds, i), none) == none
  {
    if ds != [] {
      LastOfPush(f, ds, i, none);
      LastOfNone(f, ds[..|ds| - 1], i, none);
    }
  }

  /** The arguments a fragment adds to call `i`. */
  function ArgumentsFor(i: nat): ToolDelta -> string { (d: ToolDelta) => if d.index == i then d.arguments else "" }

  lemma {:induction false} ArgumentsInOrder(ds: seq<ToolDelta>, i: nat)
    ensures Concat(ArgumentsOf, Of(ds, i)) == Concat(ArgumentsFor(i), ds)
  {
    if ds != [] {
      var n := |ds| - 1;
      ArgumentsInOrder(ds[..n], i);
      ConcatAppend(ArgumentsOf, Of(ds[..n], i), if ds[n].index == i then [ds[n]] else []);
      ConcatOne(ArgumentsOf, ds[n]);
      assert Concat(ArgumentsFor(i), ds[..n]) + "" == Concat(ArgumentsFor(i), ds[..n]);
    }
  }

  /**
   * A call's arguments are those of its index's fragments, in order; its id, type and name are the
   * last its fragments give, and without one it has no id and no name and is a function.
   */
  lemma CallIsAssembled(ds: seq<ToolDelta>, i: nat)
    requires i < |Calls(ds)|
    ensures Calls(ds)[i].arguments == Concat(ArgumentsFor(i), ds)
    ensures forall j :: GivesLast(IdOf, ds, i, j) ==> Calls(ds)[i].id == ds[j].id
    ensures forall j :: GivesLast(KindOf, ds, i, j) ==> Calls(ds)[i].kind == ds[j].kind
    ensures forall j :: GivesLast(NameOf, ds, i, j) ==> Calls(ds)[i].name == ds[j].name
    ensures (forall d :: d in ds && d.index == i ==> d.id == "") ==> Calls(ds)[i].id == ""
    ensures (forall d :: d in ds && d.index == i ==> d.kind == "") ==> Calls(ds)[i].kind == "function"
    ensures (forall d :: d in ds && d.index == i ==> d.name == "") ==> Calls(ds)[i].name == ""
  {
    ArgumentsInOrder(ds, i);
    forall j | GivesLast(IdOf, ds, i, j) ensures Calls(ds)[i].id == ds[j].id { LastOfGiven(IdOf, ds, i, "", j); }
    forall j | GivesLast(KindOf, ds, i, j) ensures Calls(ds)[i].kind == ds[j].kind {
      LastOfGiven(KindOf, ds, i, "function", j);
    }
    forall j | GivesLast(NameOf, ds, i, j) ensures Calls(ds)[i].name == ds[j].name {
      LastOfGiven(NameOf, ds, i, "", j);
    }
    if forall d :: d in ds && d.index == i ==> d.id == "" { LastOfNone(IdOf, ds, i, ""); }
    if forall d :: d in ds && d.index == i ==> d.kind == "" { LastOfNone(KindOf, ds, i, "function"); }
    if forall d :: d in ds && d.index == i ==> d.name == "" { LastOfNone(NameOf, ds, i, ""); }
  }

  // ---- The assembler -----------------------------------------------------------

  class Assembler {
    var content: string
    var calls: seq<ToolCall>
    var usage: Option<Usage>
    /** Everything applied so far. */
    ghost var chunks: seq<Chunk>

    constructor ()
      ensures Valid() && chunks == []
    {
      content, calls, usage, chunks := "", [], None, [];
    }

    ghost predicate Valid()
      reads this
    {
      Message(content, calls) == Assembled(chunks) && usage == UsageOf(chunks)
    }

    method ApplyToolDelta(d: ToolDelta, ghost before: seq<ToolDelta>)
      requires calls == Calls(before)
      modifies this`calls
      ensures calls == Calls(before + [d])
    {
      if d.index < 0 {
        CallsUntouched(before, d);
        return;
      }
      while |calls| <= d.index
        invariant CallCount(before) <= |calls|
        invariant |calls| <= if CallCount(before) <= d.index then d.index + 1 else CallCount(before)
        invariant forall i :: 0 <= i < |calls| ==> calls[i] == CallOf(Of(before, i))
      {
        CountCovers(before, |calls|);
        calls := calls + [ToolCall("", "function", "", "")];
      }
      CallsExtended(before, d, calls);
      var call := calls[d.index];
      if d.id != "" { call := call.(id := d.id); }
      if d.kind != "" { call := call.(kind := d.kind); }
      if d.name != "" { call := call.(name := d.name); }
      call := call.(arguments := call.arguments + d.arguments);
      calls := calls[d.index := call];
    }

    /** Folds one chunk in; returns the text to emit, if the chunk carried any. */
    method Apply(chunk: Chunk) returns (delta: string, ok: bool)
      requires Valid()
      modifies this
      ensures Valid() && chunks == old(chunks) + [chunk]
      ensures delta == TextOf(chunk) && ok == (delta != "")
    {
      usage := UsageAfter(usage, chunk);
      AssembledPush(chunks, chunk);
      if chunk.choices == [] {
        assert Tools(chunks) + [] == Tools(chunks) && Text(chunks) + "" == Text(chunks);
        chunks := chunks + [chunk];
        return "", false;
      }
      var choice := chunk.choices[0];
      ApplyTools(choice.tools, Tools(chunks));
      content := content + choice.content;
      chunks := chunks + [chunk];
      return choice.content, choice.content != "";
    }

    method ApplyTools(tools: seq<ToolDelta>, ghost before: seq<ToolDelta>)
      requires calls == Calls(before)
      modifies this`calls
      ensures calls == Calls(before + tools)
    {
      assert before + tools[..0] == before;
      for i := 0 to |tools|
        invariant calls == Calls(before + tools[..i])
      {
        ApplyToolDelta(tools[i], before + tools[..i]);
        assert before + tools[..i] + [tools[i]] == before + tools[..i + 1];
      }
      assert tools[..|tools|] == tools;
    }

    method Finish() returns (message: Message, u: Option<Usage>)
      requires Valid()
      ensures message == Assembled(chunks) && u == UsageOf(chunks)
    {
      message, u := Message(content, calls), usage;
    }
  }

  function Extended(call: ToolCall, d: ToolDelta): ToolCall {
    ToolCall(if d.id != "" then d.id else call.id, if d.kind != "" then d.kind else call.kind,
             if d.name != "" then d.name else call.name, call.arguments + d.arguments)
  }

  lemma ExtendCall(fragments: seq<ToolDelta>, d: ToolDelta)
    ensures CallOf(fragments + [d]) == Extended(CallOf(fragments), d)
  {
    assert (fragments + [d])[..|fragments|] == fragments;
  }

  lemma CountPush(before: seq<ToolDelta>, d: ToolDelta)
    ensures CallCount(before + [d]) == if d.index >= CallCount(before) then d.index + 1 else CallCount(before)
  {
    assert (before + [d])[..|before|] == before;
  }

  lemma CallPush(before: seq<ToolDelta>, d: ToolDelta, i: nat)
    ensures CallOf(Of(before + [d], i))
         == if d.index == i then Extended(CallOf(Of(before, i)), d) else CallOf(Of(before, i))
  {
    assert (before + [d])[..|before|] == before;
    if d.index == i {
      ExtendCall(Of(before, i), d);
    } else {
      assert Of(before + [d], i) == Of(before, i);
    }
  }

  lemma CallsUntouched(before: seq<ToolDelta>, d: ToolDelta)
    requires d.index < 0
    ensures Calls(before + [d]) == Calls(before)
  {
    CountPush(before, d);
    forall i | 0 <= i < CallCount(before) ensures CallOf(Of(before + [d], i)) == CallOf(Of(before, i)) {
      CallPush(before, d, i);
    }
  }

  /** Padded out to the fragment's index, the calls differ from the new ones only there. */
  lemma CallsExtended(before: seq<ToolDelta>, d: ToolDelta, padded: seq<ToolCall>)
    requires 0 <= d.index < |padded|
    requires |padded| == if d.index >= CallCount(before) then d.index + 1 else CallCount(before)
    requires forall i :: 0 <= i < |padded| ==> padded[i] == CallOf(Of(before, i))
    ensures Calls(before + [d]) == padded[d.index := Extended(padded[d.index], d)]
  {
    CountPush(before, d);
    forall i | 0 <= i < |padded|
      ensures Calls(before + [d])[i] == if d.index == i then Extended(padded[i], d) else padded[i]
    {
      CallPush(before, d, i);
    }
    ChangedAt(Calls(before + [d]), padded, d.index, Extended(padded[d.index], d));
  }

  lemma ChangedAt<T>(a: seq<T>, b: seq<T>, k: nat, x: T)
    requires |a| == |b| && k < |b| && a[k] == x
    requires forall i :: 0 <= i < |b| && i != k ==> a[i] == b[i]
    ensures a == b[k := x]
  {
  }

  lemma AssembledPush(chunks: seq<Chunk>, chunk: Chunk)
    ensures Text(chunks + [chunk]) == Text(chunks) + TextOf(chunk)
    ensures Tools(chunks + [chunk]) == Tools(chunks) + ToolsOf(chunk)
    ensures UsageOf(chunks + [chunk]) == UsageAfter(UsageOf(chunks), chunk)
  {
    assert (chunks + [chunk])[..|chunks|] == chunks;
  }
}

/** The read loop: lines in, events out. */
module StreamReader {
  import opened Bytes
  import opened Assembly

  datatype Event = Text(delta: string) | Done(message: Message, usage: Option<Usage>) | Error

  /** How the body ends, and whether the context was cancelled by then. */
  datatype Ending = Eof(cancelled: bool) | Broken

  // ---- Lines -------------------------------------------------------------------

  /** The lines `ReadString('\n')` returns: each with its newline, the last perhaps without. */
  function Lines(body: string): seq<string> {
    if body == "" then []
    else
      var k := LineLength(body);
      [body[..k]] + Lines(body[k..])
  }

  function LineLength(body: string): (k: nat)
    requires body != ""
    ensures 1 <= k <= |body|
    ensures forall i :: 0 <= i < k - 1 ==> body[i] != '\n'
    ensures k == |body| || body[k - 1] == '\n'
  {
    if body[0] == '\n' || |body| == 1 then 1 else 1 + LineLength(body[1..])
  }

  function Itself(line: string): string { line }

  lemma {:induction false} LinesRejoin(body: string)
    ensures Concat(Itself, Lines(body)) == body
  {
    if body != "" {
      var k := LineLength(body);
      LinesRejoin(body[k..]);
      ConcatCons(Itself, body[..k], Lines(body[k..]));
      assert body == body[..k] + body[k..];
    }
  }

  predicate IsSpace(c: char) { IsSpaceCode(c as int) }
  predicate EndsLine(c: char) { c == '\n' || c == '\r' }

  function TrimSpace(s: string): string { TrimRight(IsSpace, TrimLeft(IsSpace, s)) }
  function TrimEnd(line: string): string { TrimRight(EndsLine, line) }

  /** The payload of a data line; comments, blank lines and other fields have none. */
  function Payload(line: string): Option<string> {
    var trimmed := TrimEnd(line);
    if "data:" <= trimmed then Some(TrimSpace(trimmed[5..])) else None
  }

  // ---- What the lines say ------------------------------------------------------

  datatype Stop = DoneMark | Malformed | EndOfBody

  /** What one line is to the reader. */
  datatype Line = Skip | Data(chunk: Chunk) | Finish | Bad

  function Classify(decode: string -> Option<Chunk>, line: string): Line {
    match Payload(line)
    case None => Skip
    case Some(payload) =>
      if payload == "[DONE]" then Finish
      else match decode(payload)
        case None => Bad
        case Some(chunk) => Data(chunk)
  }

  /** The chunks up to what stops the reader, and what that is. */
  function Scan(classify: string -> Line, lines: seq<string>): (seq<Chunk>, Stop) {
    if lines == [] then ([], EndOfBody)
    else match classify(lines[0])
      case Skip => Scan(classify, lines[1..])
      case Finish => ([], DoneMark)
      case Bad => ([], Malformed)
      case Data(chunk) =>
        var (rest, stop) := Scan(classify, lines[1..]);
        ([chunk] + rest, stop)
  }

  function DeltaOf(c: Chunk): seq<Event> { if TextOf(c) == "" then [] else [Text(TextOf(c))] }

  function Terminal(chunks: seq<Chunk>, stop: Stop, ending: Ending): Event {
    if stop == DoneMark || (stop == EndOfBody && ending == Eof(false)) then Done(Assembled(chunks), UsageOf(chunks))
    else Error
  }

  /** Every event the reader tries to send. */
  function Attempts(classify: string -> Line, lines: seq<string>, ending: Ending): seq<Event> {
    var (chunks, stop) := Scan(classify, lines);
    Concat(DeltaOf, chunks) + [Terminal(chunks, stop, ending)]
  }

  /** Sending stops at the first event that cannot be delivered, which takes a cancelled context. */
  function Delivered(attempts: seq<Event>, delivers: nat -> bool, from: nat): seq<Event>
  {
    if attempts == [] || !delivers(from) then []
    else [attempts[0]] + Delivered(attempts[1..], delivers, from + 1)
  }

  // ---- The loop ----------------------------------------------------------------

  lemma {:induction false} DeliveredAll(a: seq<Event>, b: seq<Event>, delivers: nat -> bool, from: nat)
    requires forall k :: from <= k < from + |a| ==> delivers(k)
    ensures Delivered(a + b, delivers, from) == a + Delivered(b, delivers, from + |a|)
  {
    if a == [] {
      assert a + b == b;
    } else {
      DeliveredAll(a[1..], b, delivers, from + 1);
      assert (a + b)[1..] == a[1..] + b;
    }
  }

  method ReadStream(classify: string -> Line, body: string, ending: Ending, delivers: nat -> bool)
    returns (events: seq<Event>)
    ensures events == Delivered(Attempts(classify, Lines(body), ending), delivers, 0)
  {
    var asm := new Assembler();
    var rest := body;
    events := [];
    ghost var all := Scan(classify, Lines(body));
    assert [] + all.0 == all.0;
    while rest != ""
      invariant fresh(asm) && asm.Valid()
      invariant Leads(classify, asm.chunks, Lines(rest), all)
      invariant events == Concat(DeltaOf, asm.chunks)
      invariant forall k :: 0 <= k < |events| ==> delivers(k)
      decreases |rest|
    {
      ghost var lines, before := Lines(rest), asm.chunks;
      ScanLine(classify, before, lines, all);
      var line;
      line, rest := NextLine(rest);
      match classify(line) {
        case Skip =>
        case Data(chunk) =>
          var alive;
          events, alive := Feed(asm, chunk, events, delivers);
          if !alive {
            StoppedEarly(before, chunk, Scan(classify, lines[1..]).0, Terminal(all.0, all.1, ending), delivers);
            return;
          }
        case Finish =>
          events := SendLast(asm, true, events, delivers, all, ending);
          return;
        case Bad =>
          events := SendLast(asm, false, events, delivers, all, ending);
          return;
      }
    }
    assert asm.chunks + [] == asm.chunks;
    events := SendLast(asm, ending == Eof(false), events, delivers, all, ending);
  }

  /** Apply a chunk, and send its text if it carried any. */
  method Feed(asm: Assembler, chunk: Chunk, sent: seq<Event>, delivers: nat -> bool)
    returns (events: seq<Event>, alive: bool)
    requires asm.Valid() && sent == Concat(DeltaOf, asm.chunks) && forall k :: 0 <= k < |sent| ==> delivers(k)
    modifies asm
    ensures asm.Valid() && asm.chunks == old(asm.chunks) + [chunk]
    ensures alive ==> events == Concat(DeltaOf, asm.chunks) && forall k :: 0 <= k < |events| ==> delivers(k)
    ensures !alive ==> events == sent && TextOf(chunk) != "" && !delivers(|sent|)
  {
    DeltasPush(asm.chunks, chunk);
    var delta, ok := asm.Apply(chunk);
    events, alive := sent, true;
    if ok {
      alive := delivers(|sent|);
      if alive { events := sent + [Text(delta)]; }
    }
  }

  lemma DeltasPush(before: seq<Chunk>, chunk: Chunk)
    ensures Concat(DeltaOf, before + [chunk]) == Concat(DeltaOf, before) + DeltaOf(chunk)
  {
    assert (before + [chunk])[..|before|] == before;
  }

  /** `ReadString`: the bytes up to and including the next newline, or all that is left. */
  method NextLine(body: string) returns (line: string, rest: string)
    requires body != ""
    ensures Lines(body) == [line] + Lines(rest) && |rest| < |body|
  {
    var k := 0;
    while k + 1 < |body| && body[k] != '\n'
      invariant 0 <= k < |body|
      invariant LineLength(body) == k + LineLength(body[k..])
    {
      assert body[k..][1..] == body[k + 1..];
      k := k + 1;
    }
    line, rest := body[..k + 1], body[k + 1..];
  }

  /** With `chunks` read and `lines` to come, the whole scan is `all`. */
  ghost predicate Leads(classify: string -> Line, chunks: seq<Chunk>, lines: seq<string>, all: (seq<Chunk>, Stop)) {
    all.0 == chunks + Scan(classify, lines).0 && all.1 == Scan(classify, lines).1
  }

  lemma ScanLine(classify: string -> Line, chunks: seq<Chunk>, lines: seq<string>, all: (seq<Chunk>, Stop))
    requires lines != [] && Leads(classify, chunks, lines, all)
    ensures match classify(lines[0])
      case Skip => Leads(classify, chunks, lines[1..], all)
      case Finish => all == (chunks, DoneMark)
      case Bad => all == (chunks, Malformed)
      case Data(chunk) => Leads(classify, chunks + [chunk], lines[1..], all)
  {
    match classify(lines[0])
    case Skip =>
    case Finish => assert chunks + [] == chunks;
    case Bad => assert chunks + [] == chunks;
    case Data(chunk) =>
      var tail := Scan(classify, lines[1..]).0;
      assert chunks + ([chunk] + tail) == chunks + [chunk] + tail;
  }

  method TerminalEvent(asm: Assembler, complete: bool, ghost all: (seq<Chunk>, Stop), ghost ending: Ending)
    returns (last: Event)
    requires asm.Valid() && asm.chunks == all.0
    requires complete == (all.1 == DoneMark || (all.1 == EndOfBody && ending == Eof(false)))
    ensures last == Terminal(all.0, all.1, ending)
  {
    last := Error;
    if complete {
      var message, usage := asm.Finish();
      last := Done(message, usage);
    }
  }

  /** `finish` or `fail`: one last send, which may not be delivered. */
  method SendLast(
    asm: Assembler, complete: bool, sent: seq<Event>, delivers: nat -> bool,
    ghost all: (seq<Chunk>, Stop), ghost ending: Ending) returns (events: seq<Event>)
    requires asm.Valid() && asm.chunks == all.0
    requires complete == (all.1 == DoneMark || (all.1 == EndOfBody && ending == Eof(false)))
    requires forall k :: 0 <= k < |sent| ==> delivers(k)
    ensures events == Delivered(sent + [Terminal(all.0, all.1, ending)], delivers, 0)
  {
    var last := TerminalEvent(asm, complete, all, ending);
    events := if delivers(|sent|) then sent + [last] else sent;
    OneMoreDelivered(sent, last, delivers);
  }

  lemma DeliveredOne(last: Event, delivers: nat -> bool, from: nat)
    ensures Delivered([last], delivers, from) == if delivers(from) then [last] else []
  {
    var one := [last];
    assert one[1..] == [] && Delivered([], delivers, from + 1) == [] && [last] + [] == [last];
  }

  lemma OneMoreDelivered(sent: seq<Event>, last: Event, delivers: nat -> bool)
    requires forall k :: 0 <= k < |sent| ==> delivers(k)
    ensures Delivered(sent + [last], delivers, 0) == if delivers(|sent|) then sent + [last] else sent
  {
    DeliveredAll(sent, [last], delivers, 0);
    DeliveredOne(last, delivers, |sent|);
  }

  lemma StoppedEarly(before: seq<Chunk>, chunk: Chunk, tail: seq<Chunk>, last: Event, delivers: nat -> bool)
    requires TextOf(chunk) != "" && !delivers(|Concat(DeltaOf, before)|)
    requires forall k :: 0 <= k < |Concat(DeltaOf, before)| ==> delivers(k)
    ensures Delivered(Concat(DeltaOf, before + [chunk] + tail) + [last], delivers, 0) == Concat(DeltaOf, before)
  {
    var sent, more := Concat(DeltaOf, before), DeltaOf(chunk) + Concat(DeltaOf, tail) + [last];
    ConcatAppend(DeltaOf, before + [chunk], tail);
    assert (before + [chunk])[..|before|] == before;
    assert Concat(DeltaOf, before + [chunk] + tail) + [last] == sent + more;
    DeliveredAll(sent, more, delivers, 0);
    assert Delivered(more, delivers, |sent|) == [];
  }

  // ---- What a consumer sees ----------------------------------------------------

  predicate IsTerminal(e: Event) { !e.Text? }

  function Deltas(events: seq<Event>): string {
    if events == [] then ""
    else
      var front, last := Deltas(events[..|events| - 1]), events[|events| - 1];
      front + if last.Text? then last.delta else ""
  }

  lemma {:induction false} DeliveredIsPrefix(attempts: seq<Event>, delivers: nat -> bool, from: nat)
    ensures Delivered(attempts, delivers, from) <= attempts
    ensures (forall k :: from <= k < from + |attempts| ==> delivers(k)) ==>
      Delivered(attempts, delivers, from) == attempts
  {
    if attempts != [] { DeliveredIsPrefix(attempts[1..], delivers, from + 1); }
  }

  lemma {:induction false} DeltasAreText(chunks: seq<Chunk>)
    ensures forall i :: 0 <= i < |Concat(DeltaOf, chunks)| ==> Concat(DeltaOf, chunks)[i].Text?
    ensures Deltas(Concat(DeltaOf, chunks)) == Assembly.Text(chunks)
  {
    if chunks != [] {
      var front, last := chunks[..|chunks| - 1], chunks[|chunks| - 1];
      DeltasAreText(front);
      var events := Concat(DeltaOf, chunks);
      if TextOf(last) == "" {
        assert events == Concat(DeltaOf, front);
        assert Assembly.Text(front) + "" == Assembly.Text(front);
      } else {
        assert events == Concat(DeltaOf, front) + [Text(TextOf(last))];
        assert events[..|events| - 1] == Concat(DeltaOf, front);
      }
    }
  }

  /** The source's reading of a line, for a given JSON decoder. */
  function Reader(decode: string -> Option<Chunk>): string -> Line { line => Classify(decode, line) }

  /** Every event the reader of a stream tries to send, and those it gets to send. */
  function Tried(decode: string -> Option<Chunk>, body: string, ending: Ending): seq<Event> {
    Attempts(Reader(decode), Lines(body), ending)
  }

  function Sent(decode: string -> Option<Chunk>, body: string, ending: Ending, delivers: nat -> bool): seq<Event> {
    Delivered(Tried(decode, body, ending), delivers, 0)
  }

  predicate EndsTerminally(events: seq<Event>) { events != [] && IsTerminal(events[|events| - 1]) }

  /**
   * For every body and every cancellation: deltas, then at most one terminal event and nothing
   * after it; one exactly when every send was delivered; and a done event's text is the
   * concatenation of the deltas sent before it, its calls those of the chunks read.
   */
  lemma ConsumerSees(decode: string -> Option<Chunk>, body: string, ending: Ending, delivers: nat -> bool)
    ensures var events := Sent(decode, body, ending, delivers);
      var chunks := Scan(Reader(decode), Lines(body)).0;
      && (forall i :: 0 <= i < |events| - 1 ==> events[i].Text?)
      && (EndsTerminally(events) <==> forall k :: 0 <= k < |Tried(decode, body, ending)| ==> delivers(k))
      && (events != [] && events[|events| - 1].Done? ==>
            && events[|events| - 1].message.content == Deltas(events[..|events| - 1])
            && events[|events| - 1].message.toolCalls == Calls(Tools(chunks)))
  {
    var (chunks, stop) := Scan(Reader(decode), Lines(body));
    DeltasAreText(chunks);
    SeenInOrder(Concat(DeltaOf, chunks), Terminal(chunks, stop, ending), delivers, Calls(Tools(chunks)));
  }

  lemma SeenInOrder(texts: seq<Event>, last: Event, delivers: nat -> bool, calls: seq<ToolCall>)
    requires IsTerminal(last) && forall i :: 0 <= i < |texts| ==> texts[i].Text?
    requires last.Done? ==> last.message == Message(Deltas(texts), calls)
    ensures var events := Delivered(texts + [last], delivers, 0);
      && (forall i :: 0 <= i < |events| - 1 ==> events[i].Text?)
      && (EndsTerminally(events) <==> forall k :: 0 <= k < |texts + [last]| ==> delivers(k))
      && (events != [] && events[|events| - 1].Done? ==>
            && events[|events| - 1].message.content == Deltas(events[..|events| - 1])
            && events[|events| - 1].message.toolCalls == calls)
  {
    SentInOrder(texts, last, delivers);
  }

  // ---- Which terminal event, and what it says, line by line --------------------

  /** The line is a data line with this payload. */
  ghost predicate Carries(line: string, payload: string) {
    exists rest :: TrimEnd(line) == "data:" + rest && payload == TrimSpace(rest)
  }

  ghost predicate SaysDone(line: string) { Carries(line, "[DONE]") }

  ghost predicate SaysNonsense(decode: string -> Option<Chunk>, line: string) {
    exists payload :: Carries(line, payload) && payload != "[DONE]" && decode(payload).None?
  }

  /** Line `n` is the first that ends the stream, or there is none and `n` is past the last. */
  ghost predicate StopsAt(decode: string -> Option<Chunk>, lines: seq<string>, n: int) {
    && 0 <= n <= |lines|
    && (n < |lines| ==> SaysDone(lines[n]) || SaysNonsense(decode, lines[n]))
    && forall i :: 0 <= i < n ==> !SaysDone(lines[i]) && !SaysNonsense(decode, lines[i])
  }

  /** The chunk a line carries, if it carries one. */
  function LineChunk(decode: string -> Option<Chunk>): string -> seq<Chunk> {
    (line: string) =>
      if Payload(line).Some? && decode(Payload(line).value).Some? then [decode(Payload(line).value).value] else []
  }

  /** The text, and the tool fragments, of the first choice of the chunk a line carries. */
  function LineText(decode: string -> Option<Chunk>): string -> string {
    (line: string) =>
      var c := LineChunk(decode)(line);
      if c != [] && c[0].choices != [] then c[0].choices[0].content else ""
  }

  function LineTools(decode: string -> Option<Chunk>): string -> seq<ToolDelta> {
    (line: string) =>
      var c := LineChunk(decode)(line);
      if c != [] && c[0].choices != [] then c[0].choices[0].tools else []
  }

  lemma PayloadExactly(line: string, payload: string)
    ensures Payload(line) == Some(payload) <==> Carries(line, payload)
  {
    var trimmed := TrimEnd(line);
    if "data:" <= trimmed { assert trimmed == "data:" + trimmed[5..]; }
    if rest :| trimmed == "data:" + rest && payload == TrimSpace(rest) { assert trimmed[5..] == rest; }
  }

  lemma ClassifyExactly(decode: string -> Option<Chunk>, line: string)
    ensures Classify(decode, line) == Finish <==> SaysDone(line)
    ensures Classify(decode, line) == Bad <==> SaysNonsense(decode, line)
    ensures Classify(decode, line).Skip? ==> LineChunk(decode)(line) == []
    ensures Classify(decode, line).Data? ==> LineChunk(decode)(line) == [Classify(decode, line).chunk]
    ensures !(SaysDone(line) && SaysNonsense(decode, line))
  {
    PayloadExactly(line, "[DONE]");
    if Payload(line).Some? { PayloadExactly(line, Payload(line).value); }
    if payload :| Carries(line, payload) && payload != "[DONE]" && decode(payload).None? {
      PayloadExactly(line, payload);
    }
  }

  lemma {:induction false} ScanExactly(decode: string -> Option<Chunk>, lines: seq<string>, n: nat)
    requires StopsAt(decode, lines, n)
    ensures Scan(Reader(decode), lines).0 == Concat(LineChunk(decode), lines[..n])
    ensures Scan(Reader(decode), lines).1
         == if n == |lines| then EndOfBody else if SaysDone(lines[n]) then DoneMark else Malformed
    decreases |lines|
  {
    if lines != [] {
      ClassifyExactly(decode, lines[0]);
      if n > 0 {
        StopsLater(decode, lines, n);
        ScanExactly(decode, lines[1..], n - 1);
        ConcatFirst(LineChunk(decode), lines[..n]);
        assert lines[..n][1..] == lines[1..][..n - 1];
      }
    }
  }

  lemma StopsLater(decode: string -> Option<Chunk>, lines: seq<string>, n: nat)
    requires StopsAt(decode, lines, n) && n > 0
    ensures StopsAt(decode, lines[1..], n - 1) && !SaysDone(lines[0]) && !SaysNonsense(decode, lines[0])
  {
    assert forall i :: 0 <= i < |lines| - 1 ==> lines[1..][i] == lines[i + 1];
  }

  lemma LinesSay(decode: string -> Option<Chunk>, lines: seq<string>)
    ensures Assembly.Text(Concat(LineChunk(decode), lines)) == Concat(LineText(decode), lines)
    ensures Tools(Concat(LineChunk(decode), lines)) == Concat(LineTools(decode), lines)
  {
    forall line: string
      ensures LineText(decode)(line) == Concat(TextOf, LineChunk(decode)(line))
      ensures LineTools(decode)(line) == Concat(ToolsOf, LineChunk(decode)(line))
    {
      var c := LineChunk(decode)(line);
      if c != [] {
        ConcatOne(TextOf, c[0]);
        ConcatOne(ToolsOf, c[0]);
      }
    }
    ConcatOfConcat(LineChunk(decode), TextOf, LineText(decode), lines);
    ConcatOfConcat(LineChunk(decode), ToolsOf, LineTools(decode), lines);
  }

  /**
   * When every send is delivered, the last event is done exactly when the first line that ends the
   * stream is a "[DONE]" line, or there is none and the body ended cleanly with the context alive;
   * and a done message holds the texts and tool fragments of the lines before, in order.
   */
  lemma EndsAsTheLinesSay(
    decode: string -> Option<Chunk>, body: string, ending: Ending, delivers: nat -> bool, n: nat)
    requires StopsAt(decode, Lines(body), n)
    requires forall k :: 0 <= k < |Tried(decode, body, ending)| ==> delivers(k)
    ensures var lines, events := Lines(body), Sent(decode, body, ending, delivers);
      && EndsTerminally(events)
      && (events[|events| - 1].Done? <==> if n < |lines| then SaysDone(lines[n]) else ending == Eof(false))
      && (!events[|events| - 1].Done? ==> events[|events| - 1] == Error)
      && Deltas(events[..|events| - 1]) == Concat(LineText(decode), lines[..n])
      && (events[|events| - 1].Done? ==>
            && events[|events| - 1].message.content == Concat(LineText(decode), lines[..n])
            && events[|events| - 1].message.toolCalls == Calls(Concat(LineTools(decode), lines[..n]))
            && events[|events| - 1].usage == UsageOf(Concat(LineChunk(decode), lines[..n])))
  {
    var lines := Lines(body);
    var (chunks, stop) := Scan(Reader(decode), lines);
    ScanExactly(decode, lines, n);
    if n < |lines| { ClassifyExactly(decode, lines[n]); }
    LinesSay(decode, lines[..n]);
    DeltasAreText(chunks);
    SentInOrder(Concat(DeltaOf, chunks), Terminal(chunks, stop, ending), delivers);
  }

  /** And every stream has such a line, or none. */
  lemma {:induction false} SomewhereItStops(decode: string -> Option<Chunk>, lines: seq<string>) returns (n: nat)
    ensures StopsAt(decode, lines, n)
  {
    if lines == [] || SaysDone(lines[0]) || SaysNonsense(decode, lines[0]) {
      n := 0;
    } else {
      n := SomewhereItStops(decode, lines[1..]);
      assert forall i :: 0 <= i < |lines| - 1 ==> lines[1..][i] == lines[i + 1];
      n := n + 1;
    }
  }

  /** A consumer that has gone away before the end of an empty body gets no terminal event. */
  lemma CancelledSeesNoEnd(decode: string -> Option<Chunk>)
    ensures Sent(decode, "", Eof(false), _ => false) == [] && !EndsTerminally(Sent(decode, "", Eof(false), _ => false))
  {
    assert Tried(decode, "", Eof(false)) != [];
  }

  /** Of deltas and a last event, some are sent first to last. */
  lemma SentInOrder(texts: seq<Event>, last: Event, delivers: nat -> bool)
    requires IsTerminal(last) && forall i :: 0 <= i < |texts| ==> texts[i].Text?
    ensures var events := Delivered(texts + [last], delivers, 0);
      && (forall i :: 0 <= i < |events| - 1 ==> events[i].Text?)
      && (EndsTerminally(events) <==> forall k :: 0 <= k <= |texts| ==> delivers(k))
      && (EndsTerminally(events) ==> events[|events| - 1] == last && events[..|events| - 1] == texts)
  {
    var attempts := texts + [last];
    var events := Delivered(attempts, delivers, 0);
    DeliveredIsPrefix(attempts, delivers, 0);
    DeliveredUntil(attempts, delivers, 0);
    if |events| == |attempts| { assert events == attempts && events[..|events| - 1] == texts; }
  }

  /** Sending stops only at an event that is not delivered. */
  lemma {:induction false} DeliveredUntil(attempts: seq<Event>, delivers: nat -> bool, from: nat)
    ensures var n := |Delivered(attempts, delivers, from)|;
      (n < |attempts| ==> !delivers(from + n)) && forall k :: from <= k < from + n ==> delivers(k)
  {
    if attempts != [] { DeliveredUntil(attempts[1..], delivers, from + 1); }
  }

  // ---- Keepalives --------------------------------------------------------------

  lemma CommentsAreSkipped(decode: string -> Option<Chunk>, line: string)
    requires TrimEnd(line) == "" || (line != "" && line[0] == ':')
    ensures Classify(decode, line) == Skip
  {
    TrimEndIsPrefix(line);
  }

  lemma {:induction false} TrimEndIsPrefix(line: string)
    ensures TrimEnd(line) <= line
  {
    if line != "" { TrimEndIsPrefix(line[..|line| - 1]); }
  }

  /** A comment, blank line or other field anywhere in the stream changes nothing. */
  lemma {:induction false} SkippedLinesAreInvisible(
    classify: string -> Line, a: seq<string>, line: string, b: seq<string>)
    requires classify(line) == Skip
    ensures Scan(classify, a + [line] + b) == Scan(classify, a + b)
  {
    if a == [] {
      assert (a + [line] + b)[1..] == b && a + b == b;
    } else {
      SkippedLinesAreInvisible(classify, a[1..], line, b);
      assert (a + [line] + b)[1..] == a[1..] + [line] + b && (a + b)[1..] == a[1..] + b;
    }
  }
}
