/**
 * The import of internal/chatspec/chatspec.go, which turns a pasted export into storable
 * messages. JSON decoding is a parameter (`Decoders`).
 */
module ChatImport {
  import opened Bytes
  import opened Utf
  import opened Text
  import opened Sorting
  import opened ChatSpec

  const MAX_IMPORT := 1000

  // ---- Decoded exports ---------------------------------------------------------

  /** A typed part; `filePath` and `path` are what its input holds, empty when absent. */
  datatype Part = Part(kind: string, words: text, name: text, filePath: text, path: text)

  datatype Content = Missing | Plain(words: text) | Parts(parts: seq<Part>) | Unreadable

  datatype Event = Event(kind: string, message: Option<(string, Content)>, role: string, content: Content)

  /** A node of a conversation tree. A part that is not a string is `None`. */
  datatype Node = Node(at: int, role: string, parts: seq<Option<text>>)

  datatype Doc = Doc(messages: seq<(string, Content)>, mapping: seq<Option<Node>>)

  datatype Decoders = Decoders(event: text -> Option<Event>, doc: text -> Option<Doc>, isJson: text -> bool)

  function CanonicalRole(role: string, kind: string): string {
    var lower := AsciiLower(role);
    if lower == USER || lower == "human" then USER
    else if lower == ASSISTANT || lower == "model" || lower == "ai" then ASSISTANT
    else if kind == USER then USER
    else if kind == ASSISTANT then ASSISTANT
    else ""
  }

  function Chat(role: string, words: text): Message { Message(CHAT, role, words, None) }

  // ---- Actions -----------------------------------------------------------------

  predicate EditsFiles(name: text) {
    || name == Ascii("Edit") || name == Ascii("Write") || name == Ascii("MultiEdit")
    || name == Ascii("NotebookEdit") || name == Ascii("str_replace_editor") || name == Ascii("create_file")
  }

  function Clip(name: text): text { if |name| > MAX_TOOL then name[..MAX_TOOL] else name }

  function TrimSlash(path: text): text { if path != [] && path[0] == SLASH then path[1..] else path }

  function DeriveAction(p: Part): Message {
    var path := TrimSlash(if p.filePath == [] then p.path else p.filePath);
    var meta :=
      if !CleanPath(path) then ActionMeta(TOOL_USE, Clip(p.name), [])
      else if EditsFiles(p.name) then ActionMeta(FILE_EDIT, [], [path])
      else ActionMeta(TOOL_USE, Clip(p.name), [path]);
    Message(ACTION, ASSISTANT, [], Some(meta))
  }

  predicate Named(p: Part) { !Blank(Clip(p.name)) }

  lemma EditorsAreNamed(p: Part)
    requires EditsFiles(p.name)
    ensures Named(p)
  {
    assert |p.name| <= MAX_TOOL && !IsSpace(p.name[0]);
    BlankExactly(p.name);
  }

  /** A derived action is storable exactly when the tool's name is not blank in its first 128 bytes. */
  lemma DerivedExactly(p: Part)
    ensures Validate(DeriveAction(p)).None? <==> Named(p)
  {
    if EditsFiles(p.name) { EditorsAreNamed(p); }
    AsciiIsValid([]);
    DecodesExactly([]);
  }

  // ---- Typed parts -------------------------------------------------------------

  const PARAGRAPH: text := [NEWLINE, NEWLINE]

  datatype Item = Prose(words: text) | Tool(part: Part)

  /** What a part contributes. */
  function ItemsOf(tools: bool): Part -> seq<Item> {
    (p: Part) => if p.kind == "text" then (if Blank(p.words) then [] else [Prose(p.words)])
         else if p.kind == TOOL_USE && tools then [Tool(p)] else []
  }

  /** Each tool by itself, and each maximal run of prose together. */
  function Groups(items: seq<Item>): (groups: seq<seq<Item>>)
    ensures items != [] ==> groups != []
  {
    if items == [] then []
    else
      var n := |items| - 1;
      var front := Groups(items[..n]);
      if n > 0 && items[n].Prose? && items[n - 1].Prose?
      then front[..|front| - 1] + [front[|front| - 1] + [items[n]]]
      else front + [[items[n]]]
  }

  function WordsOf(i: Item): text { if i.Prose? then i.words else [] }

  function AllWords(group: seq<Item>): seq<text> { seq(|group|, i requires 0 <= i < |group| => WordsOf(group[i])) }

  function Render(role: string): seq<Item> -> Message {
    (group: seq<Item>) => if group != [] && group[0].Tool? then DeriveAction(group[0].part)
             else Chat(role, Join(AllWords(group), PARAGRAPH))
  }

  function Mapped<T, U>(f: T -> U, xs: seq<T>): seq<U> { seq(|xs|, i requires 0 <= i < |xs| => f(xs[i])) }

  function Compiled(role: string, items: seq<Item>): seq<Message> { Mapped(Render(role), Groups(items)) }

  ghost predicate IsGroup(g: seq<Item>) {
    g != [] && ((|g| == 1 && g[0].Tool?) || forall i :: 0 <= i < |g| ==> g[i].Prose?)
  }

  ghost predicate Apart(g: seq<Item>, h: seq<Item>) { g != [] && h != [] && (g[0].Tool? || h[0].Tool?) }

  ghost predicate Maximal(groups: seq<seq<Item>>) {
    forall i, j :: 0 <= i < |groups| && 0 <= j < |groups| && j == i + 1 ==> Apart(groups[i], groups[j])
  }

  ghost predicate GroupsInv(items: seq<Item>, groups: seq<seq<Item>>) {
    && Flatten(groups) == items
    && (forall i :: 0 <= i < |groups| ==> IsGroup(groups[i]))
    && Maximal(groups)
    && (items != [] ==> groups != [] && groups[|groups| - 1][0].Prose? == items[|items| - 1].Prose?)
  }

  lemma NewGroup(items: seq<Item>, groups: seq<seq<Item>>, item: Item)
    requires GroupsInv(items, groups) && (items == [] ==> groups == [])
    requires item.Tool? || items == [] || items[|items| - 1].Tool?
    ensures GroupsInv(items + [item], groups + [[item]])
  {
    var more := groups + [[item]];
    assert more[..|groups|] == groups;
  }

  lemma GrowGroup(items: seq<Item>, groups: seq<seq<Item>>, item: Item)
    requires GroupsInv(items, groups) && groups != [] && items != []
    requires item.Prose? && items[|items| - 1].Prose?
    ensures GroupsInv(items + [item], groups[..|groups| - 1] + [groups[|groups| - 1] + [item]])
  {
    var n := |groups| - 1;
    var more := groups[..n] + [groups[n] + [item]];
    assert more[..n] == groups[..n] && more[n] == groups[n] + [item];
    assert Flatten(more) == Flatten(groups[..n]) + (groups[n] + [item]) == items + [item];
  }

  /** The groups are the items in order, each a tool or a run of prose, and no two runs touch. */
  lemma {:induction false} GroupsKeepOrder(items: seq<Item>)
    ensures GroupsInv(items, Groups(items))
  {
    if items != [] {
      var n := |items| - 1;
      GroupsKeepOrder(items[..n]);
      assert items == items[..n] + [items[n]];
      if n > 0 && items[n].Prose? && items[n - 1].Prose? {
        GrowGroup(items[..n], Groups(items[..n]), items[n]);
      } else {
        NewGroup(items[..n], Groups(items[..n]), items[n]);
      }
    }
  }

  // ---- The parts loop ----------------------------------------------------------

  function Pending(role: string, buf: text): seq<Message> { if buf == [] then [] else [Chat(role, buf)] }

  /** The loop's state after `items`: the finished messages, and the prose still open. */
  ghost predicate Holds(role: string, items: seq<Item>, msgs: seq<Message>, buf: text) {
    && msgs + Pending(role, buf) == Compiled(role, items)
    && (buf != [] <==> items != [] && items[|items| - 1].Prose?)
  }

  lemma MappedSnoc<T, U>(f: T -> U, xs: seq<T>, x: T)
    ensures Mapped(f, xs + [x]) == Mapped(f, xs) + [f(x)]
  {
  }

  lemma CompiledSnoc(role: string, items: seq<Item>, item: Item)
    requires item.Tool? || items == [] || items[|items| - 1].Tool?
    ensures Compiled(role, items + [item]) == Compiled(role, items) + [Render(role)([item])]
  {
    assert (items + [item])[..|items|] == items;
    MappedSnoc(Render(role), Groups(items), [item]);
  }

  lemma HoldsTool(role: string, items: seq<Item>, msgs: seq<Message>, buf: text, p: Part)
    requires Holds(role, items, msgs, buf)
    ensures var flushed := if buf == [] then msgs else msgs + [Chat(role, buf)];
      Holds(role, items + [Tool(p)], flushed + [DeriveAction(p)], [])
  {
    CompiledSnoc(role, items, Tool(p));
    assert msgs + [] == msgs;
  }

  lemma RenderOne(role: string, words: text)
    ensures Render(role)([Prose(words)]) == Chat(role, words)
  {
    assert AllWords([Prose(words)]) == [words];
  }

  lemma HoldsFirst(role: string, items: seq<Item>, msgs: seq<Message>, words: text)
    requires Holds(role, items, msgs, []) && words != []
    ensures Holds(role, items + [Prose(words)], msgs, words)
  {
    CompiledSnoc(role, items, Prose(words));
    RenderOne(role, words);
  }

  lemma RenderGrows(role: string, group: seq<Item>, words: text, buf: text)
    requires IsGroup(group) && group[0].Prose? && Render(role)(group) == Chat(role, buf)
    ensures Render(role)(group + [Prose(words)]) == Chat(role, buf + PARAGRAPH + words)
  {
    assert AllWords(group + [Prose(words)]) == AllWords(group) + [words];
    JoinSnoc(AllWords(group), words, PARAGRAPH);
  }

  lemma CompiledGrows(role: string, items: seq<Item>, words: text)
    requires items != [] && items[|items| - 1].Prose?
    ensures var groups := Groups(items);
      Compiled(role, items + [Prose(words)]) ==
      Mapped(Render(role), groups[..|groups| - 1]) + [Render(role)(groups[|groups| - 1] + [Prose(words)])]
  {
    var groups := Groups(items);
    assert (items + [Prose(words)])[..|items|] == items;
    MappedSnoc(Render(role), groups[..|groups| - 1], groups[|groups| - 1] + [Prose(words)]);
  }

  lemma SameLast<T>(a: seq<T>, x: T, b: seq<T>, y: T)
    requires a + [x] == b + [y]
    ensures a == b && x == y
  {
    assert |a| == |a + [x]| - 1 == |b|;
    assert a == (a + [x])[..|a|] && b == (b + [y])[..|b|];
    assert x == (a + [x])[|a|] && y == (b + [y])[|b|];
  }

  lemma HoldsNext(role: string, items: seq<Item>, msgs: seq<Message>, buf: text, words: text)
    requires Holds(role, items, msgs, buf) && buf != []
    ensures Holds(role, items + [Prose(words)], msgs, buf + PARAGRAPH + words)
  {
    var groups := Groups(items);
    var n := |groups| - 1;
    GroupsKeepOrder(items);
    CompiledGrows(role, items, words);
    MappedSnoc(Render(role), groups[..n], groups[n]);
    assert groups[..n] + [groups[n]] == groups;
    SameLast(msgs, Chat(role, buf), Mapped(Render(role), groups[..n]), Render(role)(groups[n]));
    RenderGrows(role, groups[n], words, buf);
  }

  /** The body of the parts loop: tool results and unknown parts fall through. */
  method AddPart(role: string, tools: bool, p: Part, msgs: seq<Message>, buf: text, ghost items: seq<Item>)
    returns (msgs': seq<Message>, buf': text)
    requires Holds(role, items, msgs, buf)
    ensures Holds(role, items + ItemsOf(tools)(p), msgs', buf')
  {
    msgs', buf' := msgs, buf;
    if p.kind == "text" && !Blank(p.words) {
      assert ItemsOf(tools)(p) == [Prose(p.words)];
      if buf != [] {
        HoldsNext(role, items, msgs, buf, p.words);
        buf' := buf' + PARAGRAPH;
      } else {
        HoldsFirst(role, items, msgs, p.words);
        assert [] + p.words == p.words;
      }
      buf' := buf' + p.words;
    } else if p.kind == TOOL_USE && tools {
      assert ItemsOf(tools)(p) == [Tool(p)];
      HoldsTool(role, items, msgs, buf, p);
      if buf != [] {
        msgs' := msgs' + [Chat(role, buf)];
        buf' := [];
      }
      msgs' := msgs' + [DeriveAction(p)];
    } else {
      assert ItemsOf(tools)(p) == [] && items + [] == items;
    }
  }

  method CompileParts(role: string, parts: seq<Part>, tools: bool) returns (msgs: seq<Message>)
    ensures msgs == Compiled(role, Concat(ItemsOf(tools), parts))
  {
    msgs := [];
    var buf: text := [];
    for i := 0 to |parts|
      invariant Holds(role, Concat(ItemsOf(tools), parts[..i]), msgs, buf)
    {
      ConcatAt(ItemsOf(tools), parts, i);
      msgs, buf := AddPart(role, tools, parts[i], msgs, buf, Concat(ItemsOf(tools), parts[..i]));
    }
    assert parts[..|parts|] == parts;
    if buf != [] { msgs := msgs + [Chat(role, buf)]; }
  }

  // ---- Claude Code exports -----------------------------------------------------

  function RoleOf(ev: Event): string {
    CanonicalRole(if ev.message.Some? then ev.message.value.0 else ev.role, ev.kind)
  }

  function ContentOf(ev: Event): Content { if ev.message.Some? then ev.message.value.1 else ev.content }

  /** The messages of one decoded line. */
  function EventMessages(ev: Event, derive: bool): seq<Message> {
    var role, content := RoleOf(ev), ContentOf(ev);
    if role == "" then []
    else match content
      case Plain(words) => if Blank(words) then [] else [Chat(role, words)]
      case Parts(parts) => Compiled(role, Concat(ItemsOf(derive && role == ASSISTANT), parts))
      case _ => []
  }

  function LineMessages(decode: text -> Option<Event>, derive: bool): text -> seq<Message> {
    (line: text) => if decode(line).None? then [] else EventMessages(decode(line).value, derive)
  }

  function KeptLine(line: text): seq<text> { if Blank(line) then [] else [TrimSpace(line)] }

  function NonBlankLines(s: text): seq<text> { Concat(KeptLine, Split(s, NEWLINE)) }

  function JsonlMessages(d: Decoders, raw: text, derive: bool): seq<Message> {
    Concat(LineMessages(d.event, derive), NonBlankLines(raw))
  }

  method CollectLines(s: text) returns (lines: seq<text>)
    ensures lines == NonBlankLines(s)
  {
    lines := [];
    var all := Split(s, NEWLINE);
    for i := 0 to |all|
      invariant lines == Concat(KeptLine, all[..i])
    {
      ConcatAt(KeptLine, all, i);
      if TrimSpace(all[i]) != [] { lines := lines + [TrimSpace(all[i])]; }
    }
    assert all[..|all|] == all;
  }

  method ReadEvent(ev: Event, derive: bool) returns (msgs: seq<Message>)
    ensures msgs == EventMessages(ev, derive)
  {
    msgs := [];
    var role, content := ev.role, ev.content;
    if ev.message.Some? { role, content := ev.message.value.0, ev.message.value.1; }
    role := CanonicalRole(role, ev.kind);
    if role == "" || content.Missing? { return; }
    if content.Plain? {
      if !Blank(content.words) { msgs := [Chat(role, content.words)]; }
      return;
    }
    if content.Unreadable? { return; }
    msgs := CompileParts(role, content.parts, derive && role == ASSISTANT);
  }

  method NormalizeJsonl(d: Decoders, raw: text, derive: bool) returns (msgs: seq<Message>)
    ensures msgs == JsonlMessages(d, raw, derive)
  {
    msgs := [];
    var lines := CollectLines(raw);
    for i := 0 to |lines|
      invariant msgs == Concat(LineMessages(d.event, derive), lines[..i])
    {
      ConcatAt(LineMessages(d.event, derive), lines, i);
      var ev := d.event(lines[i]);
      if ev.None? { continue; }
      var read := ReadEvent(ev.value, derive);
      msgs := msgs + read;
    }
    assert lines[..|lines|] == lines;
  }

  // ---- Plain text --------------------------------------------------------------

  const COLON: byte := 0x3A

  function MarkerTable(): seq<(text, string)> {
    [(Ascii("user:"), USER), (Ascii("human:"), USER), (Ascii("me:"), USER), (Ascii("assistant:"), ASSISTANT),
     (Ascii("ai:"), ASSISTANT), (Ascii("claude:"), ASSISTANT), (Ascii("chatgpt:"), ASSISTANT)]
  }

  function Lower(s: text): text {
    seq(|s|, i requires 0 <= i < |s| => if 0x41 <= s[i] <= 0x5A then s[i] + 0x20 else s[i])
  }

  /** The first entry of the table that opens the line. */
  function MarkerIn(table: seq<(text, string)>, trimmed: text): Option<(string, text)> {
    if table == [] then None
    else if table[0].0 <= Lower(trimmed) then Some((table[0].1, TrimSpace(trimmed[|table[0].0|..])))
    else MarkerIn(table[1..], trimmed)
  }

  function SpeakerMarker(line: text): Option<(string, text)> { MarkerIn(MarkerTable(), TrimSpace(line)) }

  predicate ColonEnded(p: text) { p != [] && forall i :: 0 <= i < |p| ==> (p[i] == COLON <==> i == |p| - 1) }

  /** Each key ends in its only colon, and has one role. */
  predicate Keyed(table: seq<(text, string)>) {
    && (forall m :: m in table ==> ColonEnded(m.0))
    && (forall m, n :: m in table && n in table && m.0 == n.0 ==> m == n)
  }

  lemma OnePrefix(p: text, q: text, t: text)
    requires ColonEnded(p) && ColonEnded(q) && p <= t && q <= t
    ensures p == q
  {
    assert t[|p| - 1] == COLON && t[|q| - 1] == COLON;
  }

  lemma {:induction false} MarkerInIs(table: seq<(text, string)>, trimmed: text, m: (text, string))
    requires Keyed(table) && m in table && m.0 <= Lower(trimmed)
    ensures MarkerIn(table, trimmed) == Some((m.1, TrimSpace(trimmed[|m.0|..])))
  {
    if table[0].0 <= Lower(trimmed) {
      OnePrefix(table[0].0, m.0, Lower(trimmed));
      assert table[0] in table;
    } else {
      assert table == [table[0]] + table[1..];
      MarkerInIs(table[1..], trimmed, m);
    }
  }

  lemma {:induction false} NoMarker(table: seq<(text, string)>, trimmed: text)
    ensures MarkerIn(table, trimmed).None? <==> forall m :: m in table ==> !(m.0 <= Lower(trimmed))
  {
    if table != [] {
      assert table == [table[0]] + table[1..];
      NoMarker(table[1..], trimmed);
    }
  }

  lemma ColonLiteral(s: string)
    requires s != "" && forall i :: 0 <= i < |s| ==> s[i] < 0x80 as char && (s[i] == ':' <==> i == |s| - 1)
    ensures ColonEnded(Ascii(s))
  {
  }

  lemma TableHasColons()
    ensures forall m :: m in MarkerTable() ==> ColonEnded(m.0)
  {
    ColonLiteral("user:");
    ColonLiteral("human:");
    ColonLiteral("me:");
    ColonLiteral("assistant:");
    ColonLiteral("ai:");
    ColonLiteral("claude:");
    ColonLiteral("chatgpt:");
  }

  lemma TableIsKeyed()
    ensures Keyed(MarkerTable())
  {
    var t := MarkerTable();
    TableHasColons();
    assert t[2].0[0] == 0x6D && t[4].0[0] == 0x61;
    forall m, n | m in t && n in t && m.0 == n.0 ensures m == n { assert |m.0| == |n.0|; }
  }

  /** The table is a Go map: whatever order it is walked in, the answer is the same. */
  lemma AnyOrderFindsTheMarker(table: seq<(text, string)>, line: text)
    requires forall m :: m in table <==> m in MarkerTable()
    ensures MarkerIn(table, TrimSpace(line)) == SpeakerMarker(line)
  {
    var t := TrimSpace(line);
    TableIsKeyed();
    NoMarker(table, t);
    NoMarker(MarkerTable(), t);
    if m :| m in table && m.0 <= Lower(t) {
      MarkerInIs(table, t, m);
      MarkerInIs(MarkerTable(), t, m);
    }
  }

  /** One speaker's lines. */
  datatype Turn = Turn(role: string, lines: seq<text>)

  /** The lines by speaker: a marker opens a turn, and text before any marker is the user's. */
  function TurnsBy(marker: text -> Option<(string, text)>, lines: seq<text>): (turns: seq<Turn>)
    ensures turns != []
  {
    if lines == [] then [Turn(USER, [])]
    else
      var n := |lines| - 1;
      NextTurns(TurnsBy(marker, lines[..n]), marker(lines[n]), lines[n])
  }

  /** The turns with one more line, which opens one or not. */
  function NextTurns(turns: seq<Turn>, mark: Option<(string, text)>, line: text): (next: seq<Turn>)
    requires turns != []
    ensures next != []
  {
    var last := turns[|turns| - 1];
    match mark
    case Some((role, rest)) => turns + [Turn(role, [rest])]
    case None => turns[..|turns| - 1] + [Turn(last.role, last.lines + [line])]
  }

  function Turns(lines: seq<text>): (turns: seq<Turn>)
    ensures turns != []
  {
    TurnsBy(SpeakerMarker, lines)
  }

  function Spoken(turn: Turn): text { Join(turn.lines, [NEWLINE]) }

  function Said(turn: Turn): seq<Message> {
    if Blank(Spoken(turn)) then [] else [Chat(turn.role, TrimSpace(Spoken(turn)))]
  }

  function TextMessages(s: text): seq<Message> { Concat(Said, Turns(Split(Unix(s), NEWLINE))) }

  /** The buffer is what was spoken, less some white space in front. */
  ghost predicate Lags(spoken: text, buf: text) {
    exists lead :: AllSpace(lead) && spoken == lead + buf
  }

  /** The loop's state after `lines`. */
  ghost predicate Heard(lines: seq<text>, msgs: seq<Message>, role: string, buf: text) {
    var turns := Turns(lines);
    var n := |turns| - 1;
    msgs == Concat(Said, turns[..n]) && turns[n].role == role && Lags(Spoken(turns[n]), buf)
    && (turns[n].lines == [] ==> buf == [])
  }

  lemma LagsTrim(spoken: text, buf: text)
    requires Lags(spoken, buf)
    ensures TrimSpace(spoken) == TrimSpace(buf)
  {
    var lead :| AllSpace(lead) && spoken == lead + buf;
    TrimSkipsSpace(lead, buf);
  }

  lemma LagsGrows(spoken: text, buf: text, line: text)
    requires Lags(spoken, buf)
    ensures Lags(spoken + [NEWLINE] + line, if buf == [] then line else buf + [NEWLINE] + line)
  {
    var lead :| AllSpace(lead) && spoken == lead + buf;
    if buf == [] {
      var more := lead + [NEWLINE];
      assert spoken == lead;
      assert AllSpace(more) && spoken + [NEWLINE] + line == more + line;
    } else {
      assert spoken + [NEWLINE] + line == lead + (buf + [NEWLINE] + line);
    }
  }

  lemma LagsSelf(s: text)
    ensures Lags(s, s)
  {
    assert AllSpace([]) && s == [] + s;
  }

  /** The body of the loop over lines. */
  method HearLine(ghost lines: seq<text>, msgs: seq<Message>, role: string, buf: text, line: text)
    returns (msgs': seq<Message>, role': string, buf': text)
    requires Heard(lines, msgs, role, buf)
    ensures Heard(lines + [line], msgs', role', buf')
  {
    var marker := SpeakerMarker(line);
    if marker.Some? {
      HeardMarker(lines, msgs, role, buf, line);
      return Flush(msgs, role, buf), marker.value.0, marker.value.1;
    }
    HeardLine(lines, msgs, role, buf, line);
    return msgs, role, Push(buf, line);
  }

  lemma HeardNothing()
    ensures Heard([], [], USER, [])
  {
    LagsSelf([]);
  }

  method NormalizeText(s: text) returns (msgs: seq<Message>)
    ensures msgs == TextMessages(s)
  {
    msgs := HearAll(Split(Unix(s), NEWLINE));
  }

  method HearAll(lines: seq<text>) returns (msgs: seq<Message>)
    ensures msgs == Concat(Said, Turns(lines))
  {
    msgs := [];
    var role := USER;
    var buf: text := [];
    HeardNothing();
    assert lines[..0] == [];
    for i := 0 to |lines|
      invariant Heard(lines[..i], msgs, role, buf)
    {
      assert lines[..i] + [lines[i]] == lines[..i + 1];
      msgs, role, buf := HearLine(lines[..i], msgs, role, buf, lines[i]);
    }
    assert lines[..|lines|] == lines;
    HeardAll(lines, msgs, role, buf);
    msgs := Flush(msgs, role, buf);
  }

  function Flush(msgs: seq<Message>, role: string, buf: text): seq<Message> {
    if Blank(buf) then msgs else msgs + [Chat(role, TrimSpace(buf))]
  }

  lemma HeardAll(lines: seq<text>, msgs: seq<Message>, role: string, buf: text)
    requires Heard(lines, msgs, role, buf)
    ensures Flush(msgs, role, buf) == Concat(Said, Turns(lines))
  {
    var turns := Turns(lines);
    LagsTrim(Spoken(turns[|turns| - 1]), buf);
  }

  lemma HeardMarker(lines: seq<text>, msgs: seq<Message>, role: string, buf: text, line: text)
    requires Heard(lines, msgs, role, buf) && SpeakerMarker(line).Some?
    ensures var (r, rest) := SpeakerMarker(line).value; Heard(lines + [line], Flush(msgs, role, buf), r, rest)
  {
    var (r, rest) := SpeakerMarker(line).value;
    assert (lines + [line])[..|lines|] == lines;
    HeardAll(lines, msgs, role, buf);
    LagsSelf(rest);
    var turns := Turns(lines);
    assert (turns + [Turn(r, [rest])])[..|turns|] == turns;
  }

  function Push(buf: text, line: text): text { (if buf == [] then [] else buf + [NEWLINE]) + line }

  lemma TurnGrows(turn: Turn, buf: text, line: text)
    requires Lags(Spoken(turn), buf) && (turn.lines == [] ==> buf == [])
    ensures Lags(Spoken(Turn(turn.role, turn.lines + [line])), Push(buf, line))
  {
    JoinSnoc(turn.lines, line, [NEWLINE]);
    assert [] + line == line;
    if turn.lines == [] { LagsSelf(line); } else { LagsGrows(Spoken(turn), buf, line); }
  }

  lemma HeardLine(lines: seq<text>, msgs: seq<Message>, role: string, buf: text, line: text)
    requires Heard(lines, msgs, role, buf) && SpeakerMarker(line).None?
    ensures Heard(lines + [line], msgs, role, Push(buf, line))
  {
    var turns := Turns(lines);
    var n := |turns| - 1;
    assert (lines + [line])[..|lines|] == lines;
    TurnGrows(turns[n], buf, line);
    assert Turns(lines + [line])[..n] == turns[..n];
  }

  // ---- Whose turn a line opens -------------------------------------------------

  function Opening(line: text): text { Lower(TrimSpace(line)) }

  predicate OpensUser(line: text) {
    Ascii("user:") <= Opening(line) || Ascii("human:") <= Opening(line) || Ascii("me:") <= Opening(line)
  }

  predicate OpensAssistant(line: text) {
    || Ascii("assistant:") <= Opening(line) || Ascii("ai:") <= Opening(line)
    || Ascii("claude:") <= Opening(line) || Ascii("chatgpt:") <= Opening(line)
  }

  /** `rest` is what follows the line's first colon, trimmed. */
  predicate AfterColon(line: text, rest: text) {
    var trimmed := TrimSpace(line);
    exists k :: 0 <= k < |trimmed| && trimmed[k] == COLON && COLON !in trimmed[..k]
      && rest == TrimSpace(trimmed[k + 1..])
  }

  lemma {:induction false} MarkerFrom(table: seq<(text, string)>, trimmed: text) returns (m: (text, string))
    requires MarkerIn(table, trimmed).Some?
    ensures m in table && m.0 <= Lower(trimmed)
    ensures MarkerIn(table, trimmed) == Some((m.1, TrimSpace(trimmed[|m.0|..])))
  {
    if table[0].0 <= Lower(trimmed) {
      m := table[0];
    } else {
      m := MarkerFrom(table[1..], trimmed);
    }
  }

  lemma ColonsOfLower(trimmed: text, key: text)
    requires ColonEnded(key) && key <= Lower(trimmed)
    ensures var k := |key| - 1; trimmed[k] == COLON && COLON !in trimmed[..k]
  {
    var lower := Lower(trimmed);
    assert forall i :: 0 <= i < |key| ==> key[i] == lower[i];
    assert forall i :: 0 <= i < |trimmed| ==> (lower[i] == COLON <==> trimmed[i] == COLON);
  }

  lemma UserEntries()
    ensures var t := MarkerTable();
      (Ascii("user:"), "user") in t && (Ascii("human:"), "user") in t && (Ascii("me:"), "user") in t
  {
    var t := MarkerTable();
    assert t[0] in t && t[1] in t && t[2] in t;
  }

  lemma AssistantEntries()
    ensures var t := MarkerTable();
      && (Ascii("assistant:"), "assistant") in t && (Ascii("ai:"), "assistant") in t
      && (Ascii("claude:"), "assistant") in t && (Ascii("chatgpt:"), "assistant") in t
  {
    var t := MarkerTable();
    assert t[3] in t && t[4] in t && t[5] in t && t[6] in t;
  }

  lemma EntriesSay(line: text, m: (text, string))
    requires m in MarkerTable() && m.0 <= Opening(line)
    ensures (m.1 == "user" && OpensUser(line)) || (m.1 == "assistant" && OpensAssistant(line))
  {
  }

  lemma OpensHas(line: text, key: text, role: string)
    requires (key, role) in MarkerTable() && key <= Opening(line)
    ensures SpeakerMarker(line).Some? && SpeakerMarker(line).value.0 == role
  {
    TableIsKeyed();
    MarkerInIs(MarkerTable(), TrimSpace(line), (key, role));
  }

  lemma OpensUserHas(line: text)
    requires OpensUser(line)
    ensures SpeakerMarker(line).Some? && SpeakerMarker(line).value.0 == "user"
  {
    UserEntries();
    if Ascii("user:") <= Opening(line) { OpensHas(line, Ascii("user:"), "user"); }
    if Ascii("human:") <= Opening(line) { OpensHas(line, Ascii("human:"), "user"); }
    if Ascii("me:") <= Opening(line) { OpensHas(line, Ascii("me:"), "user"); }
  }

  lemma OpensAssistantHas(line: text)
    requires OpensAssistant(line)
    ensures SpeakerMarker(line).Some? && SpeakerMarker(line).value.0 == "assistant"
  {
    AssistantEntries();
    if Ascii("assistant:") <= Opening(line) { OpensHas(line, Ascii("assistant:"), "assistant"); }
    if Ascii("ai:") <= Opening(line) { OpensHas(line, Ascii("ai:"), "assistant"); }
    if Ascii("claude:") <= Opening(line) { OpensHas(line, Ascii("claude:"), "assistant"); }
    if Ascii("chatgpt:") <= Opening(line) { OpensHas(line, Ascii("chatgpt:"), "assistant"); }
  }

  /** Which lines open a turn, whose it is, and what of the line belongs to it. */
  lemma SpeakerExactly(line: text)
    ensures (SpeakerMarker(line).Some? && SpeakerMarker(line).value.0 == "user") <==> OpensUser(line)
    ensures (SpeakerMarker(line).Some? && SpeakerMarker(line).value.0 == "assistant") <==> OpensAssistant(line)
    ensures SpeakerMarker(line).Some? ==>
      (OpensUser(line) || OpensAssistant(line)) && AfterColon(line, SpeakerMarker(line).value.1)
  {
    if OpensUser(line) { OpensUserHas(line); }
    if OpensAssistant(line) { OpensAssistantHas(line); }
    if SpeakerMarker(line).Some? {
      var m := MarkerFrom(MarkerTable(), TrimSpace(line));
      EntriesSay(line, m);
      TableHasColons();
      ColonsOfLower(TrimSpace(line), m.0);
    }
  }

  // ---- A turn is a message -----------------------------------------------------

  function Spoke(lines: seq<text>): seq<Message> { Concat(Said, Turns(lines)) }

  /** What a role said in some lines: one trimmed message, unless it is blank. */
  function OneMessage(role: string, lines: seq<text>): seq<Message> {
    var words := TrimSpace(Join(lines, [0x0A]));
    if words == [] then [] else [Message("chat", role, words, None)]
  }

  predicate Opens(line: text) { OpensUser(line) || OpensAssistant(line) }

  lemma NextOfConcat(x: seq<Turn>, y: seq<Turn>, mark: Option<(string, text)>, line: text)
    requires |y| > 1 && x != []
    ensures |NextTurns(y, mark, line)| > 1 && NextTurns(y, mark, line)[0] == y[0]
    ensures NextTurns(x + y[1..], mark, line) == x + NextTurns(y, mark, line)[1..]
  {
    var z := x + y[1..];
    assert z[|z| - 1] == y[|y| - 1] && z[..|z| - 1] == x + y[..|y| - 1][1..];
  }

  lemma {:induction false} TurnsAppend(marker: text -> Option<(string, text)>, a: seq<text>, b: seq<text>)
    requires b != [] && marker(b[0]).Some?
    ensures var y := TurnsBy(marker, b);
      |y| > 1 && y[0] == Turn(USER, []) && TurnsBy(marker, a + b) == TurnsBy(marker, a) + y[1..]
    decreases |b|
  {
    var n := |b| - 1;
    var front := b[..n];
    assert (a + b)[..|a + b| - 1] == a + front && (a + b)[|a + b| - 1] == b[n];
    if n == 0 {
      assert front == [] && a + front == a;
    } else {
      TurnsAppend(marker, a, front);
      NextOfConcat(TurnsBy(marker, a), TurnsBy(marker, front), marker(b[n]), b[n]);
    }
  }

  lemma SaysNothing()
    ensures Said(Turn(USER, [])) == []
  {
  }

  lemma ConcatSkipsFirst<T, U>(f: T -> seq<U>, x: seq<T>, y: seq<T>)
    requires y != [] && f(y[0]) == []
    ensures Concat(f, x + y[1..]) == Concat(f, x) + Concat(f, y)
  {
    ConcatAppend(f, x, y[1..]);
    ConcatFirst(f, y);
    assert [] + Concat(f, y[1..]) == Concat(f, y[1..]);
  }

  /** A line that opens a turn parts the conversation: the messages before it, and those from it on. */
  lemma SpokePart(a: seq<text>, b: seq<text>)
    requires b != [] && Opens(b[0])
    ensures Spoke(a + b) == Spoke(a) + Spoke(b)
  {
    SpeakerExactly(b[0]);
    if OpensUser(b[0]) { OpensUserHas(b[0]); } else { OpensAssistantHas(b[0]); }
    TurnsAppend(SpeakerMarker, a, b);
    SaysNothing();
    ConcatSkipsFirst(Said, Turns(a), Turns(b));
  }

  lemma {:induction false} BlockTurns(
    marker: text -> Option<(string, text)>, line: text, more: seq<text>, role: string, rest: text)
    requires marker(line) == Some((role, rest)) && forall i :: 0 <= i < |more| ==> marker(more[i]).None?
    ensures TurnsBy(marker, [line] + more) == [Turn(USER, []), Turn(role, [rest] + more)]
    decreases |more|
  {
    var all := [line] + more;
    var n := |all| - 1;
    if more == [] {
      assert all[..n] == [] && [rest] + more == [rest];
    } else {
      var front := more[..|more| - 1];
      BlockTurns(marker, line, front, role, rest);
      assert all[..n] == [line] + front && all[n] == more[|more| - 1];
      assert [rest] + front + [more[|more| - 1]] == [rest] + more;
    }
  }

  lemma BlockSays(line: text, more: seq<text>)
    requires Opens(line) && forall i :: 0 <= i < |more| ==> !Opens(more[i])
    ensures var role := if OpensUser(line) then "user" else "assistant";
      exists rest :: AfterColon(line, rest) && Spoke([line] + more) == OneMessage(role, [rest] + more)
  {
    SpeakerExactly(line);
    forall i | 0 <= i < |more| ensures SpeakerMarker(more[i]).None? { SpeakerExactly(more[i]); }
    if OpensUser(line) { OpensUserHas(line); } else { OpensAssistantHas(line); }
    var (role, rest) := SpeakerMarker(line).value;
    BlockTurns(SpeakerMarker, line, more, role, rest);
    var turn := Turn(role, [rest] + more);
    assert [Turn(USER, []), turn] == [Turn(USER, [])] + [turn];
    ConcatAppend(Said, [Turn(USER, [])], [turn]);
    ConcatOne(Said, Turn(USER, []));
    ConcatOne(Said, turn);
    SaysNothing();
    assert Said(turn) == OneMessage(role, [rest] + more);
  }

  /**
   * In any text, a line that opens a turn and the lines after it that open none give one message,
   * the user's or the assistant's as the line says, between those of the text before and after.
   */
  lemma TurnIsOneMessage(s: text, before: seq<text>, line: text, more: seq<text>, after: seq<text>)
    requires Split(Unix(s), NEWLINE) == before + ([line] + more) + after
    requires Opens(line) && forall i :: 0 <= i < |more| ==> !Opens(more[i])
    requires after == [] || Opens(after[0])
    ensures var role := if OpensUser(line) then "user" else "assistant";
      exists rest :: AfterColon(line, rest)
        && TextMessages(s) == Spoke(before) + OneMessage(role, [rest] + more) + Spoke(after)
  {
    var block := [line] + more;
    SpokePart(before, block);
    BlockSays(line, more);
    if after == [] {
      assert before + block + after == before + block;
      EmptySaysNothing();
    } else {
      SpokePart(before + block, after);
    }
  }

  lemma EmptySaysNothing()
    ensures Spoke([]) == []
  {
    ConcatOne(Said, Turn(USER, []));
    SaysNothing();
  }

  lemma {:induction false} UnopenedTurns(marker: text -> Option<(string, text)>, lines: seq<text>)
    requires forall i :: 0 <= i < |lines| ==> marker(lines[i]).None?
    ensures TurnsBy(marker, lines) == [Turn(USER, lines)]
  {
    if lines != [] {
      UnopenedTurns(marker, lines[..|lines| - 1]);
      assert lines[..|lines| - 1] + [lines[|lines| - 1]] == lines;
    }
  }

  /** Text before any such line is one message of the user's. */
  lemma UnopenedIsUsers(lines: seq<text>)
    requires forall i :: 0 <= i < |lines| ==> !Opens(lines[i])
    ensures Spoke(lines) == OneMessage("user", lines)
  {
    forall i | 0 <= i < |lines| ensures SpeakerMarker(lines[i]).None? { SpeakerExactly(lines[i]); }
    UnopenedTurns(SpeakerMarker, lines);
    ConcatOne(Said, Turn(USER, lines));
  }

  // ---- ChatGPT exports ---------------------------------------------------------

  function SimpleMessage(m: (string, Content)): seq<Message> {
    var role := CanonicalRole(m.0, "");
    if role == "" || !m.1.Plain? || Blank(m.1.words) then [] else [Chat(role, m.1.words)]
  }

  function SolidPart(part: Option<text>): seq<text> {
    if part.None? || Blank(part.value) then [] else [part.value]
  }

  datatype Timed = Timed(at: int, role: string, words: text)

  function NodeWords(n: Node): text { Join(Concat(SolidPart, n.parts), PARAGRAPH) }

  function TimedNode(n: Option<Node>): seq<Timed> {
    if n.None? || CanonicalRole(n.value.role, "") == "" || NodeWords(n.value) == [] then []
    else [Timed(n.value.at, CanonicalRole(n.value.role, ""), NodeWords(n.value))]
  }

  function TimeOf(t: Timed): seq<int> { [t.at] }

  function TimedMessage(t: Timed): seq<Message> { [Chat(t.role, t.words)] }

  /** The plain message list if it has any, else the conversation tree by creation time. */
  function DocMessages(doc: Doc): seq<Message> {
    var simple := Concat(SimpleMessage, doc.messages);
    if simple != [] then simple else Concat(TimedMessage, Sort(TimeOf, Concat(TimedNode, doc.mapping)))
  }

  lemma JoinedIsEmpty(parts: seq<Option<text>>)
    ensures Join(Concat(SolidPart, parts), PARAGRAPH) == [] <==> Concat(SolidPart, parts) == []
  {
    ConcatHolds(SolidPart, parts, (w: text) => w != []);
    if Concat(SolidPart, parts) != [] { assert Concat(SolidPart, parts)[0] in Concat(SolidPart, parts); }
  }

  /** What holds of everything each `f(x)` yields holds of everything yielded. */
  lemma {:induction false} ConcatHolds<T, U>(f: T -> seq<U>, xs: seq<T>, ok: U -> bool)
    requires forall x, u :: x in xs && u in f(x) ==> ok(u)
    ensures forall u :: u in Concat(f, xs) ==> ok(u)
  {
    if xs != [] {
      var n := |xs| - 1;
      assert forall x :: x in xs[..n] ==> x in xs;
      ConcatHolds(f, xs[..n], ok);
      assert xs[n] in xs;
    }
  }

  method JoinParts(parts: seq<Option<text>>) returns (buf: text)
    ensures buf == Join(Concat(SolidPart, parts), PARAGRAPH)
  {
    buf := [];
    for i := 0 to |parts|
      invariant buf == Join(Concat(SolidPart, parts[..i]), PARAGRAPH)
    {
      ConcatAt(SolidPart, parts, i);
      JoinedIsEmpty(parts[..i]);
      ghost var words := Concat(SolidPart, parts[..i]);
      if parts[i].None? || Blank(parts[i].value) {
        assert words + [] == words;
        continue;
      }
      JoinSnoc(Concat(SolidPart, parts[..i]), parts[i].value, PARAGRAPH);
      if buf != [] { buf := buf + PARAGRAPH; } else { assert buf + parts[i].value == parts[i].value; }
      buf := buf + parts[i].value;
    }
    assert parts[..|parts|] == parts;
  }

  method NormalizeChatGpt(doc: Doc) returns (msgs: seq<Message>)
    ensures msgs == DocMessages(doc)
  {
    msgs := [];
    for i := 0 to |doc.messages|
      invariant msgs == Concat(SimpleMessage, doc.messages[..i])
    {
      ConcatAt(SimpleMessage, doc.messages, i);
      var (said, content) := doc.messages[i];
      var role := CanonicalRole(said, "");
      if role == "" || !content.Plain? { continue; }
      if !Blank(content.words) { msgs := msgs + [Chat(role, content.words)]; }
    }
    assert doc.messages[..|doc.messages|] == doc.messages;
    if msgs != [] { return msgs; }
    var nodes := CollectNodes(doc.mapping);
    var sorted := Sort(TimeOf, nodes);
    for i := 0 to |sorted|
      invariant msgs == Concat(TimedMessage, sorted[..i])
    {
      ConcatAt(TimedMessage, sorted, i);
      msgs := msgs + [Chat(sorted[i].role, sorted[i].words)];
    }
    assert sorted[..|sorted|] == sorted;
  }

  method CollectNodes(mapping: seq<Option<Node>>) returns (nodes: seq<Timed>)
    ensures nodes == Concat(TimedNode, mapping)
  {
    nodes := [];
    for i := 0 to |mapping|
      invariant nodes == Concat(TimedNode, mapping[..i])
    {
      ConcatAt(TimedNode, mapping, i);
      if mapping[i].None? { continue; }
      var n := mapping[i].value;
      var role := CanonicalRole(n.role, "");
      if role == "" { continue; }
      var buf := JoinParts(n.parts);
      if buf != [] { nodes := nodes + [Timed(n.at, role, buf)]; }
    }
    assert mapping[..|mapping|] == mapping;
  }

  function Without<T>(xs: seq<T>, k: nat): (rest: seq<T>)
    requires k < |xs|
    ensures |rest| == |xs| - 1
  {
    xs[..k] + xs[k + 1..]
  }

  lemma ConcatWithout<T, U>(f: T -> seq<U>, xs: seq<T>, k: nat)
    requires k < |xs|
    ensures multiset(Concat(f, xs)) == multiset(Concat(f, Without(xs, k))) + multiset(f(xs[k]))
  {
    ConcatAt(f, xs, k);
    ConcatAppend(f, xs[..k], xs[k + 1..]);
  }

  lemma TakeOut<T>(xs: seq<T>, k: nat)
    requires k < |xs|
    ensures multiset(xs) == multiset(Without(xs, k)) + multiset{xs[k]}
  {
    assert xs == xs[..k] + [xs[k]] + xs[k + 1..];
  }

  lemma Match<T>(a: seq<T>, b: seq<T>) returns (k: nat)
    requires multiset(a) == multiset(b) && a != []
    ensures k < |b| && b[k] == a[0] && multiset(Without(a, 0)) == multiset(Without(b, k))
  {
    SameElements(a, b);
    assert a[0] in a;
    k :| 0 <= k < |b| && b[k] == a[0];
    TakeOut(a, 0);
    TakeOut(b, k);
    SameRest(multiset(Without(a, 0)), multiset(Without(b, k)), a[0]);
  }

  lemma {:induction false} ConcatPermutes<T, U>(f: T -> seq<U>, a: seq<T>, b: seq<T>)
    requires multiset(a) == multiset(b)
    ensures multiset(Concat(f, a)) == multiset(Concat(f, b))
    decreases |a|
  {
    if a == [] {
      assert |b| == |multiset(b)| == |multiset(a)| == 0;
    } else {
      var k := Match(a, b);
      ConcatPermutes(f, Without(a, 0), Without(b, k));
      ConcatWithout(f, a, 0);
      ConcatWithout(f, b, k);
    }
  }

  lemma SameRest<T>(a: multiset<T>, b: multiset<T>, x: T)
    requires a + multiset{x} == b + multiset{x}
    ensures a == b
  {
    assert a == (a + multiset{x}) - multiset{x} && b == (b + multiset{x}) - multiset{x};
  }

  /** The tree is a Go map: if creation times tell its messages apart, its order does not matter. */
  lemma MappingOrderDoesNotMatter(doc: Doc, other: Doc)
    requires doc.messages == other.messages && multiset(doc.mapping) == multiset(other.mapping)
    requires KeyDetermines(TimeOf, Concat(TimedNode, doc.mapping))
    ensures DocMessages(doc) == DocMessages(other)
  {
    var a, b := Concat(TimedNode, doc.mapping), Concat(TimedNode, other.mapping);
    ConcatPermutes(TimedNode, doc.mapping, other.mapping);
    SortSorts(TimeOf, a);
    SortSorts(TimeOf, b);
    SameElements(a, Sort(TimeOf, a));
    SortIsUnique(TimeOf, Sort(TimeOf, a), Sort(TimeOf, b));
  }

  // ---- Exactly when the order of the tree matters ------------------------------

  function Nodes(doc: Doc): seq<Timed> { Concat(TimedNode, doc.mapping) }

  ghost predicate Reordered(doc: Doc, other: Doc) {
    doc.messages == other.messages && multiset(doc.mapping) == multiset(other.mapping)
  }

  /** What a node contributes at one time. */
  function NodeAt(x: seq<int>): Option<Node> -> seq<Timed> { n => OfKey(TimeOf, TimedNode(n), x) }

  lemma {:induction false} NodesAt(mapping: seq<Option<Node>>, x: seq<int>)
    ensures OfKey(TimeOf, Concat(TimedNode, mapping), x) == Concat(NodeAt(x), mapping)
  {
    if mapping != [] {
      var n := |mapping| - 1;
      NodesAt(mapping[..n], x);
      OfKeyConcat(TimeOf, Concat(TimedNode, mapping[..n]), TimedNode(mapping[n]), x);
    }
  }

  lemma {:induction false} FromConcat<T, U>(f: T -> seq<U>, xs: seq<T>, u: U) returns (i: nat)
    requires u in Concat(f, xs)
    ensures i < |xs| && u in f(xs[i])
  {
    var n := |xs| - 1;
    if u in f(xs[n]) { i := n; } else { i := FromConcat(f, xs[..n], u); }
  }

  /** Swapping two elements that yield different things changes what is yielded in all. */
  lemma SwapShows<T, U>(f: T -> seq<U>, xs: seq<T>, i: nat, j: nat, a: U, b: U)
    requires i < j < |xs| && f(xs[i]) == [a] && f(xs[j]) == [b] && a != b
    ensures Concat(f, Swap(xs, i, j)) != Concat(f, xs)
  {
    var ys, at := Swap(xs, i, j), |Concat(f, xs[..i])|;
    ConcatAt(f, xs, i);
    ConcatAt(f, ys, i);
    assert ys[..i] == xs[..i];
    assert Concat(f, xs)[at] == a && Concat(f, ys)[at] == b;
  }

  function TimeList(t: Timed): seq<int> { [t.at] }
  function ItselfAsKey(at: int): seq<int> { [at] }

  lemma {:induction false} TimesAt(s: seq<Timed>)
    ensures |Concat(TimeList, s)| == |s| && forall i :: 0 <= i < |s| ==> Concat(TimeList, s)[i] == s[i].at
    ensures |Concat(TimedMessage, s)| == |s|
    ensures forall i :: 0 <= i < |s| ==> Concat(TimedMessage, s)[i] == Chat(s[i].role, s[i].words)
  {
    if s != [] { TimesAt(s[..|s| - 1]); }
  }

  lemma TimesAreOrdered(s: seq<Timed>)
    requires Ordered(TimeOf, s)
    ensures Ordered(ItselfAsKey, Concat(TimeList, s))
  {
    TimesAt(s);
    var times := Concat(TimeList, s);
    forall i, j | 0 <= i < j < |times| ensures !Less(ItselfAsKey(times[j]), ItselfAsKey(times[i])) {
      assert !Less(TimeOf(s[j]), TimeOf(s[i]));
    }
  }

  /** Two orderings of the same nodes by time that read alike are alike. */
  lemma SameMessagesSameNodes(a: seq<Timed>, b: seq<Timed>)
    requires multiset(a) == multiset(b) && Ordered(TimeOf, a) && Ordered(TimeOf, b)
    requires Concat(TimedMessage, a) == Concat(TimedMessage, b)
    ensures a == b
  {
    TimesAt(a);
    TimesAt(b);
    TimesAreOrdered(a);
    TimesAreOrdered(b);
    ConcatPermutes(TimeList, a, b);
    SortIsUnique(ItselfAsKey, Concat(TimeList, a), Concat(TimeList, b));
    forall i | 0 <= i < |a| ensures a[i] == b[i] {
      assert Concat(TimedMessage, a)[i] == Concat(TimedMessage, b)[i];
      assert Concat(TimeList, a)[i] == Concat(TimeList, b)[i];
    }
  }

  lemma TimedOnce(n: Option<Node>, f: Timed)
    requires TimedNode(n) == [f]
    ensures NodeAt([f.at])(n) == [f]
  {
    OfKeyOne(TimeOf, f, [f.at]);
  }

  lemma SwapChangesSort(mapping: seq<Option<Node>>, i: nat, j: nat, f: Timed, g: Timed)
    requires i < j < |mapping| && TimedNode(mapping[i]) == [f] && TimedNode(mapping[j]) == [g] && f != g && f.at == g.at
    ensures Sort(TimeOf, Concat(TimedNode, Swap(mapping, i, j))) != Sort(TimeOf, Concat(TimedNode, mapping))
  {
    var swapped, x := Swap(mapping, i, j), [f.at];
    TimedOnce(mapping[i], f);
    TimedOnce(mapping[j], g);
    SwapShows(NodeAt(x), mapping, i, j, f, g);
    NodesAt(mapping, x);
    NodesAt(swapped, x);
    SortIsStable(TimeOf, Concat(TimedNode, mapping), x);
    SortIsStable(TimeOf, Concat(TimedNode, swapped), x);
  }

  lemma DifferentSortsShow(a: seq<Timed>, b: seq<Timed>)
    requires multiset(a) == multiset(b) && Sort(TimeOf, a) != Sort(TimeOf, b)
    ensures Concat(TimedMessage, Sort(TimeOf, a)) != Concat(TimedMessage, Sort(TimeOf, b))
  {
    SortSorts(TimeOf, a);
    SortSorts(TimeOf, b);
    if Concat(TimedMessage, Sort(TimeOf, a)) == Concat(TimedMessage, Sort(TimeOf, b)) {
      SameMessagesSameNodes(Sort(TimeOf, a), Sort(TimeOf, b));
    }
  }

  /** Two different messages of the same time show the order the map was walked in. */
  lemma SharedTimeShows(doc: Doc, i: nat, j: nat, f: Timed, g: Timed)
    requires i < j < |doc.mapping| && TimedNode(doc.mapping[i]) == [f] && TimedNode(doc.mapping[j]) == [g]
    requires f != g && f.at == g.at && Concat(SimpleMessage, doc.messages) == []
    ensures var other := Doc(doc.messages, Swap(doc.mapping, i, j));
      Reordered(doc, other) && DocMessages(other) != DocMessages(doc)
  {
    var swapped := Swap(doc.mapping, i, j);
    SwapPermutes(doc.mapping, i, j);
    SwapChangesSort(doc.mapping, i, j, f, g);
    ConcatPermutes(TimedNode, swapped, doc.mapping);
    DifferentSortsShow(Concat(TimedNode, swapped), Concat(TimedNode, doc.mapping));
  }

  lemma SharedTime(doc: Doc) returns (i: nat, j: nat, f: Timed, g: Timed)
    requires !KeyDetermines(TimeOf, Nodes(doc))
    ensures i < |doc.mapping| && j < |doc.mapping| && f != g && f.at == g.at
    ensures TimedNode(doc.mapping[i]) == [f] && TimedNode(doc.mapping[j]) == [g]
  {
    f, g :| f in Nodes(doc) && g in Nodes(doc) && TimeOf(f) == TimeOf(g) && f != g;
    assert f.at == TimeOf(f)[0] == TimeOf(g)[0] == g.at;
    i := FromConcat(TimedNode, doc.mapping, f);
    j := FromConcat(TimedNode, doc.mapping, g);
  }

  lemma OtherOrder(doc: Doc) returns (other: Doc)
    requires Concat(SimpleMessage, doc.messages) == [] && !KeyDetermines(TimeOf, Nodes(doc))
    ensures Reordered(doc, other) && DocMessages(other) != DocMessages(doc)
  {
    var i, j, f, g := SharedTime(doc);
    if i < j {
      SharedTimeShows(doc, i, j, f, g);
      other := Doc(doc.messages, Swap(doc.mapping, i, j));
    } else {
      SharedTimeShows(doc, j, i, g, f);
      other := Doc(doc.messages, Swap(doc.mapping, j, i));
    }
  }

  /** The map's order never shows exactly when the plain list is used, or creation times tell the messages apart. */
  lemma MappingOrderExactly(doc: Doc)
    ensures (forall other :: Reordered(doc, other) ==> DocMessages(other) == DocMessages(doc))
       <==> Concat(SimpleMessage, doc.messages) != [] || KeyDetermines(TimeOf, Nodes(doc))
  {
    if KeyDetermines(TimeOf, Nodes(doc)) {
      forall other | Reordered(doc, other) ensures DocMessages(other) == DocMessages(doc) {
        MappingOrderDoesNotMatter(doc, other);
      }
    } else if Concat(SimpleMessage, doc.messages) == [] {
      var other := OtherOrder(doc);
    }
  }

  // ---- Import ------------------------------------------------------------------

  datatype Failure = EmptyExport | UnknownFormat | NotAnExport | NoMessages
  datatype Reading = Messages(all: seq<Message>) | Refused(why: Failure)
  datatype Import = Imported(msgs: seq<Message>, dropped: nat) | Failed(why: Failure)

  function DetectFormat(d: Decoders, raw: text): string {
    var trimmed := TrimSpace(raw);
    var lines := NonBlankLines(trimmed);
    if trimmed != [] && (trimmed[0] == 0x7B || trimmed[0] == 0x5B) && d.isJson(trimmed) then "chatgpt"
    else if lines != [] && forall i :: 0 <= i < |lines| ==> d.isJson(lines[i]) then "claude_code"
    else "text"
  }

  function FormatOf(d: Decoders, raw: text, format: string): string {
    if format == "" || format == "auto" then DetectFormat(d, raw) else format
  }

  /** Everything an export says, before the bounds. */
  function Parsed(d: Decoders, raw: text, format: string, derive: bool): Reading {
    var f := FormatOf(d, raw, format);
    if f == "claude_code" || f == "jsonl" then Messages(JsonlMessages(d, raw, derive))
    else if f == "chatgpt" || f == "json" then
      (if d.doc(raw).None? then Refused(NotAnExport) else Messages(DocMessages(d.doc(raw).value)))
    else if f == "text" || f == "markdown" then Messages(TextMessages(raw))
    else Refused(UnknownFormat)
  }

  function Bounded(m: Message): Message { m.(content := Truncated(m.content)) }

  /** The newest messages that fit, each bounded, and the count of those that did not. */
  predicate IsImportOf(all: seq<Message>, msgs: seq<Message>, dropped: nat) {
    && dropped + |msgs| == |all|
    && |msgs| == (if |all| < MAX_IMPORT then |all| else MAX_IMPORT)
    && forall i :: 0 <= i < |msgs| ==> msgs[i] == Bounded(all[dropped + i])
  }

  method Parse(d: Decoders, raw: text, format: string, derive: bool) returns (p: Reading)
    ensures p == Parsed(d, raw, format, derive)
  {
    var f := FormatOf(d, raw, format);
    if f == "claude_code" || f == "jsonl" {
      var msgs := NormalizeJsonl(d, raw, derive);
      p := Messages(msgs);
    } else if f == "chatgpt" || f == "json" {
      var doc := d.doc(raw);
      if doc.None? { return Refused(NotAnExport); }
      var msgs := NormalizeChatGpt(doc.value);
      p := Messages(msgs);
    } else if f == "text" || f == "markdown" {
      var msgs := NormalizeText(raw);
      p := Messages(msgs);
    } else {
      p := Refused(UnknownFormat);
    }
  }

  method Normalize(d: Decoders, raw: text, format: string, derive: bool) returns (r: Import)
    ensures raw == [] ==> r == Failed(EmptyExport)
    ensures raw != [] ==>
      match Parsed(d, raw, format, derive)
      case Refused(why) => r == Failed(why)
      case Messages(all) =>
        if all == [] then r == Failed(NoMessages) else r.Imported? && IsImportOf(all, r.msgs, r.dropped)
  {
    if raw == [] { return Failed(EmptyExport); }
    var p := Parse(d, raw, format, derive);
    if p.Refused? { return Failed(p.why); }
    var msgs := p.all;
    if msgs == [] { return Failed(NoMessages); }
    msgs := BoundAll(msgs);
    var dropped := 0;
    if |msgs| > MAX_IMPORT {
      dropped := |msgs| - MAX_IMPORT;
      msgs := msgs[dropped..];
    }
    return Imported(msgs, dropped);
  }

  method BoundAll(all: seq<Message>) returns (msgs: seq<Message>)
    ensures |msgs| == |all| && forall i :: 0 <= i < |all| ==> msgs[i] == Bounded(all[i])
  {
    msgs := all;
    for i := 0 to |all|
      invariant |msgs| == |all|
      invariant forall j :: 0 <= j < i ==> msgs[j] == Bounded(all[j])
      invariant forall j :: i <= j < |all| ==> msgs[j] == all[j]
    {
      var content := Truncate(msgs[i].content);
      msgs := msgs[i := msgs[i].(content := content)];
    }
  }
}
