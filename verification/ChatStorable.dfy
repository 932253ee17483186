/** Every message an import returns is storable, but for actions of tools without a name. */
module ChatStorable {
  import opened Bytes
  import opened Utf
  import opened Text
  import opened ChatSpec
  import opened ChatImport
  import opened Sorting

  // ---- What the decoders promise -----------------------------------------------

  ghost predicate ContentIsUtf8(c: Content) {
    match c
    case Plain(words) => Valid8(words)
    case Parts(parts) => forall p :: p in parts ==> Valid8(p.words)
    case _ => true
  }

  ghost predicate DocIsUtf8(doc: Doc) {
    && (forall m :: m in doc.messages ==> ContentIsUtf8(m.1))
    && (forall n, w :: n in doc.mapping && n.Some? && Some(w) in n.value.parts ==> Valid8(w))
  }

  /** Strings decoded from JSON are UTF-8: Go's decoder replaces whatever is not. */
  ghost predicate YieldsUtf8(d: Decoders) {
    && (forall t :: d.event(t).Some? ==> ContentIsUtf8(ContentOf(d.event(t).value)))
    && (forall t :: d.doc(t).Some? ==> DocIsUtf8(d.doc(t).value))
  }

  // ---- Sound messages ----------------------------------------------------------

  ghost predicate SoundChat(m: Message) {
    m.kind == CHAT && m.meta.None? && (m.role == USER || m.role == ASSISTANT) && !Blank(m.content) && Valid8(m.content)
  }

  /** A storable chat message but for its length, or an action derived from one of `parts`. */
  ghost predicate Sound(parts: seq<Part>, m: Message) {
    SoundChat(m) || exists p :: p in parts && m == DeriveAction(p)
  }

  ghost predicate AllSound(parts: seq<Part>, msgs: seq<Message>) { forall m :: m in msgs ==> Sound(parts, m) }

  /** The tool parts of an export. */
  function OnlyTool(p: Part): seq<Part> { if p.kind == TOOL_USE then [p] else [] }

  function ToolsIn(ev: Event): seq<Part> {
    if ContentOf(ev).Parts? then Concat(OnlyTool, ContentOf(ev).parts) else []
  }

  function ToolsOfLine(decode: text -> Option<Event>): text -> seq<Part> {
    (line: text) => if decode(line).None? then [] else ToolsIn(decode(line).value)
  }

  function ToolParts(d: Decoders, raw: text): seq<Part> { Concat(ToolsOfLine(d.event), NonBlankLines(raw)) }

  // ---- Typed parts -------------------------------------------------------------

  ghost predicate SoundItem(parts: seq<Part>, i: Item) {
    match i
    case Prose(words) => !Blank(words) && Valid8(words)
    case Tool(p) => p in parts
  }

  lemma {:induction false} InConcat<T, U>(f: T -> seq<U>, xs: seq<T>, x: T, u: U)
    requires x in xs && u in f(x)
    ensures u in Concat(f, xs)
  {
    var n := |xs| - 1;
    if x != xs[n] {
      assert x in xs[..n];
      InConcat(f, xs[..n], x, u);
    }
  }

  lemma ItemsAreSound(parts: seq<Part>, tools: bool)
    requires forall p :: p in parts ==> Valid8(p.words)
    ensures forall i :: i in Concat(ItemsOf(tools), parts) ==> SoundItem(Concat(OnlyTool, parts), i)
  {
    var only := Concat(OnlyTool, parts);
    forall p, i | p in parts && i in ItemsOf(tools)(p) ensures SoundItem(only, i) {
      if i.Tool? { InConcat(OnlyTool, parts, p, p); }
    }
    ConcatHolds(ItemsOf(tools), parts, i => SoundItem(only, i));
  }

  lemma {:induction false} InFlatten<T>(groups: seq<seq<T>>, k: nat, x: T)
    requires k < |groups| && x in groups[k]
    ensures x in Flatten(groups)
  {
    if k < |groups| - 1 { InFlatten(groups[..|groups| - 1], k, x); }
  }

  lemma ProseIsSound(words: seq<text>)
    requires words != [] && forall i :: 0 <= i < |words| ==> !Blank(words[i]) && Valid8(words[i])
    ensures !Blank(Join(words, PARAGRAPH)) && Valid8(Join(words, PARAGRAPH))
  {
    AsciiIsValid(PARAGRAPH);
    JoinIsValid(words, PARAGRAPH);
    JoinIsNotBlank(words, PARAGRAPH);
  }

  lemma JoinIsNotBlank(words: seq<text>, sep: text)
    requires words != [] && !Blank(words[0])
    ensures !Blank(Join(words, sep))
  {
    if |words| > 1 {
      NonBlankHead(words[0], sep);
      NonBlankHead(words[0] + sep, Join(words[1..], sep));
    }
  }

  lemma NonBlankHead(a: text, b: text)
    requires !Blank(a)
    ensures !Blank(a + b)
  {
    BlankExactly(a);
    BlankExactly(a + b);
    var i :| 0 <= i < |a| && !IsSpace(a[i]);
    assert (a + b)[i] == a[i];
  }

  lemma GroupIsSound(parts: seq<Part>, role: string, group: seq<Item>)
    requires role == USER || role == ASSISTANT
    requires IsGroup(group) && forall i :: i in group ==> SoundItem(parts, i)
    ensures Sound(parts, Render(role)(group))
  {
    assert group[0] in group;
    if group[0].Prose? {
      var words := AllWords(group);
      forall i | 0 <= i < |words| ensures !Blank(words[i]) && Valid8(words[i]) { assert group[i] in group; }
      ProseIsSound(words);
      assert SoundChat(Render(role)(group));
    }
  }

  lemma CompiledIsSound(parts: seq<Part>, role: string, items: seq<Item>)
    requires role == USER || role == ASSISTANT
    requires forall i :: i in items ==> SoundItem(parts, i)
    ensures AllSound(parts, Compiled(role, items))
  {
    var groups := Groups(items);
    GroupsKeepOrder(items);
    forall k | 0 <= k < |groups| ensures Sound(parts, Render(role)(groups[k])) {
      forall i | i in groups[k] ensures SoundItem(parts, i) { InFlatten(groups, k, i); }
      GroupIsSound(parts, role, groups[k]);
    }
  }

  lemma EventIsSound(ev: Event, derive: bool)
    requires ContentIsUtf8(ContentOf(ev))
    ensures AllSound(ToolsIn(ev), EventMessages(ev, derive))
  {
    var role := RoleOf(ev);
    if role != "" && ContentOf(ev).Parts? {
      var parts := ContentOf(ev).parts;
      ItemsAreSound(parts, derive && role == ASSISTANT);
      CompiledIsSound(ToolsIn(ev), role, Concat(ItemsOf(derive && role == ASSISTANT), parts));
    }
  }

  lemma MoreParts(few: seq<Part>, many: seq<Part>, m: Message)
    requires Sound(few, m) && forall p :: p in few ==> p in many
    ensures Sound(many, m)
  {
  }

  lemma JsonlIsSound(d: Decoders, raw: text, derive: bool)
    requires YieldsUtf8(d)
    ensures AllSound(ToolParts(d, raw), JsonlMessages(d, raw, derive))
  {
    var lines, parts := NonBlankLines(raw), ToolParts(d, raw);
    var f := LineMessages(d.event, derive);
    forall line, m | line in lines && m in f(line) ensures Sound(parts, m) {
      var ev := d.event(line).value;
      EventIsSound(ev, derive);
      forall p | p in ToolsIn(ev) ensures p in parts { InConcat(ToolsOfLine(d.event), lines, line, p); }
      MoreParts(ToolsIn(ev), parts, m);
    }
    ConcatHolds(f, lines, m => Sound(parts, m));
  }

  // ---- Plain text --------------------------------------------------------------

  lemma LowerColon(s: text, k: nat)
    requires k < |s| && Lower(s)[k] == COLON
    ensures s[k] == COLON
  {
  }

  lemma {:induction false} MarkerIsSound(table: seq<(text, string)>, trimmed: text)
    requires Valid8(trimmed) && MarkerIn(table, trimmed).Some?
    requires forall m :: m in table ==> ColonEnded(m.0) && (m.1 == USER || m.1 == ASSISTANT)
    ensures var (role, rest) := MarkerIn(table, trimmed).value; Valid8(rest) && (role == USER || role == ASSISTANT)
  {
    var (key, role) := table[0];
    assert table[0] in table;
    if key <= Lower(trimmed) {
      var k := |key| - 1;
      assert Lower(trimmed)[k] == COLON;
      LowerColon(trimmed, k);
      assert trimmed == trimmed[..k] + [COLON] + trimmed[k + 1..];
      SplitIsValid(trimmed[..k], COLON, trimmed[k + 1..]);
      TrimIsValid(trimmed[k + 1..]);
    } else {
      assert forall m :: m in table[1..] ==> m in table;
      MarkerIsSound(table[1..], trimmed);
    }
  }

  ghost predicate SoundTurn(t: Turn) {
    (t.role == USER || t.role == ASSISTANT) && forall i :: 0 <= i < |t.lines| ==> Valid8(t.lines[i])
  }

  lemma SpeakerIsSound(line: text)
    requires Valid8(line) && SpeakerMarker(line).Some?
    ensures var (role, rest) := SpeakerMarker(line).value; SoundTurn(Turn(role, [rest]))
  {
    TrimIsValid(line);
    TableHasColons();
    MarkerIsSound(MarkerTable(), TrimSpace(line));
  }

  lemma {:induction false} TurnsAreSound(lines: seq<text>)
    requires forall i :: 0 <= i < |lines| ==> Valid8(lines[i])
    ensures forall t :: t in Turns(lines) ==> SoundTurn(t)
  {
    if lines != [] {
      var n := |lines| - 1;
      TurnsAreSound(lines[..n]);
      var turns := Turns(lines[..n]);
      assert turns[|turns| - 1] in turns;
      if SpeakerMarker(lines[n]).Some? { SpeakerIsSound(lines[n]); }
    }
  }

  lemma SaidIsSound(t: Turn, m: Message)
    requires SoundTurn(t) && m in Said(t)
    ensures SoundChat(m)
  {
    AsciiIsValid([NEWLINE]);
    JoinIsValid(t.lines, [NEWLINE]);
    TrimIsValid(Spoken(t));
  }

  lemma TextIsSound(raw: text)
    requires Valid8(raw)
    ensures AllSound([], TextMessages(raw))
  {
    var p :| Utf8(p) == raw;
    UnixIsValid(p);
    var lines := Split(Unix(raw), NEWLINE);
    SplitPartsAreValid(Unix(raw), NEWLINE);
    TurnsAreSound(lines);
    forall t, m | t in Turns(lines) && m in Said(t) ensures Sound([], m) { SaidIsSound(t, m); }
    ConcatHolds(Said, Turns(lines), m => Sound([], m));
  }

  // ---- ChatGPT exports ---------------------------------------------------------

  ghost predicate SoundTimed(t: Timed) {
    (t.role == USER || t.role == ASSISTANT) && !Blank(t.words) && Valid8(t.words)
  }

  lemma NodeIsSound(n: Node, t: Timed)
    requires (forall w :: Some(w) in n.parts ==> Valid8(w)) && t in TimedNode(Some(n))
    ensures SoundTimed(t)
  {
    var words := Concat(SolidPart, n.parts);
    ConcatHolds(SolidPart, n.parts, w => !Blank(w) && Valid8(w));
    JoinedIsEmpty(n.parts);
    forall i | 0 <= i < |words| ensures !Blank(words[i]) && Valid8(words[i]) { assert words[i] in words; }
    ProseIsSound(words);
  }

  lemma TreeIsSound(doc: Doc)
    requires DocIsUtf8(doc)
    ensures AllSound([], Concat(TimedMessage, Sort(TimeOf, Concat(TimedNode, doc.mapping))))
  {
    var nodes := Concat(TimedNode, doc.mapping);
    forall n, t | n in doc.mapping && t in TimedNode(n) ensures SoundTimed(t) { NodeIsSound(n.value, t); }
    ConcatHolds(TimedNode, doc.mapping, t => SoundTimed(t));
    SortSorts(TimeOf, nodes);
    SameElements(nodes, Sort(TimeOf, nodes));
    ConcatHolds(TimedMessage, Sort(TimeOf, nodes), m => Sound([], m));
  }

  lemma DocIsSound(doc: Doc)
    requires DocIsUtf8(doc)
    ensures AllSound([], DocMessages(doc))
  {
    ConcatHolds(SimpleMessage, doc.messages, m => Sound([], m));
    TreeIsSound(doc);
  }

  // ---- The import --------------------------------------------------------------

  lemma WidenAll(parts: seq<Part>, msgs: seq<Message>)
    requires AllSound([], msgs)
    ensures AllSound(parts, msgs)
  {
    forall m | m in msgs ensures Sound(parts, m) { MoreParts([], parts, m); }
  }

  lemma ParsedIsSound(d: Decoders, raw: text, format: string, derive: bool)
    requires YieldsUtf8(d) && Valid8(raw) && Parsed(d, raw, format, derive).Messages?
    ensures AllSound(ToolParts(d, raw), Parsed(d, raw, format, derive).all)
  {
    var f := FormatOf(d, raw, format);
    if f == "claude_code" || f == "jsonl" {
      JsonlIsSound(d, raw, derive);
    } else if f == "chatgpt" || f == "json" {
      DocIsSound(d.doc(raw).value);
      WidenAll(ToolParts(d, raw), DocMessages(d.doc(raw).value));
    } else {
      TextIsSound(raw);
      WidenAll(ToolParts(d, raw), TextMessages(raw));
    }
  }

  /** An action some nameless tool part of the export gave rise to. */
  ghost predicate Nameless(parts: seq<Part>, m: Message) {
    exists p :: p in parts && m == DeriveAction(p) && !Named(p)
  }

  lemma BoundedExactly(parts: seq<Part>, m: Message)
    requires Sound(parts, m)
    ensures Validate(Bounded(m)).Some? <==> Nameless(parts, m)
  {
    if SoundChat(m) {
      TruncationFits(m.content);
      DecodesExactly(Truncated(m.content));
    } else {
      var p :| p in parts && m == DeriveAction(p);
      assert Bounded(m) == m;
      DerivedExactly(p);
      if Nameless(parts, m) {
        var q :| q in parts && m == DeriveAction(q) && !Named(q);
        DerivedExactly(q);
      }
    }
  }

  /**
   * Of what an import returns, exactly the actions of nameless tools are not storable.
   * `IsImportOf` is what `Normalize` promises of its result.
   */
  lemma ImportIsStorableExactly(d: Decoders, raw: text, format: string, derive: bool, msgs: seq<Message>, dropped: nat)
    requires YieldsUtf8(d) && Valid8(raw) && Parsed(d, raw, format, derive).Messages?
    requires IsImportOf(Parsed(d, raw, format, derive).all, msgs, dropped)
    ensures var all := Parsed(d, raw, format, derive).all;
      forall i :: 0 <= i < |msgs| ==> (Validate(msgs[i]).Some? <==> Nameless(ToolParts(d, raw), all[dropped + i]))
  {
    var parts, all := ToolParts(d, raw), Parsed(d, raw, format, derive).all;
    ParsedIsSound(d, raw, format, derive);
    forall i | 0 <= i < |msgs| ensures Validate(msgs[i]).Some? <==> Nameless(parts, all[dropped + i]) {
      assert all[dropped + i] in all;
      BoundedExactly(parts, all[dropped + i]);
    }
  }

  /** So if every tool of the export has a name, everything returned is storable. */
  lemma NamedToolsAreStorable(d: Decoders, raw: text, format: string, derive: bool, msgs: seq<Message>, dropped: nat)
    requires YieldsUtf8(d) && Valid8(raw) && Parsed(d, raw, format, derive).Messages?
    requires IsImportOf(Parsed(d, raw, format, derive).all, msgs, dropped)
    requires forall p :: p in ToolParts(d, raw) ==> Named(p)
    ensures |msgs| <= 1000 && forall i :: 0 <= i < |msgs| ==> Validate(msgs[i]).None?
  {
    ImportIsStorableExactly(d, raw, format, derive, msgs, dropped);
  }

  lemma OneLine(b: byte)
    requires !IsSpace(b) && b != NEWLINE
    ensures NonBlankLines([b]) == [[b]]
  {
    var raw, none: text := [b], [];
    assert raw[1..] == none && Split(none, NEWLINE) == [none] && [b] + none == raw;
    assert Split(raw, NEWLINE) == [raw];
    assert TrimSpace(raw) == raw;
    ConcatOne(KeptLine, raw);
  }

  lemma OneEvent(d: Decoders, b: byte, ev: Event, derive: bool)
    requires !IsSpace(b) && b != NEWLINE && d.event([b]) == Some(ev)
    ensures JsonlMessages(d, [b], derive) == EventMessages(ev, derive)
  {
    OneLine(b);
    ConcatOne(LineMessages(d.event, derive), [b]);
  }

  lemma OneToolPart(p: Part)
    requires p.kind == TOOL_USE
    ensures EventMessages(Event(ASSISTANT, None, "", Parts([p])), true) == [DeriveAction(p)]
  {
    ConcatOne(ItemsOf(true), p);
    var items := [Tool(p)];
    assert items[..0] == [] && Groups(items) == [items];
  }

  lemma NamelessIsMissing(p: Part)
    requires p.name == [] && p.filePath == [] && p.path == []
    ensures Validate(DeriveAction(p)) == Some(ToolMissing) && Bounded(DeriveAction(p)) == DeriveAction(p)
  {
    assert !CleanPath([]) && Blank([]);
  }

  lemma JsonlIsParsed(d: Decoders, raw: text, derive: bool)
    ensures Parsed(d, raw, "jsonl", derive) == Messages(JsonlMessages(d, raw, derive))
  {
  }

  function Always(ev: Event): Decoders { Decoders(_ => Some(ev), _ => None, _ => true) }

  lemma AlwaysYieldsUtf8(ev: Event)
    requires ContentIsUtf8(ContentOf(ev))
    ensures YieldsUtf8(Always(ev))
  {
  }

  lemma ImportOne(m: Message)
    requires Bounded(m) == m
    ensures IsImportOf([m], [m], 0)
  {
  }

  /** A line with one tool part that has no name: the import returns its action, and the action is not storable. */
  lemma NamelessToolFails() returns (d: Decoders, raw: text, m: Message)
    ensures YieldsUtf8(d) && Valid8(raw)
    ensures Parsed(d, raw, "jsonl", true) == Messages([m]) && IsImportOf([m], [m], 0)
    ensures Validate(m) == Some(ToolMissing)
  {
    var p := Part(TOOL_USE, [], [], [], []);
    var ev := Event(ASSISTANT, None, "", Parts([p]));
    d, raw, m := Always(ev), [0x78], DeriveAction(p);
    AsciiIsValid(raw);
    AsciiIsValid([]);
    AlwaysYieldsUtf8(ev);
    JsonlIsParsed(d, raw, true);
    OneEvent(d, 0x78, ev, true);
    OneToolPart(p);
    NamelessIsMissing(p);
    ImportOne(m);
  }
}
