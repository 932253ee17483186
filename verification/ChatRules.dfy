/**
 * What the import of internal/chatspec/chatspec.go promises, in terms of the export's own
 * text: which messages are storable, and which messages lines, parts and trees become.
 */
module ChatRules {
  import opened Bytes
  import opened Utf
  import opened Text
  import opened Sorting
  import opened ChatSpec
  import opened ChatImport

  // ---- Storable messages -------------------------------------------------------

  /** Something other than a space, a tab or a line break. */
  predicate HasInk(t: text) { exists i :: 0 <= i < |t| && t[i] != 0x20 && !(9 <= t[i] <= 13) }

  predicate GoodPath(p: text) {
    && |p| <= 512 && 0x00 !in p && 0x5C !in p
    && [] !in Split(p, 0x2F) && [0x2E] !in Split(p, 0x2F) && [0x2E, 0x2E] !in Split(p, 0x2F)
  }

  predicate GoodMeta(m: ActionMeta) {
    && |m.tool| <= 128 && |m.paths| <= 20 && (forall i :: 0 <= i < |m.paths| ==> GoodPath(m.paths[i]))
    && ((m.action == "tool_use" && HasInk(m.tool)) || (m.action == "file_edit" && m.paths != []))
  }

  lemma InkExactly(t: text)
    ensures HasInk(t) <==> !Blank(t)
  {
    BlankExactly(t);
  }

  lemma MetaExactly(m: ActionMeta)
    ensures ValidateMeta(m).None? <==> GoodMeta(m)
  {
    InkExactly(m.tool);
    forall i | 0 <= i < |m.paths| ensures CleanPath(m.paths[i]) <==> GoodPath(m.paths[i]) {
      CleanPathExactly(m.paths[i]);
    }
  }

  /** Which messages may be stored, bounds and words spelled out. */
  lemma StorableExactly(m: Message)
    ensures Validate(m).None? <==>
      && (m.role == "user" || m.role == "assistant") && |m.content| <= 65536 && Valid8(m.content)
      && ((m.kind == "chat" && m.meta.None? && HasInk(m.content))
        || (m.kind == "action" && m.meta.Some? && GoodMeta(m.meta.value)))
  {
    InkExactly(m.content);
    DecodesExactly(m.content);
    if m.meta.Some? { MetaExactly(m.meta.value); }
  }

  // ---- Roles -------------------------------------------------------------------

  /** Who speaks: the role if it is a known one in any case, else the line's type. */
  lemma RoleExactly(role: string, kind: string)
    ensures var r := AsciiLower(role);
      var users, assistants := {"user", "human"}, {"assistant", "model", "ai"};
      && (CanonicalRole(role, kind) == "user" <==> r in users || (r !in assistants && kind == "user"))
      && (CanonicalRole(role, kind) == "assistant" <==> r in assistants || (r !in users && kind == "assistant"))
      && (CanonicalRole(role, kind) in {"user", "assistant", ""})
  {
  }

  // ---- Lines -------------------------------------------------------------------

  /** Lines are read one by one, in order. */
  lemma LinesPart(d: Decoders, a: text, b: text, derive: bool)
    ensures JsonlMessages(d, a + [0x0A] + b, derive) == JsonlMessages(d, a, derive) + JsonlMessages(d, b, derive)
  {
    SplitAt(a, NEWLINE, b);
    ConcatAppend(KeptLine, Split(a, NEWLINE), Split(b, NEWLINE));
    ConcatAppend(LineMessages(d.event, derive), NonBlankLines(a), NonBlankLines(b));
  }

  /** A line is decoded without the white space around it, and skipped if it is blank or does not decode. */
  lemma LineExactly(d: Decoders, line: text, derive: bool)
    requires 0x0A !in line
    ensures JsonlMessages(d, line, derive) ==
      if HasInk(line) && d.event(TrimSpace(line)).Some?
      then EventMessages(d.event(TrimSpace(line)).value, derive) else []
  {
    SplitOnePart(line, NEWLINE);
    InkExactly(line);
    ConcatOne(KeptLine, line);
    if HasInk(line) { ConcatOne(LineMessages(d.event, derive), TrimSpace(line)); }
  }

  /** A line of plain text is one message of whoever speaks. */
  lemma PlainEvent(role: string, outer: string, words: text, other: Content, kind: string, derive: bool)
    ensures var said := CanonicalRole(role, kind);
      EventMessages(Event(kind, Some((role, Plain(words))), outer, other), derive) ==
      EventMessages(Event(kind, None, role, Plain(words)), derive) ==
      if said == "" || !HasInk(words) then [] else [Message("chat", said, words, None)]
  {
    InkExactly(words);
  }

  // ---- Parts -------------------------------------------------------------------

  /** The messages of a list of parts; tool activity is kept only for an assistant, and only if asked for. */
  function PartMessages(role: string, parts: seq<Part>, tools: bool): seq<Message> {
    Compiled(role, Concat(ItemsOf(tools), parts))
  }

  lemma EventOfParts(role: string, parts: seq<Part>, kind: string, derive: bool)
    ensures var said := CanonicalRole(role, kind);
      EventMessages(Event(kind, None, role, Parts(parts)), derive) ==
      if said == "" then [] else PartMessages(said, parts, derive && said == "assistant")
  {
  }

  /** The groups after one more item, which joins the last group or is one of its own. */
  function NextGroups(groups: seq<seq<Item>>, joins: bool, item: Item): seq<seq<Item>> {
    if joins && groups != [] then groups[..|groups| - 1] + [groups[|groups| - 1] + [item]] else groups + [[item]]
  }

  predicate Joins(items: seq<Item>, item: Item) { items != [] && item.Prose? && items[|items| - 1].Prose? }

  /** A grouping is made item by item. */
  ghost predicate Grouping(g: seq<Item> -> seq<seq<Item>>) {
    && g([]) == []
    && (forall items :: items != [] ==> g(items) != [])
    && forall items, item :: g(items + [item]) == NextGroups(g(items), Joins(items, item), item)
  }

  lemma GroupsGroup()
    ensures Grouping(Groups)
  {
    forall items, item ensures Groups(items + [item]) == NextGroups(Groups(items), Joins(items, item), item) {
      assert (items + [item])[..|items|] == items;
    }
  }

  lemma NextOfAppend(g: seq<seq<Item>>, h: seq<seq<Item>>, joins: bool, item: Item)
    requires joins ==> h != []
    ensures NextGroups(g + h, joins, item) == g + NextGroups(h, joins, item)
  {
    if joins { assert (g + h)[..|g + h| - 1] == g + h[..|h| - 1] && (g + h)[|g + h| - 1] == h[|h| - 1]; }
  }

  /** One more item after texts that end alike, or of which the shorter is empty. */
  lemma GroupsGrow(
    g: seq<Item> -> seq<seq<Item>>, head: seq<seq<Item>>, before: seq<Item>, front: seq<Item>, item: Item)
    requires Grouping(g) && g(before) == head + g(front) && before != []
    requires if front == [] then before[|before| - 1].Tool? else before[|before| - 1] == front[|front| - 1]
    ensures g(before + [item]) == head + g(front + [item])
  {
    NextOfAppend(head, g(front), Joins(front, item), item);
  }

  lemma Regroup<T>(a: seq<T>, x: T, b: seq<T>)
    requires b != []
    ensures a + [x] + b == (a + [x] + b[..|b| - 1]) + [b[|b| - 1]] && b == b[..|b| - 1] + [b[|b| - 1]]
    ensures var t := a + [x] + b[..|b| - 1]; t[|t| - 1] == if |b| == 1 then x else b[|b| - 2]
  {
  }

  lemma {:induction false} GroupsPart(g: seq<Item> -> seq<seq<Item>>, a: seq<Item>, tool: Item, b: seq<Item>)
    requires Grouping(g) && tool.Tool?
    ensures g(a + [tool] + b) == g(a) + [[tool]] + g(b)
    decreases |b|
  {
    if b == [] {
      assert a + [tool] + b == a + [tool];
    } else {
      var front := b[..|b| - 1];
      GroupsPart(g, a, tool, front);
      Regroup(a, tool, b);
      GroupsGrow(g, g(a) + [[tool]], a + [tool] + front, front, b[|b| - 1]);
    }
  }

  lemma MappedAround<T, U>(f: T -> U, a: seq<T>, x: T, b: seq<T>)
    ensures Mapped(f, a + [x] + b) == Mapped(f, a) + [f(x)] + Mapped(f, b)
  {
  }

  lemma CompiledPart(role: string, a: seq<Item>, tool: Item, b: seq<Item>)
    requires tool.Tool?
    ensures Compiled(role, a + [tool] + b) == Compiled(role, a) + [Render(role)([tool])] + Compiled(role, b)
  {
    GroupsGroup();
    GroupsPart(Groups, a, tool, b);
    MappedAround(Render(role), Groups(a), [tool], Groups(b));
  }

  /** A tool part ends the prose before it, and is an action between what comes before and after. */
  lemma ToolParts(role: string, a: seq<Part>, p: Part, b: seq<Part>)
    requires p.kind == "tool_use"
    ensures PartMessages(role, a + [p] + b, true) ==
      PartMessages(role, a, true) + [DeriveAction(p)] + PartMessages(role, b, true)
  {
    var f := ItemsOf(true);
    ConcatAppend(f, a + [p], b);
    ConcatAppend(f, a, [p]);
    ConcatOne(f, p);
    CompiledPart(role, Concat(f, a), Tool(p), Concat(f, b));
  }

  /** A part that is neither text with something in it nor a wanted tool leaves no trace. */
  lemma NoisePart(role: string, a: seq<Part>, p: Part, b: seq<Part>, tools: bool)
    requires !(p.kind == "text" && HasInk(p.words)) && !(p.kind == "tool_use" && tools)
    ensures PartMessages(role, a + [p] + b, tools) == PartMessages(role, a + b, tools)
  {
    InkExactly(p.words);
    var f := ItemsOf(tools);
    ConcatAppend(f, a + [p], b);
    ConcatAppend(f, a, [p]);
    ConcatAppend(f, a, b);
    ConcatOne(f, p);
    assert Concat(f, a) + [] == Concat(f, a);
  }

  function WordsIn(parts: seq<Part>): seq<text> { Mapped((p: Part) => p.words, parts) }

  lemma {:induction false} ConcatOnes<T, U>(f: T -> seq<U>, g: T -> U, xs: seq<T>)
    requires forall i :: 0 <= i < |xs| ==> f(xs[i]) == [g(xs[i])]
    ensures Concat(f, xs) == Mapped(g, xs)
  {
    if xs != [] {
      ConcatOnes(f, g, xs[..|xs| - 1]);
      assert xs == xs[..|xs| - 1] + [xs[|xs| - 1]];
    }
  }

  lemma ProseItems(parts: seq<Part>, tools: bool)
    requires forall i :: 0 <= i < |parts| ==> parts[i].kind == "text" && HasInk(parts[i].words)
    ensures Concat(ItemsOf(tools), parts) == Mapped((p: Part) => Prose(p.words), parts)
  {
    forall i | 0 <= i < |parts| ensures ItemsOf(tools)(parts[i]) == [Prose(parts[i].words)] {
      InkExactly(parts[i].words);
    }
    ConcatOnes(ItemsOf(tools), (p: Part) => Prose(p.words), parts);
  }

  lemma {:induction false} ProseIsOneGroup(g: seq<Item> -> seq<seq<Item>>, items: seq<Item>)
    requires Grouping(g) && items != [] && forall i :: 0 <= i < |items| ==> items[i].Prose?
    ensures g(items) == [items]
  {
    var n := |items| - 1;
    assert items[..n] + [items[n]] == items;
    if n > 0 { ProseIsOneGroup(g, items[..n]); }
  }

  lemma ProseIsOneMessage(role: string, items: seq<Item>)
    requires items != [] && forall i :: 0 <= i < |items| ==> items[i].Prose?
    ensures Compiled(role, items) == [Chat(role, Join(AllWords(items), PARAGRAPH))]
  {
    GroupsGroup();
    ProseIsOneGroup(Groups, items);
  }

  /** Text parts in a row are one message, an empty line between them. */
  lemma ProseParts(role: string, parts: seq<Part>, tools: bool)
    requires parts != [] && forall i :: 0 <= i < |parts| ==> parts[i].kind == "text" && HasInk(parts[i].words)
    ensures PartMessages(role, parts, tools) == [Message("chat", role, Join(WordsIn(parts), [0x0A, 0x0A]), None)]
  {
    var items := Mapped((p: Part) => Prose(p.words), parts);
    ProseItems(parts, tools);
    ProseIsOneMessage(role, items);
    assert AllWords(items) == WordsIn(parts);
  }

  // ---- Actions -----------------------------------------------------------------

  predicate EditsByName(name: text) {
    name in {Ascii("Edit"), Ascii("Write"), Ascii("MultiEdit"), Ascii("NotebookEdit"), Ascii("str_replace_editor"),
      Ascii("create_file")}
  }

  /** The file a tool's input names: `file_path`, or else `path`, without one leading slash. */
  function FileOf(p: Part): text {
    var path := if p.filePath != [] then p.filePath else p.path;
    if [0x2F] <= path then path[1..] else path
  }

  /** What an action records: the file if its path is good, an edit if the tool is an editor, and else the tool. */
  lemma ActionExactly(p: Part)
    ensures var m := DeriveAction(p);
      && m.kind == "action" && m.role == "assistant" && m.content == [] && m.meta.Some?
      && m.meta.value.paths == (if GoodPath(FileOf(p)) then [FileOf(p)] else [])
      && (m.meta.value.action == "file_edit" <==> GoodPath(FileOf(p)) && EditsByName(p.name))
      && (m.meta.value.action != "file_edit" ==> m.meta.value.action == "tool_use")
      && (m.meta.value.action == "file_edit" ==> m.meta.value.tool == [])
      && (m.meta.value.action == "tool_use" && |p.name| <= 128 ==> m.meta.value.tool == p.name)
      && (m.meta.value.action == "tool_use" && |p.name| > 128 ==> m.meta.value.tool == p.name[..128])
  {
    CleanPathExactly(FileOf(p));
  }

  // ---- Trees -------------------------------------------------------------------

  /** Messages of a tree, oldest first. */
  ghost predicate InTimeOrder(nodes: seq<Timed>, msgs: seq<Message>) {
    exists sorted: seq<Timed> :: IsByTime(nodes, sorted) && Tells(sorted, msgs)
  }

  predicate IsByTime(nodes: seq<Timed>, sorted: seq<Timed>) {
    multiset(sorted) == multiset(nodes) && forall i, j :: 0 <= i < j < |sorted| ==> sorted[i].at <= sorted[j].at
  }

  predicate Tells(sorted: seq<Timed>, msgs: seq<Message>) {
    && |msgs| == |sorted|
    && forall i :: 0 <= i < |msgs| ==> msgs[i] == Message("chat", sorted[i].role, sorted[i].words, None)
  }

  lemma TreeIsByTime(doc: Doc)
    requires Concat(SimpleMessage, doc.messages) == []
    ensures InTimeOrder(Nodes(doc), DocMessages(doc))
  {
    var sorted := Sort(TimeOf, Nodes(doc));
    SortSorts(TimeOf, Nodes(doc));
    TimesAt(sorted);
    forall i, j | 0 <= i < j < |sorted| ensures sorted[i].at <= sorted[j].at {
      assert !Less(TimeOf(sorted[j]), TimeOf(sorted[i]));
    }
    assert IsByTime(Nodes(doc), sorted) && Tells(sorted, DocMessages(doc));
  }

  /** The string parts with something in them, an empty line between; a node without any is skipped. */
  lemma NodeExactly(at: int, role: string, words: seq<text>)
    requires forall i :: 0 <= i < |words| ==> HasInk(words[i])
    ensures var said := CanonicalRole(role, "");
      TimedNode(Some(Node(at, role, Mapped((w: text) => Some(w), words)))) ==
      if said == "" || words == [] then [] else [Timed(at, said, Join(words, [0x0A, 0x0A]))]
  {
    var parts := Mapped((w: text) => Some(w), words);
    SolidParts(words);
    JoinedIsEmpty(parts);
  }

  lemma {:induction false} SolidParts(words: seq<text>)
    requires forall i :: 0 <= i < |words| ==> HasInk(words[i])
    ensures Concat(SolidPart, Mapped((w: text) => Some(w), words)) == words
  {
    if words != [] {
      var n := |words| - 1;
      var parts := Mapped((w: text) => Some(w), words);
      SolidParts(words[..n]);
      InkExactly(words[n]);
      assert parts[..n] == Mapped((w: text) => Some(w), words[..n]);
    }
  }

  // ---- Formats and bounds ------------------------------------------------------

  predicate OneDocument(d: Decoders, raw: text) {
    var t := TrimSpace(raw);
    d.isJson(t) && ([0x7B] <= t || [0x5B] <= t)
  }

  predicate JsonLines(d: Decoders, raw: text) {
    var lines := NonBlankLines(TrimSpace(raw));
    lines != [] && forall i :: 0 <= i < |lines| ==> d.isJson(lines[i])
  }

  lemma DetectExactly(d: Decoders, raw: text)
    ensures DetectFormat(d, raw) ==
      if OneDocument(d, raw) then "chatgpt" else if JsonLines(d, raw) then "claude_code" else "text"
  {
  }

  /** How an export of a named format is read; another name is refused. */
  lemma NamedFormat(d: Decoders, raw: text, format: string, derive: bool)
    requires format != "" && format != "auto"
    ensures var r := Parsed(d, raw, format, derive);
      if format == "claude_code" || format == "jsonl" then r == Messages(JsonlMessages(d, raw, derive))
      else if format == "text" || format == "markdown" then r == Messages(TextMessages(raw))
      else if format != "chatgpt" && format != "json" then r == Refused(UnknownFormat)
      else r == if d.doc(raw).Some? then Messages(DocMessages(d.doc(raw).value)) else Refused(NotAnExport)
  {
  }

  /** One without a name is read as its shape says. */
  lemma DetectedFormat(d: Decoders, raw: text, derive: bool)
    ensures Parsed(d, raw, "auto", derive) == Parsed(d, raw, "", derive) ==
      Parsed(d, raw,
        if OneDocument(d, raw) then "chatgpt" else if JsonLines(d, raw) then "claude_code" else "text", derive)
  {
    DetectExactly(d, raw);
  }

  /** An import holds the newest thousand messages, and says how many older ones it left out. */
  lemma NewestExactly(all: seq<Message>, msgs: seq<Message>, dropped: nat)
    ensures var newest := if |all| > 1000 then all[|all| - 1000..] else all;
      IsImportOf(all, msgs, dropped) <==>
        && |msgs| == |newest| && dropped == |all| - |newest|
        && forall i :: 0 <= i < |msgs| ==> msgs[i] == newest[i].(content := Truncated(newest[i].content))
  {
    var newest := if |all| > 1000 then all[|all| - 1000..] else all;
    if |msgs| == |newest| && dropped == |all| - |newest| {
      forall i | 0 <= i < |msgs|
        ensures Bounded(all[dropped + i]) == newest[i].(content := Truncated(newest[i].content))
      {
        assert newest[i] == all[dropped + i];
      }
    }
  }
}
