/** Shared chat logs, internal/chatspec/chatspec.go: what makes a message storable. */
module ChatSpec {
  import opened Bytes
  import opened Utf
  import opened Text

  const MAX_CONTENT := 0x1_0000
  const MAX_PATHS := 20
  const MAX_TOOL := 128
  const MAX_PATH := 512

  const CHAT := "chat"
  const ACTION := "action"
  const USER := "user"
  const ASSISTANT := "assistant"
  const TOOL_USE := "tool_use"
  const FILE_EDIT := "file_edit"

  datatype ActionMeta = ActionMeta(action: string, tool: text, paths: seq<text>)
  datatype Message = Message(kind: string, role: string, content: text, meta: Option<ActionMeta>)

  // ---- Validation --------------------------------------------------------------

  datatype Problem =
    | MetaOnChat | MetaMissing | UnknownKind | UnknownRole | Empty | TooLong | NotUtf8
    | ToolMissing | PathMissing | UnknownAction | ToolTooLong | TooManyPaths | BadPath

  const SLASH: byte := 0x2F
  const DOT: byte := 0x2E
  const BACKSLASH: byte := 0x5C

  predicate ProperSegment(s: text) { s != [] && s != [DOT] && s != [DOT, DOT] }

  predicate HasEmptySegment(p: text) { exists i :: 0 <= i < |p| - 1 && p[i] == SLASH && p[i + 1] == SLASH }

  predicate CleanPath(p: text) {
    && p != [] && |p| <= MAX_PATH && 0 !in p && BACKSLASH !in p
    && p[0] != SLASH && !HasEmptySegment(p)
    && forall i :: 0 <= i < |Split(p, SLASH)| ==> ProperSegment(Split(p, SLASH)[i])
  }

  function ValidateMeta(m: ActionMeta): Option<Problem> {
    if m.action == TOOL_USE && Blank(m.tool) then Some(ToolMissing)
    else if m.action == FILE_EDIT && m.paths == [] then Some(PathMissing)
    else if m.action != TOOL_USE && m.action != FILE_EDIT then Some(UnknownAction)
    else if |m.tool| > MAX_TOOL then Some(ToolTooLong)
    else if |m.paths| > MAX_PATHS then Some(TooManyPaths)
    else if exists i :: 0 <= i < |m.paths| && !CleanPath(m.paths[i]) then Some(BadPath)
    else None
  }

  function Validate(m: Message): Option<Problem> {
    var ofKind :=
      if m.kind == CHAT then (if m.meta.Some? then Some(MetaOnChat) else None)
      else if m.kind == ACTION then (if m.meta.None? then Some(MetaMissing) else ValidateMeta(m.meta.value))
      else Some(UnknownKind);
    if ofKind.Some? then ofKind
    else if m.role != USER && m.role != ASSISTANT then Some(UnknownRole)
    else if Blank(m.content) && m.kind == CHAT then Some(Empty)
    else if |m.content| > MAX_CONTENT then Some(TooLong)
    else if Decode8(m.content).None? then Some(NotUtf8)
    else None
  }

  /** An empty segment shows in the split. */
  lemma SplitSeesSlash(p: text)
    requires p == [] || p[0] == SLASH || HasEmptySegment(p)
    ensures [] in Split(p, SLASH)
  {
    if p == [] || p[0] == SLASH {
      assert Split(p, SLASH)[0] == [];
    } else {
      var i :| 0 <= i < |p| - 1 && p[i] == SLASH && p[i + 1] == SLASH;
      var a, b := p[..i], p[i + 1..];
      assert p == a + [SLASH] + b;
      SplitAt(a, SLASH, b);
      assert Split(b, SLASH)[0] == [];
      assert Split(p, SLASH)[|Split(a, SLASH)|] == [];
    }
  }

  /** A path is clean exactly when each of its segments names something: no empty one, no dots. */
  lemma CleanPathExactly(p: text)
    ensures CleanPath(p) <==>
      && |p| <= MAX_PATH && 0 !in p && BACKSLASH !in p
      && [] !in Split(p, SLASH) && [DOT] !in Split(p, SLASH) && [DOT, DOT] !in Split(p, SLASH)
  {
    if p == [] || p[0] == SLASH || HasEmptySegment(p) { SplitSeesSlash(p); }
  }

  // ---- Truncation --------------------------------------------------------------

  const MARKER := Ascii("\n\n[truncated]")

  /** The last place at or before `cut` where a character starts. */
  function Back(s: text, cut: nat): (c: nat)
    requires cut < |s|
    ensures c <= cut && (c == 0 || !IsContinuation(s[c]))
    ensures forall d :: c < d <= cut ==> IsContinuation(s[d])
  {
    if cut > 0 && IsContinuation(s[cut]) then Back(s, cut - 1) else cut
  }

  function Truncated(s: text): text {
    if |s| <= MAX_CONTENT then s else s[..Back(s, MAX_CONTENT - |MARKER|)] + MARKER
  }

  method Truncate(s: text) returns (r: text)
    ensures r == Truncated(s)
  {
    if |s| <= MAX_CONTENT { return s; }
    var cut := MAX_CONTENT - |MARKER|;
    while cut > 0 && IsContinuation(s[cut])
      invariant 0 <= cut < |s| && Back(s, cut) == Back(s, MAX_CONTENT - |MARKER|)
    {
      cut := cut - 1;
    }
    return s[..cut] + MARKER;
  }

  lemma MarkerIsText()
    ensures Valid8(MARKER) && !Blank(MARKER)
  {
    AsciiIsValid(MARKER);
    assert MARKER[2] == 0x5B;
    BlankExactly(MARKER);
  }

  lemma NonBlankTail(a: text, b: text)
    requires !Blank(b)
    ensures !Blank(a + b)
  {
    BlankExactly(b);
    BlankExactly(a + b);
    var i :| 0 <= i < |b| && !IsSpace(b[i]);
    assert (a + b)[|a| + i] == b[i];
  }

  lemma CutIsNear(s: text, at: nat)
    requires Valid8(s) && at < |s|
    ensures Back(s, at) + 3 >= at && Valid8(s[..Back(s, at)])
  {
    StartIsNear(s, at);
    CutIsValid(s, Back(s, at));
  }

  /** Truncation fits, stays valid, is never blank, and on valid text gives up at most three bytes of room. */
  lemma TruncationFits(s: text)
    ensures |Truncated(s)| <= 65536
    ensures Truncated(s) == s <==> |s| <= 65536
    ensures Valid8(s) ==> Valid8(Truncated(s))
    ensures !Blank(s) ==> !Blank(Truncated(s))
    ensures |s| > 65536 ==> exists cut :: 0 <= cut < |s| && Truncated(s) == s[..cut] + Ascii("\n\n[truncated]")
    ensures |s| > 65536 && Valid8(s) ==> |Truncated(s)| >= 65533
  {
    if |s| > MAX_CONTENT {
      var at := MAX_CONTENT - |MARKER|;
      MarkerIsText();
      NonBlankTail(s[..Back(s, at)], MARKER);
      if Valid8(s) {
        CutIsNear(s, at);
        ValidConcat(s[..Back(s, at)], MARKER);
      }
    }
  }
}
