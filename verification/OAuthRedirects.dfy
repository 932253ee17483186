/**
 * Which redirect URIs an authorize request may append to a client's allowlist
 * (apps/dashboard/lib/oauth-chatgpt-redirect.ts and oauth-loopback-redirect.ts).
 *
 * The WHATWG URL parser is a parameter `parse`; letters are ASCII. The rules read
 * strings through a `Classifier`, of which `ClassifierOf(parse)` is the source's.
 */
module RedirectRules {
  import opened Bytes

  /** The fields of a parsed URL the source reads. */
  datatype Url = Url(
    protocol: string, username: string, password: string, hostname: string, port: string,
    pathname: string, search: string, hash: string, href: string)

  type UrlParser = string -> Option<Url>

  /** How a stored string is read: as a ChatGPT callback, or as a loopback redirect's path. */
  datatype Classifier = Classifier(chatgpt: string -> Option<Redirect>, loopback: string -> Option<string>)

  type Allowlist = seq<string>

  datatype Redirect = Stable(host: string) | Callback(host: string, id: string)

  const STABLE_PATH := "/connector_platform_oauth_redirect"
  const CALLBACK_PREFIX := "/connector/oauth/"

  // ---- Strings -----------------------------------------------------------------

  predicate StartsWith(s: string, prefix: string) { prefix <= s }

  predicate IsIdChar(c: char) { 'A' <= c <= 'Z' || 'a' <= c <= 'z' || '0' <= c <= '9' || c == '_' || c == '-' }

  predicate IsCallbackId(id: string) { 1 <= |id| <= 128 && forall i :: 0 <= i < |id| ==> IsIdChar(id[i]) }

  // ---- ChatGPT callbacks -------------------------------------------------------

  function Canonical(r: Redirect): string {
    match r
    case Stable(host) => "https://" + host + STABLE_PATH
    case Callback(host, id) => "https://" + host + CALLBACK_PREFIX + id
  }

  function ParseChatgpt(parse: UrlParser, raw: string): Option<Redirect> {
    match parse(raw)
    case None => None
    case Some(url) =>
      var host := AsciiLower(url.hostname);
      var path := if url.pathname == STABLE_PATH + "/" then STABLE_PATH else url.pathname;
      if url.protocol != "https:" || url.username != "" || url.password != "" || url.port != ""
        || url.search != "" || url.hash != "" || (host != "chatgpt.com" && host != "chat.openai.com") then None
      else if '\\' in path || ".." in Split(path, '/') then None
      else if path == STABLE_PATH then Some(Stable(host))
      else if !StartsWith(path, CALLBACK_PREFIX) then None
      else
        var id := path[|CALLBACK_PREFIX|..];
        if IsCallbackId(id) then Some(Callback(host, id)) else None
  }

  predicate Acceptable(k: Classifier, raw: string) {
    match k.chatgpt(raw)
    case None => false
    case Some(r) => raw == Canonical(r) || (r.Stable? && raw == Canonical(r) + "/")
  }

  predicate HasHost(k: Classifier, l: Allowlist, host: string) {
    exists i :: 0 <= i < |l| && k.chatgpt(l[i]).Some? && k.chatgpt(l[i]).value.host == host
  }

  predicate HasRedirect(k: Classifier, l: Allowlist, r: Redirect) {
    exists i :: 0 <= i < |l| && k.chatgpt(l[i]) == Some(r)
  }

  /** Two callback ids on the same host. */
  predicate Rivals(a: Option<Redirect>, r: Redirect) {
    a.Some? && a.value.Callback? && r.Callback? && a.value.host == r.host && a.value.id != r.id
  }

  predicate HasOtherId(k: Classifier, l: Allowlist, r: Redirect) {
    exists i :: 0 <= i < |l| && Rivals(k.chatgpt(l[i]), r)
  }

  /** A host already on the list; for a callback, no other id there and this id or the stable URI. */
  predicate Admits(k: Classifier, l: Allowlist, r: Redirect) {
    && HasHost(k, l, r.host)
    && (r.Callback? ==>
         && !HasOtherId(k, l, r)
         && (HasRedirect(k, l, r) || HasRedirect(k, l, Stable(r.host))))
  }

  /** Whether the requested URI is to be appended, as sent. */
  predicate MayRegister(k: Classifier, requested: string, l: Allowlist) {
    Acceptable(k, requested) && requested !in l && Admits(k, l, k.chatgpt(requested).value)
  }

  predicate IsNewCallbackId(k: Classifier, requested: string, l: Allowlist) {
    match k.chatgpt(requested)
    case Some(Callback(host, id)) => !HasRedirect(k, l, Callback(host, id))
    case _ => false
  }

  // ---- Loopback redirects (section 7.3 of RFC 8252) ----------------------------

  function Unbracket(host: string): string {
    var h := if host != "" && host[0] == '[' then host[1..] else host;
    if h != "" && h[|h| - 1] == ']' then h[..|h| - 1] else h
  }

  predicate IsDigit(c: char) { '0' <= c <= '9' }

  predicate IsOctet(part: string) {
    && 1 <= |part| <= 3 && (forall i :: 0 <= i < |part| ==> IsDigit(part[i]))
    && (part[0] == '0' ==> |part| == 1)
    && (|part| == 3 ==>
          (part[0] as int - '0' as int) * 100 + (part[1] as int - '0' as int) * 10 + part[2] as int - '0' as int <= 255)
  }

  predicate IsLoopbackHostname(hostname: string) {
    var host := Unbracket(AsciiLower(hostname));
    var parts := Split(host, '.');
    || host == "localhost" || host == "::1"
    || (|parts| == 4 && parts[0] == "127" && forall i :: 0 <= i < 4 ==> IsOctet(parts[i]))
  }

  function NormalizedPath(path: string): Option<string> {
    if !StartsWith(path, "/") || '\\' in path || ".." in Split(path, '/') then None
    else if |path| > 1 && path[|path| - 1] == '/' then Some(path[..|path| - 1])
    else Some(path)
  }

  /** The path a loopback redirect is matched by; the port plays no part. */
  function ParseLoopback(parse: UrlParser, raw: string): Option<string> {
    match parse(raw)
    case None => None
    case Some(url) =>
      if url.protocol != "http:" || url.username != "" || url.password != "" || url.search != "" || url.hash != ""
        || !IsLoopbackHostname(url.hostname) || url.href != raw then None
      else NormalizedPath(url.pathname)
  }

  function ClassifierOf(parse: UrlParser): Classifier {
    Classifier(raw => ParseChatgpt(parse, raw), raw => ParseLoopback(parse, raw))
  }

  /** No string is both, since one kind is https and the other http. */
  ghost predicate Exclusive(k: Classifier) {
    forall raw :: k.chatgpt(raw).None? || k.loopback(raw).None?
  }

  lemma ProtocolsDiffer(parse: UrlParser)
    ensures Exclusive(ClassifierOf(parse))
  {
    forall raw ensures ParseChatgpt(parse, raw).None? || ParseLoopback(parse, raw).None? {}
  }

  predicate HasPath(k: Classifier, l: Allowlist, path: string) {
    exists i :: 0 <= i < |l| && k.loopback(l[i]) == Some(path)
  }

  predicate MayRegisterLoopback(k: Classifier, requested: string, l: Allowlist) {
    && k.loopback(requested).Some?
    && requested !in l
    && HasPath(k, l, k.loopback(requested).value)
  }

  // ---- Which hosts and callbacks are taken --------------------------------------

  function DigitChar(n: nat): char
    requires n < 10
  {
    '0' + n as char
  }

  function Decimal(n: nat): string
    requires n <= 255
  {
    if n < 10 then [DigitChar(n)]
    else if n < 100 then [DigitChar(n / 10), DigitChar(n % 10)]
    else [DigitChar(n / 100), DigitChar(n / 10 % 10), DigitChar(n % 10)]
  }

  lemma DecimalIsOctet(n: nat)
    requires n <= 255
    ensures IsOctet(Decimal(n)) && '.' !in Decimal(n) && Decimal(n)[0] != '[' && Decimal(n)[|Decimal(n)| - 1] != ']'
  {
  }

  lemma OctetIsDecimal(part: string) returns (n: nat)
    requires IsOctet(part)
    ensures n <= 255 && part == Decimal(n)
  {
    var a := part[0] as int - '0' as int;
    if |part| == 1 {
      n := a;
    } else {
      var b := part[1] as int - '0' as int;
      if |part| == 2 {
        n := 10 * a + b;
        assert n / 10 == a && n % 10 == b;
      } else {
        var c := part[2] as int - '0' as int;
        n := 100 * a + 10 * b + c;
        assert n / 100 == a && n / 10 == 10 * a + b && n % 10 == c;
        assert (10 * a + b) % 10 == b;
      }
    }
  }

  function Dotted(a: string, b: string, c: string, d: string): string { a + "." + b + "." + c + "." + d }

  /** localhost, the IPv6 loopback address, or 127 and three more decimals of 0 to 255. */
  ghost predicate LoopbackName(name: string) {
    || name == "localhost" || name == "::1"
    || exists x: nat, y: nat, z: nat :: Loopback127(name, x, y, z)
  }

  predicate Loopback127(name: string, x: nat, y: nat, z: nat) {
    x <= 255 && y <= 255 && z <= 255 && name == "127." + Decimal(x) + "." + Decimal(y) + "." + Decimal(z)
  }

  /** A name in lower case, with or without brackets at either end. */
  predicate Bracketed(hostname: string, name: string) {
    var host := AsciiLower(hostname);
    host == name || host == "[" + name || host == name + "]" || host == "[" + name + "]"
  }

  lemma DottedParts(a: string, b: string, c: string, d: string)
    requires '.' !in a && '.' !in b && '.' !in c && '.' !in d
    ensures Split(Dotted(a, b, c, d), '.') == [a, b, c, d]
  {
    SplitOnePart(a, '.');
    SplitOnePart(b, '.');
    SplitOnePart(c, '.');
    SplitOnePart(d, '.');
    SplitAt(a, '.', b);
    SplitAt(a + "." + b, '.', c);
    SplitAt(a + "." + b + "." + c, '.', d);
    assert [a] + [b] + [c] + [d] == [a, b, c, d];
  }

  lemma PartsDotted(host: string, parts: seq<string>)
    requires Split(host, '.') == parts && |parts| == 4
    ensures host == Dotted(parts[0], parts[1], parts[2], parts[3])
  {
    JoinOfSplit(host, '.');
    var rest := parts[1..];
    assert Join(parts[3..], ".") == parts[3];
    assert Join(parts[2..], ".") == parts[2] + "." + Join(parts[3..], ".") by { assert parts[2..][1..] == parts[3..]; }
    assert Join(rest, ".") == parts[1] + "." + Join(parts[2..], ".") by { assert rest[1..] == parts[2..]; }
    assert host == parts[0] + "." + Join(rest, ".");
    Associate(parts[0], parts[1], parts[2], parts[3]);
  }

  lemma Associate(a: string, b: string, c: string, d: string)
    ensures a + "." + (b + "." + (c + "." + d)) == Dotted(a, b, c, d)
  {
  }

  lemma With127(b: string, c: string, d: string)
    ensures "127." + b + "." + c + "." + d == Dotted("127", b, c, d)
  {
    assert "127." == "127" + ".";
  }

  lemma DottedEnds(b: string, c: string, d: string)
    requires d != "" && d[|d| - 1] != ']'
    ensures var name := Dotted("127", b, c, d); name != "" && name[0] != '[' && name[|name| - 1] != ']'
  {
    var name := Dotted("127", b, c, d);
    assert name[0] == '1' && name[|name| - 1] == d[|d| - 1];
  }

  lemma LoopbackIsDotted(name: string, x: nat, y: nat, z: nat)
    requires Loopback127(name, x, y, z)
    ensures Split(name, '.') == ["127", Decimal(x), Decimal(y), Decimal(z)]
    ensures name != "" && name[0] != '[' && name[|name| - 1] != ']'
  {
    DecimalIsOctet(x);
    DecimalIsOctet(y);
    DecimalIsOctet(z);
    With127(Decimal(x), Decimal(y), Decimal(z));
    DottedParts("127", Decimal(x), Decimal(y), Decimal(z));
    DottedEnds(Decimal(x), Decimal(y), Decimal(z));
  }

  lemma UnbracketBracketed(hostname: string, name: string)
    requires Bracketed(hostname, name) && name != "" && name[0] != '[' && name[|name| - 1] != ']'
    ensures Unbracket(AsciiLower(hostname)) == name
  {
    var host := AsciiLower(hostname);
    if host == "[" + name { assert host[1..] == name; }
    if host == name + "]" { assert host[..|host| - 1] == name; }
    if host == "[" + name + "]" { assert host[1..] == name + "]" && (name + "]")[..|name|] == name; }
  }

  lemma BracketedUnbracket(hostname: string)
    ensures Bracketed(hostname, Unbracket(AsciiLower(hostname)))
  {
    var host := AsciiLower(hostname);
    var h := if host != "" && host[0] == '[' then host[1..] else host;
    assert host == h || host == "[" + h;
    if h != "" && h[|h| - 1] == ']' { assert h == h[..|h| - 1] + "]"; }
  }

  /** The check, on a name in lower case and without brackets. */
  predicate TakesName(name: string) {
    var parts := Split(name, '.');
    || name == "localhost" || name == "::1"
    || (|parts| == 4 && parts[0] == "127" && forall i :: 0 <= i < 4 ==> IsOctet(parts[i]))
  }

  lemma LoopbackIsTaken(name: string)
    requires LoopbackName(name)
    ensures TakesName(name) && name != "" && name[0] != '[' && name[|name| - 1] != ']'
  {
    if x: nat, y: nat, z: nat :| Loopback127(name, x, y, z) { DottedIsTaken(name, x, y, z); }
  }

  lemma DottedIsTaken(name: string, x: nat, y: nat, z: nat)
    requires Loopback127(name, x, y, z)
    ensures TakesName(name) && name != "" && name[0] != '[' && name[|name| - 1] != ']'
  {
    LoopbackIsDotted(name, x, y, z);
    DecimalIsOctet(x);
    DecimalIsOctet(y);
    DecimalIsOctet(z);
    assert IsOctet("127");
  }

  /** Exactly the loopback names are taken, whatever their case and brackets. */
  lemma HostnameExactly(hostname: string)
    ensures IsLoopbackHostname(hostname) <==> exists name :: LoopbackName(name) && Bracketed(hostname, name)
  {
    var host := Unbracket(AsciiLower(hostname));
    assert IsLoopbackHostname(hostname) <==> TakesName(host);
    if TakesName(host) {
      BracketedUnbracket(hostname);
      IsLoopbackName(host);
    }
    if name :| LoopbackName(name) && Bracketed(hostname, name) {
      LoopbackIsTaken(name);
      UnbracketBracketed(hostname, name);
    }
  }

  lemma IsLoopbackName(name: string)
    requires TakesName(name)
    ensures LoopbackName(name)
  {
    if name != "localhost" && name != "::1" {
      var parts := Split(name, '.');
      PartsDotted(name, parts);
      var x := OctetIsDecimal(parts[1]);
      var y := OctetIsDecimal(parts[2]);
      var z := OctetIsDecimal(parts[3]);
      With127(Decimal(x), Decimal(y), Decimal(z));
      assert Loopback127(name, x, y, z);
    }
  }

  // ---- Registration ------------------------------------------------------------

  function StableOf(k: Classifier, raw: string): Option<string> {
    match k.chatgpt(raw)
    case None => None
    case Some(r) => Some(Canonical(Stable(r.host)))
  }

  /** The stable callbacks the first `n` registered URIs ask for and the list lacks, each once. */
  function Missing(k: Classifier, uris: Allowlist, n: nat): Allowlist
    requires n <= |uris|
  {
    if n == 0 then []
    else
      var before, stable := Missing(k, uris, n - 1), StableOf(k, uris[n - 1]);
      if stable.None? || stable.value in uris || stable.value in before then before
      else before + [stable.value]
  }

  method ExpandRegistration(k: Classifier, uris: Allowlist) returns (expanded: Option<Allowlist>)
    ensures var missing := Missing(k, uris, |uris|);
      expanded == if missing == [] then None else Some(uris + missing)
  {
    var additions: Allowlist := [];
    for n := 0 to |uris|
      invariant additions == Missing(k, uris, n)
    {
      var parsed := k.chatgpt(uris[n]);
      if parsed.Some? {
        var stable := Canonical(Stable(parsed.value.host));
        if stable !in uris && stable !in additions {
          additions := additions + [stable];
        }
      }
    }
    expanded := if additions == [] then None else Some(uris + additions);
  }

  predicate Asks(k: Classifier, uris: Allowlist, n: nat, stable: string)
    requires n <= |uris|
  {
    exists j :: 0 <= j < n && StableOf(k, uris[j]) == Some(stable)
  }

  lemma {:induction false} MissingExactly(k: Classifier, uris: Allowlist, n: nat)
    requires n <= |uris|
    ensures forall st :: st in Missing(k, uris, n) <==> st !in uris && Asks(k, uris, n, st)
    ensures forall i, j :: 0 <= i < j < |Missing(k, uris, n)| ==> Missing(k, uris, n)[i] != Missing(k, uris, n)[j]
  {
    if n > 0 {
      MissingExactly(k, uris, n - 1);
      forall st ensures st in Missing(k, uris, n) <==> st !in uris && Asks(k, uris, n, st) {
        assert Asks(k, uris, n - 1, st) ==> Asks(k, uris, n, st);
        assert StableOf(k, uris[n - 1]) == Some(st) ==> Asks(k, uris, n, st);
        assert Asks(k, uris, n, st) ==> Asks(k, uris, n - 1, st) || StableOf(k, uris[n - 1]) == Some(st);
      }
    }
  }

  /** A canonical stable callback is read as itself. */
  ghost predicate ReadsCanonical(k: Classifier) {
    forall host :: k.chatgpt(Canonical(Stable(host))).Some? ==> k.chatgpt(Canonical(Stable(host))).value.host == host
  }

  /**
   * After registration every ChatGPT host has its stable callback, so expanding again
   * adds nothing and the first stable authorize request needs no write.
   */
  lemma ExpandedIsComplete(k: Classifier, uris: Allowlist, full: Allowlist)
    requires ReadsCanonical(k) && full == uris + Missing(k, uris, |uris|)
    ensures forall i :: 0 <= i < |full| && StableOf(k, full[i]).Some? ==> StableOf(k, full[i]).value in full
    ensures Missing(k, full, |full|) == []
  {
    MissingExactly(k, uris, |uris|);
    forall i | 0 <= i < |full| && StableOf(k, full[i]).Some? ensures StableOf(k, full[i]).value in full {
      if i < |uris| {
        assert Asks(k, uris, |uris|, StableOf(k, full[i]).value);
      } else {
        assert full[i] in Missing(k, uris, |uris|);
        var j :| 0 <= j < |uris| && StableOf(k, uris[j]) == Some(full[i]);
        StableReadsAsItself(k, uris[j], full[i]);
      }
    }
    NothingMissing(k, full, |full|);
  }

  lemma StableReadsAsItself(k: Classifier, raw: string, stable: string)
    requires ReadsCanonical(k) && StableOf(k, raw) == Some(stable)
    ensures StableOf(k, stable).Some? ==> StableOf(k, stable) == Some(stable)
  {
    var host := k.chatgpt(raw).value.host;
    assert stable == Canonical(Stable(host));
  }

  lemma {:induction false} NothingMissing(k: Classifier, full: Allowlist, n: nat)
    requires n <= |full|
    requires forall i :: 0 <= i < |full| && StableOf(k, full[i]).Some? ==> StableOf(k, full[i]).value in full
    ensures Missing(k, full, n) == []
  {
    if n > 0 { NothingMissing(k, full, n - 1); }
  }
}

/**
 * Any number of authorize requests on any clients, interleaving at every `await`.
 * Each request reads, checks, reads again, checks again and overwrites, so updates
 * can be lost; what survives is what every overwrite keeps of an earlier snapshot.
 */
module RedirectRuns {
  import opened Bytes
  import opened RedirectRules

  /** `None` in `redirects` is a column the source cannot read as a list of strings. */
  datatype Client = Client(redirects: Option<Allowlist>, skipConsent: bool)

  datatype Request =
    | Begin(client: string, uri: string)
    | AskFirst(client: string, uri: string)
    | Reread(client: string, uri: string)
    | AskSecond(client: string, uri: string, latest: Allowlist)
    | Write(client: string, uri: string, next: Allowlist)
    | LoopBegin(client: string, uri: string)
    | LoopReread(client: string, uri: string)
    | Finished

  /** What a consent lookup answers; a lookup that throws counts as a yes. */
  datatype Answer = Yes | No | Throws

  /** `original` is every registration as it was made. */
  datatype State = State(clients: map<string, Client>, requests: seq<Request>, original: map<string, Allowlist>)

  datatype Action =
    | Advance(i: nat, answer: Answer)
    | Authorize(client: string, uri: string)
    | AuthorizeLoopback(client: string, uri: string)
    | Register(client: string, uris: Allowlist, skipConsent: bool)
    | Remove(client: string)
    | SetSkipConsent(client: string, skip: bool)

  function ReadList(s: State, client: string): Option<Allowlist> {
    if client in s.clients then s.clients[client].redirects else None
  }

  /** `mayStoreRedirect` up to its consent lookup: refuse, go on, or ask. */
  datatype Check = Refuse | Pass | Ask

  function CheckStore(k: Classifier, c: Client, uri: string, l: Allowlist): Check {
    if !MayRegister(k, uri, l) then Refuse
    else if !IsNewCallbackId(k, uri, l) then Pass
    else if c.skipConsent then Refuse
    else Ask
  }

  /** One request runs from one `await` to the next. */
  function AdvanceOne(k: Classifier, s: State, i: nat, answer: Answer): State
    requires i < |s.requests|
  {
    var q := s.requests[i];
    var end := s.(requests := s.requests[i := Finished]);
    match q
    case Begin(client, uri) =>
      (match ReadList(s, client)
       case None => end
       case Some(l) =>
         match CheckStore(k, s.clients[client], uri, l)
         case Refuse => end
         case Pass => s.(requests := s.requests[i := Reread(client, uri)])
         case Ask => s.(requests := s.requests[i := AskFirst(client, uri)]))
    case AskFirst(client, uri) =>
      if answer != No then end
      else s.(requests := s.requests[i := Reread(client, uri)])
    case Reread(client, uri) =>
      (match ReadList(s, client)
       case None => end
       case Some(l) =>
         match CheckStore(k, s.clients[client], uri, l)
         case Refuse => end
         case Pass => s.(requests := s.requests[i := Write(client, uri, l + [uri])])
         case Ask => s.(requests := s.requests[i := AskSecond(client, uri, l)]))
    case AskSecond(client, uri, latest) =>
      if answer != No then end
      else s.(requests := s.requests[i := Write(client, uri, latest + [uri])])
    case Write(client, uri, next) =>
      if client !in s.clients then end
      else end.(clients := s.clients[client := s.clients[client].(redirects := Some(next))])
    case LoopBegin(client, uri) =>
      (match ReadList(s, client)
       case None => end
       case Some(l) =>
         if MayRegisterLoopback(k, uri, l) then s.(requests := s.requests[i := LoopReread(client, uri)]) else end)
    case LoopReread(client, uri) =>
      (match ReadList(s, client)
       case None => end
       case Some(l) =>
         if MayRegisterLoopback(k, uri, l) then s.(requests := s.requests[i := Write(client, uri, l + [uri])])
         else end)
    case Finished => s
  }

  function Exec(k: Classifier, s: State, a: Action): State {
    match a
    case Advance(i, answer) => if i < |s.requests| then AdvanceOne(k, s, i, answer) else s
    case Authorize(client, uri) =>
      if Acceptable(k, uri) then s.(requests := s.requests + [Begin(client, uri)]) else s
    case AuthorizeLoopback(client, uri) =>
      if k.loopback(uri).Some? then s.(requests := s.requests + [LoopBegin(client, uri)]) else s
    case Register(client, uris, skip) =>
      // Client ids are fresh: an id once registered is never registered again.
      if client in s.original then s
      else s.(clients := s.clients[client := Client(Some(uris), skip)], original := s.original[client := uris])
    case Remove(client) => s.(clients := s.clients - {client})
    case SetSkipConsent(client, skip) =>
      if client in s.clients then s.(clients := s.clients[client := s.clients[client].(skipConsent := skip)]) else s
  }

  function Run(k: Classifier, s: State, actions: seq<Action>): State {
    if actions == [] then s
    else Exec(k, Run(k, s, actions[..|actions| - 1]), actions[|actions| - 1])
  }

  // ---- What a list derived from a registration keeps ----------------------------

  function Hosts(k: Classifier, l: Allowlist): set<string> {
    if l == [] then {}
    else
      var r := k.chatgpt(l[|l| - 1]);
      Hosts(k, l[..|l| - 1]) + if r.Some? then {r.value.host} else {}
  }

  function Ids(k: Classifier, l: Allowlist, host: string): set<string> {
    if l == [] then {}
    else
      var r := k.chatgpt(l[|l| - 1]);
      Ids(k, l[..|l| - 1], host)
      + if r.Some? && r.value.Callback? && r.value.host == host then {r.value.id} else {}
  }

  function Paths(k: Classifier, l: Allowlist): set<string> {
    if l == [] then {}
    else
      var p := k.loopback(l[|l| - 1]);
      Paths(k, l[..|l| - 1]) + if p.Some? then {p.value} else {}
  }

  lemma {:induction false} SetsAreMembership(k: Classifier, l: Allowlist)
    ensures forall h :: h in Hosts(k, l) <==> HasHost(k, l, h)
    ensures forall h, id :: id in Ids(k, l, h) <==> HasRedirect(k, l, Callback(h, id))
    ensures forall p :: p in Paths(k, l) <==> HasPath(k, l, p)
  {
    if l != [] {
      var front := l[..|l| - 1];
      SetsAreMembership(k, front);
      assert l == front + [l[|l| - 1]];
      forall h ensures h in Hosts(k, l) <==> HasHost(k, l, h) {
        assert HasHost(k, front, h) ==> HasHost(k, l, h);
      }
      forall h, id ensures id in Ids(k, l, h) <==> HasRedirect(k, l, Callback(h, id)) {
        assert HasRedirect(k, front, Callback(h, id)) ==> HasRedirect(k, l, Callback(h, id));
      }
      forall p ensures p in Paths(k, l) <==> HasPath(k, l, p) {
        assert HasPath(k, front, p) ==> HasPath(k, l, p);
      }
    }
  }

  /**
   * The registration is a prefix, no host and no loopback path is new, and a host's
   * callback ids are the registered ones, or a single one where none was registered.
   */
  ghost predicate Derived(k: Classifier, original: Allowlist, l: Allowlist) {
    && original <= l
    && Hosts(k, l) == Hosts(k, original)
    && Paths(k, l) == Paths(k, original)
    && (forall u :: u in l ==> u in original || Acceptable(k, u) || k.loopback(u).Some?)
    && forall h :: Ids(k, l, h) == Ids(k, original, h)
                   || (Ids(k, original, h) == {} && |Ids(k, l, h)| == 1)
  }

  lemma OnlyThisId(k: Classifier, l: Allowlist, r: Redirect)
    requires r.Callback? && !HasOtherId(k, l, r)
    ensures Ids(k, l, r.host) == {} || Ids(k, l, r.host) == {r.id}
  {
    SetsAreMembership(k, l);
    forall id | id in Ids(k, l, r.host) ensures id == r.id {
      assert HasRedirect(k, l, Callback(r.host, id));
      var i :| 0 <= i < |l| && k.chatgpt(l[i]) == Some(Callback(r.host, id));
      assert !Rivals(k.chatgpt(l[i]), r);
    }
    if Ids(k, l, r.host) != {} {
      var id :| id in Ids(k, l, r.host);
      assert id == r.id;
      assert Ids(k, l, r.host) == {r.id};
    }
  }

  lemma AppendKeepsIds(k: Classifier, original: Allowlist, l: Allowlist, uri: string, r: Redirect, h: string)
    requires k.chatgpt(uri) == Some(r) && Admits(k, l, r)
    requires Ids(k, l, h) == Ids(k, original, h) || (Ids(k, original, h) == {} && |Ids(k, l, h)| == 1)
    ensures var ids := Ids(k, l + [uri], h);
      ids == Ids(k, original, h) || (Ids(k, original, h) == {} && |ids| == 1)
  {
    assert (l + [uri])[..|l|] == l;
    if r.Callback? && h == r.host {
      OnlyThisId(k, l, r);
      assert Ids(k, l + [uri], h) == {r.id};
    }
  }

  lemma AppendKeepsDerived(k: Classifier, original: Allowlist, l: Allowlist, uri: string, r: Redirect)
    requires Exclusive(k) && Derived(k, original, l)
    requires k.chatgpt(uri) == Some(r) && Admits(k, l, r) && Acceptable(k, uri)
    ensures Derived(k, original, l + [uri])
  {
    assert (l + [uri])[..|l|] == l;
    SetsAreMembership(k, l);
    assert Hosts(k, l + [uri]) == Hosts(k, original);
    forall h ensures
      var ids := Ids(k, l + [uri], h);
      ids == Ids(k, original, h) || (Ids(k, original, h) == {} && |ids| == 1)
    {
      AppendKeepsIds(k, original, l, uri, r, h);
    }
  }

  lemma AppendLoopbackKeepsDerived(k: Classifier, original: Allowlist, l: Allowlist, uri: string)
    requires Exclusive(k) && Derived(k, original, l)
    requires MayRegisterLoopback(k, uri, l)
    ensures Derived(k, original, l + [uri])
  {
    assert (l + [uri])[..|l|] == l;
    SetsAreMembership(k, l);
  }

  ghost predicate Sound(k: Classifier, s: State, client: string, l: Allowlist) {
    client in s.original && Derived(k, s.original[client], l)
  }

  ghost predicate RequestInv(k: Classifier, s: State, q: Request) {
    match q
    case AskSecond(client, uri, latest) => Sound(k, s, client, latest) && MayRegister(k, uri, latest)
    case Write(client, _, next) => Sound(k, s, client, next)
    case _ => true
  }

  ghost predicate Inv(k: Classifier, s: State) {
    && (forall c :: c in s.clients ==> c in s.original)
    && (forall c :: c in s.clients && s.clients[c].redirects.Some? ==> Sound(k, s, c, s.clients[c].redirects.value))
    && (forall i :: 0 <= i < |s.requests| ==> RequestInv(k, s, s.requests[i]))
  }

  // ---- Every step keeps it -----------------------------------------------------

  lemma AppendIsSound(k: Classifier, s: State, client: string, l: Allowlist, uri: string)
    requires Exclusive(k) && Sound(k, s, client, l) && MayRegister(k, uri, l)
    ensures Sound(k, s, client, l + [uri])
  {
    AppendKeepsDerived(k, s.original[client], l, uri, k.chatgpt(uri).value);
  }

  lemma AppendLoopbackIsSound(k: Classifier, s: State, client: string, l: Allowlist, uri: string)
    requires Exclusive(k) && Sound(k, s, client, l) && MayRegisterLoopback(k, uri, l)
    ensures Sound(k, s, client, l + [uri])
  {
    AppendLoopbackKeepsDerived(k, s.original[client], l, uri);
  }

  /** What a step may do: move one request, change one client's list to a sound one. */
  ghost predicate Moves(k: Classifier, s: State, s': State, i: nat) {
    && s'.original == s.original
    && i < |s.requests| == |s'.requests| && s'.requests == s.requests[i := s'.requests[i]]
    && RequestInv(k, s', s'.requests[i])
    && (forall c :: c in s'.clients <==> c in s.clients)
    && (forall c :: c in s'.clients && s'.clients[c] != s.clients[c] && s'.clients[c].redirects.Some? ==>
          Sound(k, s', c, s'.clients[c].redirects.value))
  }

  lemma MovesKeeps(k: Classifier, s: State, s': State, i: nat)
    requires Inv(k, s) && Moves(k, s, s', i)
    ensures Inv(k, s')
  {
    forall c | c in s'.clients && s'.clients[c].redirects.Some?
      ensures Sound(k, s', c, s'.clients[c].redirects.value)
    {
      if s'.clients[c] == s.clients[c] { assert Sound(k, s, c, s.clients[c].redirects.value); }
    }
    forall j | 0 <= j < |s'.requests| ensures RequestInv(k, s', s'.requests[j]) {
      if j != i { SameOriginals(k, s, s', s.requests[j]); }
    }
  }

  lemma RereadMoves(k: Classifier, s: State, i: nat, answer: Answer)
    requires Exclusive(k) && Inv(k, s) && i < |s.requests| && s.requests[i].Reread?
    ensures Moves(k, s, AdvanceOne(k, s, i, answer), i)
  {
    var Reread(client, uri) := s.requests[i];
    var l := ReadList(s, client);
    if l.Some? && CheckStore(k, s.clients[client], uri, l.value) == Pass {
      AppendIsSound(k, s, client, l.value, uri);
    }
  }

  lemma AskSecondMoves(k: Classifier, s: State, i: nat, answer: Answer)
    requires Exclusive(k) && Inv(k, s) && i < |s.requests| && s.requests[i].AskSecond?
    ensures Moves(k, s, AdvanceOne(k, s, i, answer), i)
  {
    var AskSecond(client, uri, latest) := s.requests[i];
    assert RequestInv(k, s, s.requests[i]);
    if answer == No { AppendIsSound(k, s, client, latest, uri); }
  }

  lemma LoopRereadMoves(k: Classifier, s: State, i: nat, answer: Answer)
    requires Exclusive(k) && Inv(k, s) && i < |s.requests| && s.requests[i].LoopReread?
    ensures Moves(k, s, AdvanceOne(k, s, i, answer), i)
  {
    var LoopReread(client, uri) := s.requests[i];
    var l := ReadList(s, client);
    if l.Some? && MayRegisterLoopback(k, uri, l.value) { AppendLoopbackIsSound(k, s, client, l.value, uri); }
  }

  lemma AdvanceMoves(k: Classifier, s: State, i: nat, answer: Answer)
    requires Exclusive(k) && Inv(k, s) && i < |s.requests|
    ensures Moves(k, s, AdvanceOne(k, s, i, answer), i)
  {
    match s.requests[i]
    case Reread(_, _) => RereadMoves(k, s, i, answer);
    case AskSecond(_, _, _) => AskSecondMoves(k, s, i, answer);
    case LoopReread(_, _) => LoopRereadMoves(k, s, i, answer);
    case _ => assert RequestInv(k, s, s.requests[i]);
  }

  lemma RegisterKeeps(k: Classifier, s: State, client: string, uris: Allowlist, skip: bool)
    requires Inv(k, s) && client !in s.original
    ensures Inv(k, Exec(k, s, Register(client, uris, skip)))
  {
    var s' := Exec(k, s, Register(client, uris, skip));
    assert Sound(k, s', client, uris);
    forall c | c in s.clients && s.clients[c].redirects.Some?
      ensures Sound(k, s', c, s.clients[c].redirects.value)
    {
      assert Sound(k, s, c, s.clients[c].redirects.value);
    }
    forall j | 0 <= j < |s.requests| ensures RequestInv(k, s', s.requests[j]) {
      SameOriginals(k, s, s', s.requests[j]);
    }
  }

  lemma OthersKeep(k: Classifier, s: State, a: Action)
    requires Inv(k, s) && !a.Advance? && !a.Register?
    ensures Inv(k, Exec(k, s, a))
  {
    var s' := Exec(k, s, a);
    assert s'.original == s.original;
    forall c | c in s'.clients && s'.clients[c].redirects.Some?
      ensures Sound(k, s', c, s'.clients[c].redirects.value)
    {
      assert s'.clients[c].redirects == s.clients[c].redirects;
      assert Sound(k, s, c, s.clients[c].redirects.value);
    }
    forall j | 0 <= j < |s'.requests| ensures RequestInv(k, s', s'.requests[j]) {
      if j < |s.requests| { SameOriginals(k, s, s', s.requests[j]); }
    }
  }

  lemma SameOriginals(k: Classifier, s: State, s': State, q: Request)
    requires RequestInv(k, s, q)
    requires forall c :: c in s.original ==> c in s'.original && s'.original[c] == s.original[c]
    ensures RequestInv(k, s', q)
  {
  }

  lemma ExecKeeps(k: Classifier, s: State, a: Action)
    requires Exclusive(k) && Inv(k, s)
    ensures Inv(k, Exec(k, s, a))
  {
    match a
    case Advance(i, answer) =>
      if i < |s.requests| {
        AdvanceMoves(k, s, i, answer);
        MovesKeeps(k, s, AdvanceOne(k, s, i, answer), i);
      }
    case Register(client, uris, skip) =>
      if client !in s.original { RegisterKeeps(k, s, client, uris, skip); }
    case _ => OthersKeep(k, s, a);
  }

  lemma {:induction false} RunKeeps(k: Classifier, s: State, actions: seq<Action>)
    requires Exclusive(k) && Inv(k, s)
    ensures Inv(k, Run(k, s, actions))
  {
    if actions != [] {
      RunKeeps(k, s, actions[..|actions| - 1]);
      ExecKeeps(k, Run(k, s, actions[..|actions| - 1]), actions[|actions| - 1]);
    }
  }

  const START := State(map[], [], map[])

  // ---- Who stored an id --------------------------------------------------------

  predicate Advances(a: Action, i: nat) { a.Advance? && a.i == i }

  /** After `actions`, request `i` is at `q`. */
  predicate IsAt(k: Classifier, actions: seq<Action>, i: nat, q: Request) {
    var s := Run(k, START, actions);
    i < |s.requests| && s.requests[i] == q
  }

  predicate Stored(k: Classifier, actions: seq<Action>, client: string, l: Allowlist) {
    ReadList(Run(k, START, actions), client) == Some(l)
  }

  predicate SkipsConsent(k: Classifier, actions: seq<Action>, client: string) {
    var s := Run(k, START, actions);
    client in s.clients && s.clients[client].skipConsent
  }

  /** Step `n` is the read of request `i` that found `latest`, and a client whose consent is not skipped. */
  predicate ReadsAt(
    k: Classifier, actions: seq<Action>, i: nat, client: string, uri: string, latest: Allowlist, n: int)
  {
    && 0 <= n < |actions| && Advances(actions[n], i)
    && IsAt(k, actions[..n], i, Reread(client, uri)) && Stored(k, actions[..n], client, latest)
    && !SkipsConsent(k, actions[..n], client)
  }

  /** Request `i` stands still from step `from` on. */
  predicate Idle(actions: seq<Action>, i: nat, from: int) {
    forall j :: from <= j < |actions| && 0 <= j ==> !Advances(actions[j], i)
  }

  /**
   * Request `i` read `latest` at step `read`, its next step `no` was the lookup that
   * answered no, and since then it has not moved.
   */
  predicate OwnNo(
    k: Classifier, actions: seq<Action>, i: nat, client: string, uri: string, latest: Allowlist, read: int, no: int)
  {
    && 0 <= read < no < |actions|
    && ReadsAt(k, actions[..no], i, client, uri, latest, read) && Idle(actions[..no], i, read + 1)
    && actions[no] == Advance(i, No) && IsAt(k, actions[..no], i, AskSecond(client, uri, latest))
    && Idle(actions, i, no + 1)
  }

  /** Other steps leave request `i` alone. */
  lemma RequestStays(k: Classifier, s: State, a: Action, i: nat)
    requires i < |Exec(k, s, a).requests| && !Advances(a, i)
    ensures var q := Exec(k, s, a).requests[i];
      q.Begin? || q.LoopBegin? || (i < |s.requests| && q == s.requests[i])
  {
  }

  /** Its own step brings it to its second lookup from a read, and to its write from that lookup or a read. */
  lemma RequestMoves(k: Classifier, s: State, i: nat, answer: Answer)
    requires Exclusive(k) && i < |s.requests|
    ensures var q := AdvanceOne(k, s, i, answer).requests[i];
      && (q.AskSecond? ==> s.requests[i] == Reread(q.client, q.uri) && ReadList(s, q.client) == Some(q.latest))
      && (q.AskSecond? ==> q.client in s.clients && !s.clients[q.client].skipConsent)
      && (q.Write? ==> WriteStep(k, s, Advance(i, answer), i, q))
  {
  }

  predicate WriteStep(k: Classifier, s: State, a: Action, i: nat, q: Request)
    requires q.Write? && i < |s.requests|
  {
    || (a == Advance(i, No) && s.requests[i].AskSecond?
        && s.requests[i].client == q.client && s.requests[i].uri == q.uri && q.next == s.requests[i].latest + [q.uri])
    || (ReadList(s, q.client).Some? && q.next == ReadList(s, q.client).value + [q.uri]
        && !IsNewCallbackId(k, q.uri, ReadList(s, q.client).value))
  }

  /** A request at its second lookup or its write either just moved there, or was there a step ago. */
  lemma CameFrom(k: Classifier, actions: seq<Action>, i: nat, q: Request)
    requires Exclusive(k) && IsAt(k, actions, i, q) && (q.AskSecond? || q.Write?)
    ensures actions != []
    ensures var front, a := actions[..|actions| - 1], actions[|actions| - 1];
      var s := Run(k, START, front);
      && actions == front + [a] && i < |s.requests|
      && (!Advances(a, i) ==> IsAt(k, front, i, q))
      && (Advances(a, i) && q.AskSecond? ==>
            && IsAt(k, front, i, Reread(q.client, q.uri)) && Stored(k, front, q.client, q.latest)
            && !SkipsConsent(k, front, q.client))
      && (Advances(a, i) && q.Write? ==> WriteStep(k, s, a, i, q))
  {
    var front, a := actions[..|actions| - 1], actions[|actions| - 1];
    var s := Run(k, START, front);
    if Advances(a, i) { RequestMoves(k, s, i, a.answer); } else { RequestStays(k, s, a, i); }
  }

  lemma {:induction false} AskSecondHasRead(
    k: Classifier, actions: seq<Action>, i: nat, client: string, uri: string, latest: Allowlist)
    requires Exclusive(k) && IsAt(k, actions, i, AskSecond(client, uri, latest))
    ensures exists n :: ReadsAt(k, actions, i, client, uri, latest, n) && Idle(actions, i, n + 1)
  {
    CameFrom(k, actions, i, AskSecond(client, uri, latest));
    var last := |actions| - 1;
    if Advances(actions[last], i) {
      assert ReadsAt(k, actions, i, client, uri, latest, last) && Idle(actions, i, last + 1);
    } else {
      var front := actions[..last];
      AskSecondHasRead(k, front, i, client, uri, latest);
      var n :| ReadsAt(k, front, i, client, uri, latest, n) && Idle(front, i, n + 1);
      ReadStays(k, front, actions[last], i, client, uri, latest, n);
    }
  }

  lemma ReadStays(
    k: Classifier, front: seq<Action>, a: Action, i: nat, client: string, uri: string, latest: Allowlist, n: int)
    requires ReadsAt(k, front, i, client, uri, latest, n) && Idle(front, i, n + 1) && !Advances(a, i)
    ensures ReadsAt(k, front + [a], i, client, uri, latest, n) && Idle(front + [a], i, n + 1)
  {
    assert (front + [a])[..n] == front[..n];
  }

  /** A list that was stored before, and the URI: which was no new id on it, or had its own no. */
  ghost predicate Caused(k: Classifier, actions: seq<Action>, i: nat, client: string, uri: string, latest: Allowlist) {
    || (!IsNewCallbackId(k, uri, latest) && exists n :: 0 <= n < |actions| && Stored(k, actions[..n], client, latest))
    || exists read, no :: OwnNo(k, actions, i, client, uri, latest, read, no)
  }

  lemma CausedStays(
    k: Classifier, front: seq<Action>, a: Action, i: nat, client: string, uri: string, latest: Allowlist)
    requires Caused(k, front, i, client, uri, latest) && !Advances(a, i)
    ensures Caused(k, front + [a], i, client, uri, latest)
  {
    var actions := front + [a];
    if read, no :| OwnNo(k, front, i, client, uri, latest, read, no) {
      assert actions[..no] == front[..no];
      assert OwnNo(k, actions, i, client, uri, latest, read, no);
    } else {
      var n :| 0 <= n < |front| && Stored(k, front[..n], client, latest);
      assert actions[..n] == front[..n];
    }
  }

  lemma {:induction false} WriteHasCause(
    k: Classifier, actions: seq<Action>, i: nat, client: string, uri: string, next: Allowlist)
    requires Exclusive(k) && IsAt(k, actions, i, Write(client, uri, next))
    ensures exists latest :: next == latest + [uri] && Caused(k, actions, i, client, uri, latest)
  {
    var last := |actions| - 1;
    var front, a := actions[..last], actions[last];
    var s := Run(k, START, front);
    CameFrom(k, actions, i, Write(client, uri, next));
    if !Advances(a, i) {
      WriteHasCause(k, front, i, client, uri, next);
      var latest :| next == latest + [uri] && Caused(k, front, i, client, uri, latest);
      CausedStays(k, front, a, i, client, uri, latest);
    } else if a == Advance(i, No) && s.requests[i].AskSecond? {
      var latest := s.requests[i].latest;
      AskSecondHasRead(k, front, i, client, uri, latest);
      var read :| ReadsAt(k, front, i, client, uri, latest, read) && Idle(front, i, read + 1);
      assert OwnNo(k, actions, i, client, uri, latest, read, last);
    } else {
      var latest := ReadList(s, client).value;
      assert Stored(k, actions[..last], client, latest);
    }
  }

  // ---- The first time an id is stored ------------------------------------------

  predicate Holds(k: Classifier, actions: seq<Action>, client: string, r: Redirect) {
    var l := ReadList(Run(k, START, actions), client);
    l.Some? && HasRedirect(k, l.value, r)
  }

  /** Step `n` puts `r` on the client's stored list, where it never was before. */
  predicate FirstHeld(k: Classifier, actions: seq<Action>, client: string, r: Redirect, n: int) {
    && 0 <= n < |actions| && Holds(k, actions[..n + 1], client, r)
    && forall j :: 0 <= j <= n ==> !Holds(k, actions[..j], client, r)
  }

  lemma {:induction false} SomeFirst(k: Classifier, actions: seq<Action>, client: string, r: Redirect)
    requires Holds(k, actions, client, r)
    ensures exists n :: FirstHeld(k, actions, client, r, n)
    decreases |actions|
  {
    if j :| 0 <= j < |actions| && Holds(k, actions[..j], client, r) {
      var front := actions[..j];
      SomeFirst(k, front, client, r);
      var n :| FirstHeld(k, front, client, r, n);
      assert forall m :: 0 <= m <= j ==> front[..m] == actions[..m];
      assert FirstHeld(k, actions, client, r, n);
    } else {
      assert actions[..|actions|] == actions;
      assert FirstHeld(k, actions, client, r, |actions| - 1);
    }
  }

  /** Only a registration or a write changes what a client's list holds. */
  lemma StepStores(k: Classifier, s: State, a: Action, client: string, r: Redirect)
    requires ReadList(Exec(k, s, a), client).Some? && HasRedirect(k, ReadList(Exec(k, s, a), client).value, r)
    requires ReadList(s, client).None? || !HasRedirect(k, ReadList(s, client).value, r)
    ensures
      || (client in Exec(k, s, a).original && HasRedirect(k, Exec(k, s, a).original[client], r))
      || (a.Advance? && a.i < |s.requests| && s.requests[a.i].Write? && s.requests[a.i].client == client
          && HasRedirect(k, s.requests[a.i].next, r))
  {
  }

  lemma StepKeepsOriginal(k: Classifier, s: State, a: Action, client: string)
    requires client in s.original
    ensures client in Exec(k, s, a).original && Exec(k, s, a).original[client] == s.original[client]
  {
  }

  lemma {:induction false} OriginalStays(k: Classifier, actions: seq<Action>, n: nat, client: string)
    requires n <= |actions| && client in Run(k, START, actions[..n]).original
    ensures client in Run(k, START, actions).original
    ensures Run(k, START, actions).original[client] == Run(k, START, actions[..n]).original[client]
    decreases |actions|
  {
    if n == |actions| {
      assert actions[..n] == actions;
    } else {
      var front := actions[..|actions| - 1];
      assert front[..n] == actions[..n];
      OriginalStays(k, front, n, client);
      StepKeepsOriginal(k, Run(k, START, front), actions[|actions| - 1], client);
    }
  }

  /** The write that first stored `r` is request `i`'s, whose own lookup after its last read said no. */
  ghost predicate StoredOnOwnNo(k: Classifier, actions: seq<Action>, client: string, r: Redirect, n: int) {
    && FirstHeld(k, actions, client, r, n) && actions[n].Advance?
    && exists uri, latest, read, no ::
         && IsAt(k, actions[..n], actions[n].i, Write(client, uri, latest + [uri])) && k.chatgpt(uri) == Some(r)
         && OwnNo(k, actions[..n], actions[n].i, client, uri, latest, read, no)
  }

  /** No list the client had before step `n` holds `r`, so what adds it is the URI asked for. */
  lemma FirstIsAsked(
    k: Classifier, actions: seq<Action>, n: nat, client: string, uri: string, latest: Allowlist, r: Redirect)
    requires FirstHeld(k, actions, client, r, n) && r.Callback? && actions[n].Advance?
    requires Caused(k, actions[..n], actions[n].i, client, uri, latest) && HasRedirect(k, latest + [uri], r)
    ensures k.chatgpt(uri) == Some(r)
    ensures exists read, no :: OwnNo(k, actions[..n], actions[n].i, client, uri, latest, read, no)
  {
    var front, i := actions[..n], actions[n].i;
    if read, no :| OwnNo(k, front, i, client, uri, latest, read, no) {
      assert front[..no][..read] == actions[..read];
      assert !Holds(k, actions[..read], client, r);
    } else {
      var m :| 0 <= m < |front| && Stored(k, front[..m], client, latest);
      assert front[..m] == actions[..m];
      assert !Holds(k, actions[..m], client, r);
    }
    assert !HasRedirect(k, latest, r);
    var j :| 0 <= j < |latest + [uri]| && k.chatgpt((latest + [uri])[j]) == Some(r);
    assert j == |latest|;
  }

  /** Nothing but a write can be the first to store an id that was not registered. */
  lemma FirstIsWrite(k: Classifier, actions: seq<Action>, client: string, r: Redirect, n: nat)
    requires FirstHeld(k, actions, client, r, n)
    requires client in Run(k, START, actions).original && !HasRedirect(k, Run(k, START, actions).original[client], r)
    ensures var a, s := actions[n], Run(k, START, actions[..n]);
      a.Advance? && a.i < |s.requests| && s.requests[a.i].Write? && s.requests[a.i].client == client
      && HasRedirect(k, s.requests[a.i].next, r)
  {
    assert actions[..n + 1][..n] == actions[..n];
    assert !Holds(k, actions[..n], client, r);
    if client in Run(k, START, actions[..n + 1]).original { OriginalStays(k, actions, n + 1, client); }
    StepStores(k, Run(k, START, actions[..n]), actions[n], client, r);
  }

  lemma FirstWriteHasItsNo(
    k: Classifier, actions: seq<Action>, client: string, r: Redirect, n: nat, uri: string, next: Allowlist)
    requires Exclusive(k) && r.Callback? && FirstHeld(k, actions, client, r, n) && actions[n].Advance?
    requires IsAt(k, actions[..n], actions[n].i, Write(client, uri, next)) && HasRedirect(k, next, r)
    ensures StoredOnOwnNo(k, actions, client, r, n)
  {
    WriteHasCause(k, actions[..n], actions[n].i, client, uri, next);
    var latest :| next == latest + [uri] && Caused(k, actions[..n], actions[n].i, client, uri, latest);
    FirstIsAsked(k, actions, n, client, uri, latest, r);
    var read, no :| OwnNo(k, actions[..n], actions[n].i, client, uri, latest, read, no);
  }

  /** Every callback id that was not registered was first stored by a request with its own no. */
  lemma NewIdHasItsNo(k: Classifier, actions: seq<Action>, client: string, r: Redirect)
    requires Exclusive(k) && r.Callback? && Holds(k, actions, client, r)
    requires client in Run(k, START, actions).original && !HasRedirect(k, Run(k, START, actions).original[client], r)
    ensures exists n :: StoredOnOwnNo(k, actions, client, r, n)
  {
    SomeFirst(k, actions, client, r);
    var n :| FirstHeld(k, actions, client, r, n);
    FirstIsWrite(k, actions, client, r, n);
    var q := Run(k, START, actions[..n]).requests[actions[n].i];
    FirstWriteHasItsNo(k, actions, client, r, n, q.uri, q.next);
  }

  ghost predicate Safe(k: Classifier, actions: seq<Action>, client: string, o: Allowlist, l: Allowlist) {
    && (forall u :: u in l ==> u in o || Acceptable(k, u) || k.loopback(u).Some?)
    && o <= l && Hosts(k, l) == Hosts(k, o) && Paths(k, l) == Paths(k, o)
    && (forall h :: |Ids(k, l, h)| <= Max(1, |Ids(k, o, h)|))
    && (forall h, id :: id in Ids(k, l, h) && id !in Ids(k, o, h) ==>
          exists n :: StoredOnOwnNo(k, actions, client, Callback(h, id), n))
  }

  lemma SafeFor(k: Classifier, actions: seq<Action>, client: string, l: Allowlist)
    requires Exclusive(k) && ReadList(Run(k, START, actions), client) == Some(l)
    ensures var s := Run(k, START, actions);
      client in s.original && Safe(k, actions, client, s.original[client], l)
  {
    assert Inv(k, START);
    RunKeeps(k, START, actions);
    var s := Run(k, START, actions);
    var o := s.original[client];
    assert Sound(k, s, client, l);
    SetsAreMembership(k, l);
    SetsAreMembership(k, o);
    forall h, id | id in Ids(k, l, h) && id !in Ids(k, o, h)
      ensures exists n :: StoredOnOwnNo(k, actions, client, Callback(h, id), n)
    {
      NewIdHasItsNo(k, actions, client, Callback(h, id));
    }
  }

  /**
   * After any interleaving, lost updates included: a stored list extends its
   * registration, has no new ChatGPT host and no new loopback path, has at most
   * max(1, registered) callback ids per host, and every id that was not registered
   * was first stored by a request whose own consent lookup, after its last read, said no.
   */
  lemma StoredListsAreSafe(parse: UrlParser, actions: seq<Action>, client: string, l: Allowlist)
    requires ReadList(Run(ClassifierOf(parse), START, actions), client) == Some(l)
    ensures var k := ClassifierOf(parse);
      var s := Run(k, START, actions);
      client in s.original && Safe(k, actions, client, s.original[client], l)
  {
    ProtocolsDiffer(parse);
    SafeFor(ClassifierOf(parse), actions, client, l);
  }

  // ---- What a stored URI is ----------------------------------------------------

  predicate ConnectorHost(host: string) { host == "chatgpt.com" || host == "chat.openai.com" }

  predicate IdText(id: string) {
    1 <= |id| <= 128
    && forall i :: 0 <= i < |id| ==>
         'A' <= id[i] <= 'Z' || 'a' <= id[i] <= 'z' || '0' <= id[i] <= '9' || id[i] == '_' || id[i] == '-'
  }

  /** One of the three documented spellings of a callback on a host. */
  ghost predicate Documented(uri: string, host: string) {
    || uri == "https://" + host + "/connector_platform_oauth_redirect"
    || uri == "https://" + host + "/connector_platform_oauth_redirect" + "/"
    || exists id :: IdText(id) && uri == "https://" + host + "/connector/oauth/" + id
  }

  /** The URI is read as https on one of ChatGPT's hosts, and spelled as documented. */
  ghost predicate IsConnector(parse: UrlParser, uri: string) {
    && parse(uri).Some? && parse(uri).value.protocol == "https:"
    && ConnectorHost(AsciiLower(parse(uri).value.hostname)) && Documented(uri, AsciiLower(parse(uri).value.hostname))
  }

  /** The URI is read, as it stands, as http on this machine. */
  ghost predicate IsLocal(parse: UrlParser, uri: string) {
    && parse(uri).Some? && parse(uri).value.protocol == "http:" && parse(uri).value.href == uri
    && exists name :: LoopbackName(name) && Bracketed(parse(uri).value.hostname, name)
  }

  /** Nothing in the URL but a host and a path. */
  predicate Bare(url: Url) { url.username == "" && url.password == "" && url.search == "" && url.hash == "" }

  lemma {:induction false} SplitKeepsChars(s: string, sep: char, part: string, c: char)
    requires part in Split(s, sep) && c in part
    ensures c in s
  {
    var rest := Split(s[1..], sep);
    if s[0] == sep {
      assert Split(s, sep) == [[]] + rest;
      SplitKeepsChars(s[1..], sep, part, c);
    } else {
      assert Split(s, sep) == [[s[0]] + rest[0]] + rest[1..];
      if part in rest[1..] {
        assert part in rest;
        SplitKeepsChars(s[1..], sep, part, c);
      } else if c != s[0] {
        assert c in rest[0] && rest[0] in rest;
        SplitKeepsChars(s[1..], sep, rest[0], c);
      }
    }
  }

  /** A path without dots goes nowhere up. */
  lemma NoDotNoParent(path: string)
    requires '.' !in path
    ensures ".." !in Split(path, '/')
  {
    if ".." in Split(path, '/') { SplitKeepsChars(path, '/', "..", '.'); }
  }

  /** A plain https URL on one of ChatGPT's hosts. */
  predicate OnConnector(parse: UrlParser, raw: string, host: string) {
    && parse(raw).Some? && parse(raw).value.protocol == "https:" && Bare(parse(raw).value)
    && parse(raw).value.port == "" && AsciiLower(parse(raw).value.hostname) == host && ConnectorHost(host)
  }

  lemma IdHasNoDots(id: string)
    requires IdText(id)
    ensures '.' !in "/connector/oauth/" + id && '\\' !in "/connector/oauth/" + id
  {
  }

  lemma CallbackIsRead(parse: UrlParser, raw: string, host: string, id: string)
    requires OnConnector(parse, raw, host) && IdText(id) && parse(raw).value.pathname == "/connector/oauth/" + id
    ensures ParseChatgpt(parse, raw) == Some(Callback(host, id))
  {
    var path := parse(raw).value.pathname;
    IdHasNoDots(id);
    NoDotNoParent(path);
    assert path[17..] == id && path[10] == '/' && STABLE_PATH[10] == '_';
  }

  /** Exactly which URLs are read as the callback of an id. */
  lemma CallbackExactly(parse: UrlParser, raw: string, host: string, id: string)
    ensures ParseChatgpt(parse, raw) == Some(Callback(host, id)) <==>
      OnConnector(parse, raw, host) && IdText(id) && parse(raw).value.pathname == "/connector/oauth/" + id
  {
    if OnConnector(parse, raw, host) && IdText(id) && parse(raw).value.pathname == "/connector/oauth/" + id {
      CallbackIsRead(parse, raw, host, id);
    }
    if ParseChatgpt(parse, raw) == Some(Callback(host, id)) { CutPrefix(parse(raw).value.pathname, id); }
  }

  lemma CutPrefix(path: string, id: string)
    ensures StartsWith(path, CALLBACK_PREFIX) && path[|CALLBACK_PREFIX|..] == id ==> path == "/connector/oauth/" + id
  {
  }

  /** And exactly which as the stable callback. */
  lemma StableExactly(parse: UrlParser, raw: string, host: string)
    ensures ParseChatgpt(parse, raw) == Some(Stable(host)) <==>
      OnConnector(parse, raw, host) && (parse(raw).value.pathname == "/connector_platform_oauth_redirect"
        || parse(raw).value.pathname == "/connector_platform_oauth_redirect/")
  {
    StableHasNoDots();
    NoDotNoParent(STABLE_PATH);
  }

  lemma StableHasNoDots()
    ensures '.' !in STABLE_PATH && '\\' !in STABLE_PATH
    ensures STABLE_PATH + "/" == "/connector_platform_oauth_redirect/"
  {
  }

  /** Exactly which URLs are read as a loopback redirect: plain http on this machine, as sent, and no way up. */
  lemma LoopbackExactly(parse: UrlParser, raw: string)
    ensures ParseLoopback(parse, raw).Some? <==>
      && IsLocal(parse, raw) && Bare(parse(raw).value)
      && (var path := parse(raw).value.pathname; "/" <= path && '\\' !in path && ".." !in Split(path, '/'))
  {
    if parse(raw).Some? { HostnameExactly(parse(raw).value.hostname); }
  }

  /** Equal up to one slash at the end. */
  predicate SamePath(a: string, b: string) { a == b || a == b + "/" || a + "/" == b }

  predicate Spelled(uri: string, r: Redirect) {
    match r
    case Stable(host) =>
      || uri == "https://" + host + "/connector_platform_oauth_redirect"
      || uri == "https://" + host + "/connector_platform_oauth_redirect" + "/"
    case Callback(host, id) => uri == "https://" + host + "/connector/oauth/" + id
  }

  /** The host is known to the list; a callback has no rival there, and stands for itself or for the stable URI. */
  predicate Vouched(read: string -> Option<Redirect>, l: Allowlist, r: Redirect) {
    && (exists x :: x in l && OnHost(read(x), r.host))
    && (r.Callback? ==>
          && (forall x :: x in l && OnHost(read(x), r.host) && read(x).value.Callback? ==> read(x).value.id == r.id)
          && exists x :: x in l && (read(x) == Some(r) || read(x) == Some(Stable(r.host))))
  }

  predicate OnHost(r: Option<Redirect>, host: string) { r.Some? && r.value.host == host }

  /** Exactly which requests may append a callback. */
  lemma RegistersExactly(k: Classifier, uri: string, l: Allowlist)
    ensures MayRegister(k, uri, l) <==>
      && uri !in l && k.chatgpt(uri).Some? && Spelled(uri, k.chatgpt(uri).value)
      && Vouched(k.chatgpt, l, k.chatgpt(uri).value)
  {
    if k.chatgpt(uri).Some? { VouchedExactly(k, l, k.chatgpt(uri).value); }
  }

  lemma VouchedExactly(k: Classifier, l: Allowlist, r: Redirect)
    ensures Admits(k, l, r) <==> Vouched(k.chatgpt, l, r)
  {
    HostIsThere(k, l, r.host);
    RedirectIsThere(k, l, r);
    RedirectIsThere(k, l, Stable(r.host));
  }

  lemma HostIsThere(k: Classifier, l: Allowlist, host: string)
    ensures HasHost(k, l, host) <==> exists x :: x in l && OnHost(k.chatgpt(x), host)
  {
    if x :| x in l && OnHost(k.chatgpt(x), host) {
      var i :| 0 <= i < |l| && l[i] == x;
      assert k.chatgpt(l[i]).Some?;
    }
  }

  lemma RedirectIsThere(k: Classifier, l: Allowlist, r: Redirect)
    ensures HasRedirect(k, l, r) <==> exists x :: x in l && k.chatgpt(x) == Some(r)
  {
    if x :| x in l && k.chatgpt(x) == Some(r) {
      var i :| 0 <= i < |l| && l[i] == x;
      assert k.chatgpt(l[i]) == Some(r);
    }
  }

  /** And which may append a loopback redirect: one whose path some registered one has. */
  lemma LoopbackRegistersExactly(k: Classifier, uri: string, l: Allowlist)
    ensures MayRegisterLoopback(k, uri, l) <==>
      uri !in l && k.loopback(uri).Some? && exists x :: x in l && k.loopback(x) == k.loopback(uri)
  {
    if x :| x in l && k.loopback(x) == k.loopback(uri) {
      var i :| 0 <= i < |l| && l[i] == x;
      assert k.loopback(l[i]) == k.loopback(uri);
    }
  }

  lemma AcceptableIsConnector(parse: UrlParser, uri: string)
    requires Acceptable(ClassifierOf(parse), uri)
    ensures IsConnector(parse, uri)
  {
    var r := ParseChatgpt(parse, uri).value;
    assert r.host == AsciiLower(parse(uri).value.hostname);
    if r.Callback? { assert IdText(r.id); }
  }

  lemma LoopbackIsLocal(parse: UrlParser, uri: string)
    requires ParseLoopback(parse, uri).Some?
    ensures IsLocal(parse, uri)
  {
    HostnameExactly(parse(uri).value.hostname);
  }

  lemma PathOfLoopback(parse: UrlParser, uri: string, path: string)
    requires ParseLoopback(parse, uri) == Some(path)
    ensures parse(uri).Some? && (parse(uri).value.pathname == path || parse(uri).value.pathname == path + "/")
    ensures var p := parse(uri).value.pathname; |p| > 1 && p[|p| - 1] == '/' ==> p == path + "/"
  {
    var p := parse(uri).value.pathname;
    if |p| > 1 && p[|p| - 1] == '/' { assert p == p[..|p| - 1] + "/"; }
  }

  lemma RegisteredSibling(parse: UrlParser, o: Allowlist, uri: string, path: string)
    requires ParseLoopback(parse, uri) == Some(path) && HasPath(ClassifierOf(parse), o, path)
    ensures parse(uri).Some?
    ensures exists r :: r in o && IsLocal(parse, r) && SamePath(parse(uri).value.pathname, parse(r).value.pathname)
  {
    var i :| 0 <= i < |o| && ClassifierOf(parse).loopback(o[i]) == Some(path);
    LoopbackIsLocal(parse, o[i]);
    PathOfLoopback(parse, uri, path);
    PathOfLoopback(parse, o[i], path);
    SamePaths(parse(uri).value.pathname, parse(o[i]).value.pathname, path);
    assert o[i] in o;
  }

  lemma SamePaths(a: string, b: string, path: string)
    requires (a == path || a == path + "/") && (b == path || b == path + "/")
    ensures SamePath(a, b)
  {
  }

  /**
   * For every parser and every run: a stored URI that was not registered is read as https on
   * chatgpt.com or chat.openai.com and spelled as a documented callback, or is read as http on a
   * loopback host and on the path of a registered loopback URI.
   */
  lemma StoredUrisAreKnown(parse: UrlParser, actions: seq<Action>, client: string, l: Allowlist, uri: string)
    requires ReadList(Run(ClassifierOf(parse), START, actions), client) == Some(l) && uri in l
    ensures var o := Run(ClassifierOf(parse), START, actions).original;
      && client in o
      && (uri in o[client] || IsConnector(parse, uri) || (
            && IsLocal(parse, uri)
            && exists r :: r in o[client] && IsLocal(parse, r)
                 && SamePath(parse(uri).value.pathname, parse(r).value.pathname)))
  {
    var k := ClassifierOf(parse);
    StoredListsAreSafe(parse, actions, client, l);
    var o := Run(k, START, actions).original[client];
    if uri !in o {
      if Acceptable(k, uri) {
        AcceptableIsConnector(parse, uri);
      } else {
        var path := ParseLoopback(parse, uri).value;
        LoopbackIsLocal(parse, uri);
        SetsAreMembership(k, l);
        SetsAreMembership(k, o);
        var i :| 0 <= i < |l| && l[i] == uri;
        assert k.loopback(l[i]) == Some(path);
        assert HasPath(k, l, path);
        RegisteredSibling(parse, o, uri, path);
      }
    }
  }

  // ---- A request by itself -----------------------------------------------------

  /** One request advances `n` times while nothing else happens. */
  function Alone(k: Classifier, s: State, i: nat, answer: Answer, n: nat): State
    requires i < |s.requests|
    decreases n
  {
    if n == 0 then s else Alone(k, AdvanceOne(k, s, i, answer), i, answer, n - 1)
  }

  lemma {:induction false} FinishedStays(k: Classifier, s: State, i: nat, answer: Answer, n: nat)
    requires i < |s.requests| && s.requests[i] == Finished
    ensures Alone(k, s, i, answer, n) == s
    decreases n
  {
    if n > 0 { FinishedStays(k, s, i, answer, n - 1); }
  }

  lemma WriteStores(k: Classifier, s: State, i: nat, answer: Answer, n: nat)
    requires i < |s.requests| && s.requests[i].Write? && s.requests[i].client in s.clients && n > 0
    ensures ReadList(Alone(k, s, i, answer, n), s.requests[i].client) == Some(s.requests[i].next)
  {
    FinishedStays(k, AdvanceOne(k, s, i, answer), i, answer, n - 1);
  }

  /** Both checks pass: the URI may be added, and if it is a new id, no consent exists and none is skipped. */
  predicate Storable(k: Classifier, c: Client, uri: string, l: Allowlist, answer: Answer) {
    MayRegister(k, uri, l) && (IsNewCallbackId(k, uri, l) ==> !c.skipConsent && answer == No)
  }

  lemma RereadStores(k: Classifier, s: State, i: nat, answer: Answer, n: nat)
    requires i < |s.requests| && s.requests[i].Reread? && ReadList(s, s.requests[i].client).Some? && n >= 3
    ensures var Reread(client, uri) := s.requests[i];
      var l := ReadList(s, client).value;
      ReadList(Alone(k, s, i, answer, n), client) ==
        Some(if Storable(k, s.clients[client], uri, l, answer) then l + [uri] else l)
  {
    var t := AdvanceOne(k, s, i, answer);
    if t.requests[i].AskSecond? {
      var u := AdvanceOne(k, t, i, answer);
      if u.requests[i].Write? { WriteStores(k, u, i, answer, n - 2); } else { FinishedStays(k, u, i, answer, n - 2); }
    } else if t.requests[i].Write? {
      WriteStores(k, t, i, answer, n - 1);
    } else {
      FinishedStays(k, t, i, answer, n - 1);
    }
  }

  /** A request nothing disturbs appends its URI, as sent, exactly when the rules and the consent lookup allow it. */
  lemma AloneStores(k: Classifier, s: State, i: nat, answer: Answer)
    requires i < |s.requests| && s.requests[i].Begin? && ReadList(s, s.requests[i].client).Some?
    ensures var Begin(client, uri) := s.requests[i];
      var l := ReadList(s, client).value;
      ReadList(Alone(k, s, i, answer, 5), client) ==
        Some(if Storable(k, s.clients[client], uri, l, answer) then l + [uri] else l)
  {
    var t := AdvanceOne(k, s, i, answer);
    if t.requests[i].AskFirst? {
      var u := AdvanceOne(k, t, i, answer);
      if u.requests[i].Reread? { RereadStores(k, u, i, answer, 3); } else { FinishedStays(k, u, i, answer, 3); }
    } else if t.requests[i].Reread? {
      RereadStores(k, t, i, answer, 4);
    } else {
      FinishedStays(k, t, i, answer, 4);
    }
  }

  /** Likewise a loopback request: the same path on any port (section 7.3 of RFC 8252). */
  lemma AloneStoresLoopback(k: Classifier, s: State, i: nat, answer: Answer)
    requires i < |s.requests| && s.requests[i].LoopBegin? && ReadList(s, s.requests[i].client).Some?
    ensures var LoopBegin(client, uri) := s.requests[i];
      var l := ReadList(s, client).value;
      ReadList(Alone(k, s, i, answer, 3), client) == Some(if MayRegisterLoopback(k, uri, l) then l + [uri] else l)
  {
    var t := AdvanceOne(k, s, i, answer);
    if t.requests[i].LoopReread? {
      var u := AdvanceOne(k, t, i, answer);
      WriteStores(k, u, i, answer, 1);
    } else {
      FinishedStays(k, t, i, answer, 2);
    }
  }
}
