/**
 * The readers of the projection: the serving Worker's route lookup, denylist check and
 * status check (edge/serving-worker/src), and the route parser of contracts/src/index.ts.
 * Its keys and rules are spelled out here apart from the writers' own.
 */
module EdgeReader {
  import opened Bytes
  import opened EdgeKeys
  import opened RemoteProjection
  import opened ProjectionRuns
  import Slug
  import Hosts

  // ---- Finding the route -------------------------------------------------------

  function LastColon(s: string): (i: int)
    ensures -1 <= i < |s| && (i >= 0 ==> s[i] == ':') && forall j :: i < j < |s| ==> s[j] != ':'
  {
    if s == "" then -1 else if s[|s| - 1] == ':' then |s| - 1 else LastColon(s[..|s| - 1])
  }

  function WithoutPort(s: string): string { if LastColon(s) == -1 then s else s[..LastColon(s)] }

  function WithoutDot(s: string): string { if s != "" && s[|s| - 1] == '.' then s[..|s| - 1] else s }

  /** `clean` trims and lower-cases, as JavaScript does. */
  function NormalizeHost(clean: string -> string, raw: string): string { WithoutDot(WithoutPort(clean(raw))) }

  function WorkerRouteKey(clean: string -> string, raw: string): string { "route:" + NormalizeHost(clean, raw) }

  predicate IsDot(s: string) { s == "" || s == "." }
  predicate IsPort(s: string) { s == "" || (s[0] == ':' && forall j :: 1 <= j < |s| ==> s[j] != ':') }

  /** The host, perhaps with the root's dot, perhaps with a port. */
  ghost predicate Spells(s: string, host: string) {
    exists dot, port :: IsDot(dot) && IsPort(port) && s == host + dot + port
  }

  lemma PortIsCut(s: string, port: string)
    requires ':' !in s && IsPort(port)
    ensures WithoutPort(s + port) == s
  {
    var t := s + port;
    if port == "" {
      assert t == s;
    } else {
      assert t[|s|] == ':';
      forall j | |s| < j < |t| ensures t[j] != ':' { assert t[j] == port[j - |s|]; }
    }
  }

  lemma PortWasCut(s: string)
    ensures IsPort(s[|WithoutPort(s)|..]) && WithoutPort(s) <= s
  {
  }

  /** A request finds a host's route exactly when its Host header spells that host. */
  lemma FoundExactly(clean: string -> string, raw: string, host: string)
    requires host != "" && host[|host| - 1] != '.' && ':' !in host
    ensures WorkerRouteKey(clean, raw) == RouteKey(host) <==> Spells(clean(raw), host)
  {
    SpellingIsFound(clean(raw), host);
    assert WorkerRouteKey(clean, raw)[6..] == NormalizeHost(clean, raw) && RouteKey(host)[6..] == host;
    if WorkerRouteKey(clean, raw) == RouteKey(host) { FoundIsSpelling(clean(raw), host); }
  }

  lemma FoundIsSpelling(s: string, host: string)
    requires WithoutDot(WithoutPort(s)) == host
    ensures Spells(s, host)
  {
    var bare := WithoutPort(s);
    PortWasCut(s);
    var dot, port := if bare == host then "" else ".", s[|bare|..];
    assert IsDot(dot) && bare == host + dot && s == bare + port;
  }

  lemma SpellingIsFound(s: string, host: string)
    requires host != "" && host[|host| - 1] != '.' && ':' !in host
    ensures Spells(s, host) ==> WithoutDot(WithoutPort(s)) == host
  {
    if dot, port :| IsDot(dot) && IsPort(port) && s == host + dot + port {
      PortIsCut(host + dot, port);
    }
  }

  /** The host the writers publish a site under is one that requests find, and only that site's. */
  lemma SiteIsFoundExactly(clean: string -> string, raw: string, domain: string, org: string, app: string)
    requires Slug.Valid(org) && Slug.Valid(app) && domain != "" && domain[|domain| - 1] != '.' && ':' !in domain
    ensures var host := Hosts.HostForSite(domain, org, app);
      WorkerRouteKey(clean, raw) == RouteKey(host) <==> Spells(clean(raw), host)
  {
    FoundExactly(clean, raw, Hosts.HostForSite(domain, org, app));
  }

  // ---- Reading the route -------------------------------------------------------

  predicate IsHex(c: char) { '0' <= c <= '9' || 'a' <= c <= 'f' || 'A' <= c <= 'F' }

  /** Eight, four, four, four and twelve hexadecimal digits. */
  predicate IsUuid(s: string) {
    |s| == 36 && forall i :: 0 <= i < 36 ==>
      if i == 8 || i == 13 || i == 18 || i == 23 then s[i] == '-' else IsHex(s[i])
  }

  const MODES: seq<string> := ["public", "password", "allowlist", "org_only"]

  /** An empty optional field is one the writer leaves out; `isDate` is JavaScript's parser. */
  predicate WorkerReads(isDate: string -> bool, v: RouteValue) {
    && IsUuid(v.orgId) && IsUuid(v.siteId) && IsUuid(v.versionId)
    && v.accessMode in MODES
    && v.schemaVersion >= 1 && v.schemaVersion <= 4
    && (v.expiresAt != "" ==> isDate(v.expiresAt))
    && (v.chatId != "" ==> IsUuid(v.chatId))
  }

  /** What the parser asks for and the writers do not. */
  predicate Identified(isDate: string -> bool, v: RouteValue) {
    && IsUuid(v.orgId) && IsUuid(v.siteId) && IsUuid(v.versionId) && (v.chatId == "" || IsUuid(v.chatId))
    && (v.expiresAt == "" || isDate(v.expiresAt))
  }

  /** A value the writers accept is read exactly when its ids are UUIDs and its date is one to both sides. */
  lemma RouteIsReadExactly(isTime: string -> bool, isDate: string -> bool, v: RouteValue)
    ensures ValidRoute(isTime, v) ==> (WorkerReads(isDate, v) <==> Identified(isDate, v))
    ensures WorkerReads(isDate, v) && (v.expiresAt == "" || isTime(v.expiresAt)) ==> ValidRoute(isTime, v)
  {
    assert MODES[0] == "public" && MODES[1] == "password" && MODES[2] == "allowlist" && MODES[3] == "org_only";
  }

  /** The writers publish a route whose ids are no UUIDs, and the Worker answers 404. */
  lemma NamedRouteIsUnread(isTime: string -> bool, isDate: string -> bool) returns (v: RouteValue)
    ensures ValidRoute(isTime, v) && !WorkerReads(isDate, v)
  {
    v := RouteValue("acme", "blog", "v1", "public", 4, "", "", "");
  }

  /** Every route a call would write is one the Worker can identify. */
  ghost predicate PublishesIdentified(isDate: string -> bool, e: RemoteProjection.Event) {
    e.Other? ==> match e.op
      case PutOp(_, v) => Identified(isDate, v)
      case RebuildOp(target) => forall host :: host in target ==> Identified(isDate, target[host])
      case _ => true
  }

  ghost predicate Readable(isDate: string -> bool, kv: Kv) {
    forall host :: RouteKey(host) in kv ==>
      kv[RouteKey(host)].Route? && WorkerReads(isDate, kv[RouteKey(host)].route)
  }

  lemma StaysReadable(isTime: string -> bool, isDate: string -> bool, kv: Kv, e: RemoteProjection.Event, kv': Kv)
    requires Happens(isTime, kv, e, kv') && PublishesIdentified(isDate, e) && Readable(isDate, kv)
    ensures Readable(isDate, kv')
  {
    forall host | RouteKey(host) in kv'
      ensures kv'[RouteKey(host)].Route? && WorkerReads(isDate, kv'[RouteKey(host)].route)
    {
      RouteStays(isTime, isDate, kv, e, kv', host);
    }
  }

  lemma RouteStays(
    isTime: string -> bool, isDate: string -> bool, kv: Kv, e: RemoteProjection.Event, kv': Kv, host: string)
    requires Happens(isTime, kv, e, kv') && PublishesIdentified(isDate, e) && Readable(isDate, kv)
    requires RouteKey(host) in kv'
    ensures kv'[RouteKey(host)].Route? && WorkerReads(isDate, kv'[RouteKey(host)].route)
  {
    var key := RouteKey(host);
    match e
    case RevokeCall(kind, id, _, _, _) => FamiliesAreDisjoint(host, "", kind, id);
    case Other(StatusOp(org, _)) => FamiliesAreDisjoint(host, org, User, "");
    case Other(PutOp(_, v)) =>
      if ValidRoute(isTime, v) { RouteIsReadExactly(isTime, isDate, v); }
    case Other(RebuildOp(target)) =>
      assert key[6..] == host;
      if AllValid(isTime, target) && host in target { RouteIsReadExactly(isTime, isDate, target[host]); }
      assert Find(kv', key) == Find(kv, key) || (IsRouteKey(key) && Find(kv', key) == Binding(target, key));
    case Other(_) =>
  }

  /** Then in every state of every run, stopped rebuilds included, each route there is can be read. */
  lemma {:induction false} RoutesAreReadable(
    isTime: string -> bool, isDate: string -> bool, states: seq<Kv>, events: seq<RemoteProjection.Event>)
    requires IsRun(isTime, states, events) && states[0] == map[]
    requires forall n :: 0 <= n < |events| ==> PublishesIdentified(isDate, events[n])
    ensures Readable(isDate, states[|events|])
  {
    if events != [] {
      var n := |events| - 1;
      RoutesAreReadable(isTime, isDate, states[..n + 1], events[..n]);
      StaysReadable(isTime, isDate, states[n], events[n], states[n + 1]);
    }
  }

  // ---- Serving what was published ----------------------------------------------

  /** The route a request is served by, if any. */
  function Lookup(clean: string -> string, isDate: string -> bool, kv: Kv, raw: string): Option<RouteValue> {
    var v := Find(kv, WorkerRouteKey(clean, raw));
    if v.Some? && v.value.Route? && WorkerReads(isDate, v.value.route) then Some(v.value.route) else None
  }

  /** After an acknowledged rebuild, requests are served by the target's routes and by no others. */
  lemma RebuildIsServed(
    clean: string -> string, isTime: string -> bool, isDate: string -> bool,
    kv: Kv, target: map<string, RouteValue>, kv': Kv, raw: string)
    requires RemoteStep(isTime, kv, RebuildOp(target), kv') && AllValid(isTime, target)
    requires forall host :: host in target ==> Identified(isDate, target[host])
    ensures Lookup(clean, isDate, kv', raw) == Find(target, NormalizeHost(clean, raw))
    ensures forall key :: !("route:" <= key) ==> Find(kv', key) == Find(kv, key)
  {
    var host := NormalizeHost(clean, raw);
    var key := "route:" + host;
    assert key[6..] == host && "route:" <= key;
    assert Find(kv', key) == Binding(target, key);
    if host in target { RouteIsReadExactly(isTime, isDate, target[host]); }
  }

  /** An acknowledged write or deletion changes what its own host is served by, and nothing else. */
  lemma WriteIsServed(
    clean: string -> string, isTime: string -> bool, isDate: string -> bool,
    kv: Kv, host: string, v: RouteValue, put: Kv, deleted: Kv, raw: string)
    requires ValidRoute(isTime, v) && Identified(isDate, v)
    requires RemoteStep(isTime, kv, PutOp(host, v), put) && RemoteStep(isTime, kv, DeleteOp(host), deleted)
    ensures NormalizeHost(clean, raw) == host ==>
      Lookup(clean, isDate, put, raw) == Some(v) && Lookup(clean, isDate, deleted, raw) == None
    ensures NormalizeHost(clean, raw) != host ==>
      Lookup(clean, isDate, put, raw) == Lookup(clean, isDate, deleted, raw) == Lookup(clean, isDate, kv, raw)
  {
    RouteIsReadExactly(isTime, isDate, v);
    var asked := NormalizeHost(clean, raw);
    assert WorkerRouteKey(clean, raw) == RouteKey(asked);
    if RouteKey(asked) == RouteKey(host) { RouteKeysAreInjective(asked, host); }
  }

  // ---- The denylist check ------------------------------------------------------

  /** Only the denylist family holds bounds; a negative one is ignored. */
  function ParseEntry(v: Option<Value>): Option<int> {
    if v.Some? && v.value.Revoked? && v.value.minIat >= 0 then Some(v.value.minIat) else None
  }

  function DenylistKeys(user: string, site: string, org: string): seq<string> {
    ["revoked:user:" + user, "revoked:site:" + site, "revoked:org:" + org]
  }

  predicate Denies(kv: Kv, key: string, iat: nat) {
    var bound := ParseEntry(Find(kv, key));
    bound.Some? && bound.value > iat
  }

  /** The Worker's rule over its own three keys. */
  predicate Denied(kv: Kv, user: string, site: string, org: string, iat: nat) {
    exists i :: 0 <= i < 3 && Denies(kv, DenylistKeys(user, site, org)[i], iat)
  }

  /** No binding, or a read that fails, counts as revoked. */
  method IsRevoked(kv: Option<Kv>, readOk: bool, user: string, site: string, org: string, iat: nat)
    returns (revoked: bool)
    ensures revoked <==> kv.None? || !readOk || Rejected(kv.value, user, site, org, iat)
  {
    if kv.None? || !readOk { return true; }
    DeniedExactly(kv.value, user, site, org, iat);
    var keys := DenylistKeys(user, site, org);
    for i := 0 to 3
      invariant forall j :: 0 <= j < i ==> !Denies(kv.value, keys[j], iat)
    {
      var entry := ParseEntry(Find(kv.value, keys[i]));
      if entry.Some? && entry.value > iat {
        assert Denies(kv.value, DenylistKeys(user, site, org)[i], iat);
        return true;
      }
    }
    return false;
  }

  lemma DeniesExactly(kv: Kv, kind: Kind, id: string, iat: nat)
    requires !kind.Unknown?
    ensures Denies(kv, RevokedKey(kind, id), iat) <==> MinIat(kv, kind, id) > iat
  {
  }

  /** The Worker's keys are the writers', so both sides mean the same by a rejected token. */
  lemma DeniedExactly(kv: Kv, user: string, site: string, org: string, iat: nat)
    ensures Denied(kv, user, site, org, iat) <==> Rejected(kv, user, site, org, iat)
  {
    var keys := DenylistKeys(user, site, org);
    assert keys[0] == RevokedKey(User, user);
    assert keys[1] == RevokedKey(Site, site);
    assert keys[2] == RevokedKey(Org, org);
    DeniesExactly(kv, User, user, iat);
    DeniesExactly(kv, Site, site, iat);
    DeniesExactly(kv, Org, org, iat);
    if Rejected(kv, user, site, org, iat) {
      assert Denies(kv, keys[0], iat) || Denies(kv, keys[1], iat) || Denies(kv, keys[2], iat);
    }
  }

  /** A revocation that landed for one of the token's subjects, with a bound after its issue. */
  predicate Bars(e: RemoteProjection.Event, user: string, site: string, org: string, iat: nat) {
    && e.RevokeCall? && e.landed && e.id != "" && e.minIat > iat
    && ((e.kind == User && e.id == user) || (e.kind == Site && e.id == site) || (e.kind == Org && e.id == org))
  }

  /** A bound above `iat` is there exactly when a landed revocation brought it, if none loosens. */
  lemma {:induction false} BoundHasCause(
    isTime: string -> bool, states: seq<Kv>, events: seq<RemoteProjection.Event>, kind: Kind, id: string, iat: nat)
    requires IsRun(isTime, states, events) && states[0] == map[] && !kind.Unknown?
    requires forall n :: 0 <= n < |events| ==> Tightens(states[n], events[n])
    ensures MinIat(states[|events|], kind, id) > iat
       <==> exists n :: 0 <= n < |events| && On(events[n], kind, id) && events[n].minIat > iat
  {
    if events != [] {
      var n := |events| - 1;
      BoundHasCause(isTime, states[..n + 1], events[..n], kind, id, iat);
      assert forall i :: 0 <= i < n ==> events[..n][i] == events[i];
      if On(events[n], kind, id) {
        RevokeKeepsMaxExactly(isTime, states[n], events[n], states[n + 1], kind, id);
      } else {
        OthersLeaveDenylist(isTime, states[n], events[n], states[n + 1], kind, id);
      }
      CauseGrows(events, kind, id, iat);
    }
  }

  lemma CauseGrows(events: seq<RemoteProjection.Event>, kind: Kind, id: string, iat: nat)
    requires events != []
    ensures var n := |events| - 1;
      (exists i :: 0 <= i < |events| && On(events[i], kind, id) && events[i].minIat > iat) <==>
      ((exists i :: 0 <= i < n && On(events[..n][i], kind, id) && events[..n][i].minIat > iat)
        || (On(events[n], kind, id) && events[n].minIat > iat))
  {
    var n := |events| - 1;
    assert forall i :: 0 <= i < n ==> events[..n][i] == events[i];
    if i :| 0 <= i < n && On(events[i], kind, id) && events[i].minIat > iat {
      assert On(events[..n][i], kind, id);
    }
  }

  /**
   * Over any run from an empty namespace in which no revocation loosens, the Worker turns a
   * token away exactly when some landed revocation bars it.
   */
  lemma DeniedSinceRevoked(
    isTime: string -> bool, states: seq<Kv>, events: seq<RemoteProjection.Event>,
    user: string, site: string, org: string, iat: nat)
    requires IsRun(isTime, states, events) && states[0] == map[]
    requires forall n :: 0 <= n < |events| ==> Tightens(states[n], events[n])
    ensures Denied(states[|events|], user, site, org, iat)
       <==> exists n :: 0 <= n < |events| && Bars(events[n], user, site, org, iat)
  {
    DeniedExactly(states[|events|], user, site, org, iat);
    BoundHasCause(isTime, states, events, User, user, iat);
    BoundHasCause(isTime, states, events, Site, site, iat);
    BoundHasCause(isTime, states, events, Org, org, iat);
    forall n | 0 <= n < |events|
      ensures Bars(events[n], user, site, org, iat) <==>
        (BarsBy(events[n], User, user, iat) || BarsBy(events[n], Site, site, iat) || BarsBy(events[n], Org, org, iat))
    {
    }
  }

  predicate BarsBy(e: RemoteProjection.Event, kind: Kind, id: string, iat: nat) {
    On(e, kind, id) && e.minIat > iat
  }

  // ---- The status check --------------------------------------------------------

  predicate IsWhite(c: char) { IsSpaceCode(c as int) }

  function Trimmed(s: string): string { TrimRight(IsWhite, TrimLeft(IsWhite, s)) }

  /** A bare status, or one that `envelope` reads out of a JSON object. */
  function Says(envelope: string -> Option<string>, raw: string): Option<string> {
    if "{" <= Trimmed(raw) then envelope(Trimmed(raw)) else Some(Trimmed(raw))
  }

  function ReadStatus(envelope: string -> Option<string>, kv: Kv, org: string): Option<string> {
    var v := Find(kv, "org_status:" + org);
    if v.Some? && v.value.Status? then Says(envelope, v.value.status) else None
  }

  predicate Blocked(envelope: string -> Option<string>, kv: Kv, org: string) {
    var s := ReadStatus(envelope, kv, org);
    s == Some("suspended") || s == Some("over_limit")
  }

  lemma NothingToTrim(s: string)
    requires s != "" && !IsWhite(s[0]) && !IsWhite(s[|s| - 1])
    ensures Trimmed(s) == s
  {
  }

  /**
   * An acknowledged status blocks its org, and moves no other, exactly when it does not clear
   * and says one of two words: "past_due" is written, and is served.
   */
  lemma StatusBlocksExactly(
    isTime: string -> bool, envelope: string -> Option<string>, kv: Kv, org: string, status: string, kv': Kv)
    requires RemoteStep(isTime, kv, StatusOp(org, status), kv') && org != ""
    ensures Blocked(envelope, kv', org) <==>
      status != "" && status != "active" && Says(envelope, status) in {Some("suspended"), Some("over_limit")}
    ensures status == "suspended" || status == "over_limit" ==> Blocked(envelope, kv', org)
    ensures status == "active" || status == "" || status == "past_due" ==> !Blocked(envelope, kv', org)
    ensures forall other :: other != org ==> Blocked(envelope, kv', other) == Blocked(envelope, kv, other)
  {
    assert OrgStatusKey(org) == "org_status:" + org;
    if status == "suspended" || status == "over_limit" || status == "past_due" { NothingToTrim(status); }
    forall other | other != org ensures Blocked(envelope, kv', other) == Blocked(envelope, kv, other) {
      if OrgStatusKey(other) == OrgStatusKey(org) { StatusKeysAreInjective(other, org); }
      assert OrgStatusKey(other) == "org_status:" + other;
    }
  }

  lemma OthersLeaveStatus(isTime: string -> bool, kv: Kv, e: RemoteProjection.Event, kv': Kv, org: string)
    requires Happens(isTime, kv, e, kv') && !(e.Other? && e.op.StatusOp? && e.op.org == org)
    ensures Find(kv', OrgStatusKey(org)) == Find(kv, OrgStatusKey(org))
  {
    match e
    case RevokeCall(kind, id, _, _, _) => FamiliesAreDisjoint("", org, kind, id);
    case Other(PutOp(host, _)) => FamiliesAreDisjoint(host, org, User, "");
    case Other(DeleteOp(host)) => FamiliesAreDisjoint(host, org, User, "");
    case Other(RebuildOp(target)) => FamiliesAreDisjoint("", org, User, "");
    case Other(StatusOp(other, _)) =>
      if OrgStatusKey(other) == OrgStatusKey(org) { StatusKeysAreInjective(other, org); }
    case Other(_) =>
  }

  /** A status lasts: routes, rebuilds, revocations and other orgs' statuses do not move it. */
  lemma {:induction false} StatusLasts(
    isTime: string -> bool, envelope: string -> Option<string>,
    states: seq<Kv>, events: seq<RemoteProjection.Event>, org: string)
    requires IsRun(isTime, states, events)
    requires forall n :: 0 <= n < |events| ==>
      !(events[n].Other? && events[n].op.StatusOp? && events[n].op.org == org)
    ensures Blocked(envelope, states[|events|], org) == Blocked(envelope, states[0], org)
  {
    if events != [] {
      var n := |events| - 1;
      StatusLasts(isTime, envelope, states[..n + 1], events[..n], org);
      OthersLeaveStatus(isTime, states[n], events[n], states[n + 1], org);
      assert OrgStatusKey(org) == "org_status:" + org;
    }
  }
}
