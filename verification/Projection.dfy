/**
 * The edge projection (internal/projection) and the revocation denylist
 * (internal/edgerevoke): three key families in one flat Workers KV namespace.
 *
 * An API call either succeeds, or fails; a failed write may or may not have landed.
 * JSON encoding is left out: values are stored as records.
 */
module EdgeKeys {
  datatype RouteValue = RouteValue(
    orgId: string, siteId: string, versionId: string, accessMode: string, schemaVersion: int,
    expiresAt: string, planTier: string, chatId: string)

  /** `isTime` is Go's RFC 3339 parser. */
  predicate ValidRoute(isTime: string -> bool, v: RouteValue) {
    && v.orgId != "" && v.siteId != "" && v.versionId != ""
    && (v.accessMode == "public" || v.accessMode == "password"
        || v.accessMode == "allowlist" || v.accessMode == "org_only")
    && 1 <= v.schemaVersion <= 4
    && (v.expiresAt == "" || isTime(v.expiresAt))
  }

  datatype Kind = User | Site | Org | Unknown(name: string)

  function KindName(kind: Kind): string {
    match kind case User => "user" case Site => "site" case Org => "org" case Unknown(name) => name
  }

  function RouteKey(host: string): string { "route:" + host }
  function OrgStatusKey(org: string): string { "org_status:" + org }
  function RevokedKey(kind: Kind, id: string): string { "revoked:" + KindName(kind) + ":" + id }

  predicate IsRouteKey(key: string) { "route:" <= key }

  datatype Value = Route(route: RouteValue) | Revoked(minIat: int) | Status(status: string)

  type Kv = map<string, Value>

  /** The writers' operations. */
  datatype Op =
    | PutOp(host: string, v: RouteValue)
    | DeleteOp(host: string)
    | RebuildOp(target: map<string, RouteValue>)
    | RevokeOp(kind: Kind, id: string, minIat: int)
    | StatusOp(org: string, status: string)

  predicate MayRevoke(kind: Kind, id: string, minIat: int) { !kind.Unknown? && id != "" && minIat > 0 }

  predicate AllValid(isTime: string -> bool, routes: map<string, RouteValue>) {
    forall host :: host in routes ==> ValidRoute(isTime, routes[host])
  }

  /** Well-formed input, which both writers check before anything else. */
  predicate Accepts(isTime: string -> bool, op: Op) {
    match op
    case PutOp(_, v) => ValidRoute(isTime, v)
    case DeleteOp(_) => true
    case RebuildOp(target) => AllValid(isTime, target)
    case RevokeOp(kind, id, minIat) => MayRevoke(kind, id, minIat)
    case StatusOp(org, _) => org != ""
  }

  lemma RouteKeysAreInjective(a: string, b: string)
    requires RouteKey(a) == RouteKey(b)
    ensures a == b
  {
    assert RouteKey(a)[6..] == a && RouteKey(b)[6..] == b;
  }

  lemma StatusKeysAreInjective(a: string, b: string)
    requires OrgStatusKey(a) == OrgStatusKey(b)
    ensures a == b
  {
    assert OrgStatusKey(a)[11..] == a && OrgStatusKey(b)[11..] == b;
  }

  lemma RevokedKeyStarts(kind: Kind, id: string)
    requires !kind.Unknown?
    ensures |RevokedKey(kind, id)| >= 11 && RevokedKey(kind, id)[..8] == "revoked:"
    ensures RevokedKey(kind, id)[8..] == KindName(kind) + ":" + id
  {
  }

  /** No two subjects share a denylist key, whatever their ids contain. */
  lemma RevokedKeysAreInjective(kind: Kind, id: string, kind': Kind, id': string)
    requires !kind.Unknown? && !kind'.Unknown? && RevokedKey(kind, id) == RevokedKey(kind', id')
    ensures kind == kind' && id == id'
  {
    RevokedKeyStarts(kind, id);
    RevokedKeyStarts(kind', id');
    var a, b := KindName(kind) + ":" + id, KindName(kind') + ":" + id';
    assert a == b && a[0] == KindName(kind)[0] && b[0] == KindName(kind')[0];
    var n := |KindName(kind)| + 1;
    assert a[n..] == id && b[n..] == id';
  }

  /** The three families never meet. */
  lemma FamiliesAreDisjoint(host: string, org: string, kind: Kind, id: string)
    ensures RouteKey(host) != OrgStatusKey(org) && RouteKey(host) != RevokedKey(kind, id)
    ensures OrgStatusKey(org) != RevokedKey(kind, id)
    ensures IsRouteKey(RouteKey(host)) && !IsRouteKey(OrgStatusKey(org)) && !IsRouteKey(RevokedKey(kind, id))
  {
    assert RouteKey(host)[0] == 'r' && RouteKey(host)[1] == 'o';
    assert OrgStatusKey(org)[0] == 'o';
    assert RevokedKey(kind, id)[0] == 'r' && RevokedKey(kind, id)[1] == 'e';
  }

  lemma RouteKeysAreRoutes(key: string)
    requires IsRouteKey(key)
    ensures key == RouteKey(key[6..])
  {
  }
}

/** The in-memory writer: three maps. */
module LocalProjection {
  import opened EdgeKeys

  datatype Maps = Maps(routes: map<string, RouteValue>, revoked: map<string, int>, orgStatus: map<string, string>)

  function Revoke(m: Maps, key: string, minIat: int): Maps {
    if key in m.revoked && m.revoked[key] >= minIat then m else m.(revoked := m.revoked[key := minIat])
  }

  function SetOrgStatus(m: Maps, org: string, status: string): Maps {
    if status == "" || status == "active" then m.(orgStatus := m.orgStatus - {org})
    else m.(orgStatus := m.orgStatus[org := status])
  }

  /** What an operation does to the maps. */
  function LocalStep(isTime: string -> bool, m: Maps, op: Op): Maps {
    if !Accepts(isTime, op) then m
    else match op
      case PutOp(host, v) => m.(routes := m.routes[host := v])
      case DeleteOp(host) => m.(routes := m.routes - {host})
      case RebuildOp(target) => m.(routes := target)
      case RevokeOp(kind, id, minIat) => Revoke(m, RevokedKey(kind, id), minIat)
      case StatusOp(org, status) => SetOrgStatus(m, org, status)
  }

  class Local {
    const isTime: string -> bool
    var routes: map<string, RouteValue>
    var revoked: map<string, int>
    var orgStatus: map<string, string>

    constructor (isTime: string -> bool)
      ensures this.isTime == isTime && Contents() == Maps(map[], map[], map[])
    {
      this.isTime := isTime;
      routes, revoked, orgStatus := map[], map[], map[];
    }

    function Contents(): Maps
      reads this
    {
      Maps(routes, revoked, orgStatus)
    }

    method PutRoute(host: string, v: RouteValue) returns (ok: bool)
      modifies this`routes
      ensures ok <==> Accepts(isTime, PutOp(host, v))
      ensures Contents() == LocalStep(isTime, old(Contents()), PutOp(host, v))
    {
      ok := ValidRoute(isTime, v);
      if ok { routes := routes[host := v]; }
    }

    method DeleteRoute(host: string)
      modifies this`routes
      ensures Contents() == LocalStep(isTime, old(Contents()), DeleteOp(host))
    {
      routes := routes - {host};
    }

    method RebuildFromDB(target: map<string, RouteValue>) returns (ok: bool)
      modifies this`routes
      ensures ok <==> Accepts(isTime, RebuildOp(target))
      ensures Contents() == LocalStep(isTime, old(Contents()), RebuildOp(target))
    {
      ok := true;
      var hosts := target.Keys;
      while hosts != {}
        invariant hosts <= target.Keys
        invariant forall h :: h in target.Keys - hosts ==> ValidRoute(isTime, target[h])
      {
        var host :| host in hosts;
        if !ValidRoute(isTime, target[host]) { return false; }
        hosts := hosts - {host};
      }
      routes := map[];
      hosts := target.Keys;
      while hosts != {}
        invariant hosts <= target.Keys
        invariant routes.Keys == target.Keys - hosts
        invariant forall h :: h in routes ==> routes[h] == target[h]
      {
        var host :| host in hosts;
        routes := routes[host := target[host]];
        hosts := hosts - {host};
      }
    }

    method RevokeSubject(kind: Kind, id: string, minIat: int) returns (ok: bool)
      modifies this`revoked
      ensures ok <==> Accepts(isTime, RevokeOp(kind, id, minIat))
      ensures Contents() == LocalStep(isTime, old(Contents()), RevokeOp(kind, id, minIat))
    {
      if kind.Unknown? || id == "" || minIat <= 0 { return false; }
      var key := RevokedKey(kind, id);
      if key in revoked && revoked[key] >= minIat { return true; }
      revoked := revoked[key := minIat];
      ok := true;
    }

    method SetStatus(org: string, status: string) returns (ok: bool)
      modifies this`orgStatus
      ensures ok <==> Accepts(isTime, StatusOp(org, status))
      ensures Contents() == LocalStep(isTime, old(Contents()), StatusOp(org, status))
    {
      if org == "" { return false; }
      if status == "" || status == "active" {
        orgStatus := orgStatus - {org};
      } else {
        orgStatus := orgStatus[org := status];
      }
      ok := true;
    }
  }
}

/** The remote writer, over one flat map reached through calls that may fail. */
module RemoteProjection {
  import opened Bytes
  import opened EdgeKeys

  /** A write call's fate: acknowledged, or failed with the write landed or not. */
  datatype Reply = Acked | Lost(landed: bool)

  /** What the rebuild target binds a key to; nothing but route keys is bound. */
  function Binding(target: map<string, RouteValue>, key: string): Option<Value> {
    if IsRouteKey(key) && key[6..] in target then Some(Route(target[key[6..]])) else None
  }

  lemma BindingOfHost(target: map<string, RouteValue>, host: string)
    requires host in target
    ensures IsRouteKey(RouteKey(host)) && Binding(target, RouteKey(host)) == Some(Route(target[host]))
  {
    assert RouteKey(host)[6..] == host;
  }

  /** Each route key as before or as in the target; every other key as before. */
  ghost predicate Between(before: Kv, kv: Kv, target: map<string, RouteValue>) {
    forall key :: Find(kv, key) == Find(before, key) || (IsRouteKey(key) && Find(kv, key) == Binding(target, key))
  }

  /** The route keys are exactly the target; every other key as before. */
  ghost predicate Rebuilt(before: Kv, kv: Kv, target: map<string, RouteValue>) {
    forall key :: Find(kv, key) == if IsRouteKey(key) then Binding(target, key) else Find(before, key)
  }

  function RevokeKv(kv: Kv, key: string, minIat: int, readOk: bool): Kv {
    if readOk && key in kv && kv[key].Revoked? && kv[key].minIat >= minIat then kv
    else kv[key := Revoked(minIat)]
  }

  function SetStatusKv(kv: Kv, org: string, status: string): Kv {
    if status == "" || status == "active" then kv - {OrgStatusKey(org)} else kv[OrgStatusKey(org) := Status(status)]
  }

  /** What an operation does to the namespace when every call is acknowledged. */
  ghost predicate RemoteStep(isTime: string -> bool, kv: Kv, op: Op, kv': Kv) {
    if !Accepts(isTime, op) then kv' == kv
    else match op
      case PutOp(host, v) => kv' == kv[RouteKey(host) := Route(v)]
      case DeleteOp(host) => kv' == kv - {RouteKey(host)}
      case RebuildOp(target) => Rebuilt(kv, kv', target)
      case RevokeOp(kind, id, minIat) => kv' == RevokeKv(kv, RevokedKey(kind, id), minIat, true)
      case StatusOp(org, status) => kv' == SetStatusKv(kv, org, status)
  }

  /** One call with its fate: a revoke's read may fail, and a failed write may have landed. */
  datatype Event = Other(op: Op) | RevokeCall(kind: Kind, id: string, minIat: int, readOk: bool, landed: bool)

  /** A rebuild that was stopped by a failing call. */
  ghost predicate InPart(isTime: string -> bool, kv: Kv, op: Op, kv': Kv) {
    op.RebuildOp? && Accepts(isTime, op) && Between(kv, kv', op.target)
  }

  /** A call that is not a revocation takes effect, or not, or if it is a rebuild in part. */
  ghost predicate Happens(isTime: string -> bool, kv: Kv, e: Event, kv': Kv) {
    match e
    case RevokeCall(kind, id, minIat, readOk, landed) =>
      kv' == if MayRevoke(kind, id, minIat) && landed then RevokeKv(kv, RevokedKey(kind, id), minIat, readOk) else kv
    case Other(op) =>
      !op.RevokeOp? && (kv' == kv || RemoteStep(isTime, kv, op, kv') || InPart(isTime, kv, op, kv'))
  }

  /** What the list API may answer: the keys under a prefix, in pages of any length. */
  ghost predicate IsListing(kv: Kv, prefix: string, pages: seq<seq<string>>) {
    pages != [] && forall key :: key in Flatten(pages) <==> key in kv && prefix <= key
  }

  class CloudflareKV {
    const isTime: string -> bool
    var kv: Kv

    constructor (isTime: string -> bool)
      ensures this.isTime == isTime && kv == map[]
    {
      this.isTime := isTime;
      kv := map[];
    }

    /** Follow the cursor from page to page: every key under the prefix, or a failed call. */
    method ListKeys(prefix: string, pages: seq<seq<string>>, calls: nat) returns (keys: Option<seq<string>>, left: nat)
      requires IsListing(kv, prefix, pages)
      ensures keys.Some? ==> keys.value == Flatten(pages)
      ensures keys.Some? ==> forall key :: key in keys.value <==> key in kv && prefix <= key
      ensures keys.Some? <==> calls >= |pages|
      ensures left == if keys.Some? then calls - |pages| else 0
    {
      var found: seq<string> := [];
      var cursor := 0;
      left := calls;
      while true
        invariant cursor < |pages| && found == Flatten(pages[..cursor]) && calls == left + cursor
        decreases |pages| - cursor
      {
        if left == 0 { return None, 0; }
        left := left - 1;
        assert pages[..cursor + 1][..cursor] == pages[..cursor];
        found := found + pages[cursor];
        cursor := cursor + 1;
        if cursor == |pages| {
          assert pages[..cursor] == pages;
          return Some(found), left;
        }
      }
    }

    method Put(key: string, v: Value, reply: Reply) returns (ok: bool)
      modifies this`kv
      ensures ok <==> reply == Acked
      ensures kv == if reply == Lost(false) then old(kv) else old(kv)[key := v]
    {
      if reply != Lost(false) { kv := kv[key := v]; }
      ok := reply == Acked;
    }

    method Delete(key: string, reply: Reply) returns (ok: bool)
      modifies this`kv
      ensures ok <==> reply == Acked
      ensures kv == if reply == Lost(false) then old(kv) else old(kv) - {key}
    {
      if reply != Lost(false) { kv := kv - {key}; }
      ok := reply == Acked;
    }

    method PutRoute(host: string, v: RouteValue, reply: Reply) returns (ok: bool)
      modifies this`kv
      ensures ok <==> Accepts(isTime, PutOp(host, v)) && reply == Acked
      ensures ok || !Accepts(isTime, PutOp(host, v)) || reply == Lost(true) ==>
        RemoteStep(isTime, old(kv), PutOp(host, v), kv)
      ensures reply == Lost(false) ==> kv == old(kv)
      ensures Happens(isTime, old(kv), Other(PutOp(host, v)), kv)
    {
      if !ValidRoute(isTime, v) { return false; }
      ok := Put(RouteKey(host), Route(v), reply);
    }

    method DeleteRoute(host: string, reply: Reply) returns (ok: bool)
      modifies this`kv
      ensures ok <==> reply == Acked
      ensures reply != Lost(false) ==> RemoteStep(isTime, old(kv), DeleteOp(host), kv)
      ensures Happens(isTime, old(kv), Other(DeleteOp(host)), kv)
    {
      ok := Delete(RouteKey(host), reply);
    }

    /** `readOk` and `reply` are the fates of the read and of the write, if one is made. */
    method RevokeSubject(kind: Kind, id: string, minIat: int, readOk: bool, reply: Reply) returns (ok: bool)
      modifies this`kv
      ensures ok ==> Accepts(isTime, RevokeOp(kind, id, minIat))
      ensures Accepts(isTime, RevokeOp(kind, id, minIat)) && reply == Acked ==> ok
      ensures ok && readOk ==> RemoteStep(isTime, old(kv), RevokeOp(kind, id, minIat), kv)
      ensures Happens(isTime, old(kv), RevokeCall(kind, id, minIat, readOk, ok || reply != Lost(false)), kv)
    {
      if kind.Unknown? || id == "" || minIat <= 0 { return false; }
      var key := RevokedKey(kind, id);
      if readOk && key in kv && kv[key].Revoked? && kv[key].minIat >= minIat { return true; }
      ok := Put(key, Revoked(minIat), reply);
    }

    method SetStatus(org: string, status: string, reply: Reply) returns (ok: bool)
      modifies this`kv
      ensures ok <==> Accepts(isTime, StatusOp(org, status)) && reply == Acked
      ensures ok || org == "" ==> RemoteStep(isTime, old(kv), StatusOp(org, status), kv)
      ensures Happens(isTime, old(kv), Other(StatusOp(org, status)), kv)
    {
      if org == "" { return false; }
      if status == "" || status == "active" {
        ok := Delete(OrgStatusKey(org), reply);
      } else {
        ok := Put(OrgStatusKey(org), Status(status), reply);
      }
    }

    /** The fate of the next call, `left` calls before the one that fails. */
    function Fate(left: nat, landed: bool): Reply { if left > 0 then Acked else Lost(landed) }

    /**
     * Replace the route keys by `target`. The first `calls` API calls succeed and the
     * next one fails, its write landed or not; `pages` is how the server lists the keys.
     */
    method RebuildFromDB(
      target: map<string, RouteValue>, pages: seq<seq<string>>, calls: nat, landed: bool) returns (ok: bool)
      requires IsListing(kv, "route:", pages)
      modifies this`kv
      ensures ok || !Accepts(isTime, RebuildOp(target)) ==> RemoteStep(isTime, old(kv), RebuildOp(target), kv)
      ensures ok ==> Accepts(isTime, RebuildOp(target))
      ensures Happens(isTime, old(kv), Other(RebuildOp(target)), kv)
      ensures Between(old(kv), kv, target)
      ensures AllValid(isTime, target) && calls >= |pages| + |Flatten(pages)| + |target| ==> ok
    {
      // Validate everything before any destructive call.
      var hosts := target.Keys;
      while hosts != {}
        invariant hosts <= target.Keys
        invariant forall h :: h in target.Keys - hosts ==> ValidRoute(isTime, target[h])
      {
        var host :| host in hosts;
        if !ValidRoute(isTime, target[host]) { return false; }
        hosts := hosts - {host};
      }
      var listed, left := ListKeys("route:", pages, calls);
      if listed.None? { return false; }
      ok, left := Prune(target, listed.value, left, landed);
      if ok {
        ghost var pruned, rest := kv, {};
        ok, rest := PutAll(target, left, landed);
        PrunedAndPut(old(kv), pruned, kv, target, rest);
      }
    }

    method Prune(target: map<string, RouteValue>, existing: seq<string>, calls: nat, landed: bool)
      returns (ok: bool, left: nat)
      requires forall key :: key in existing <==> key in kv && IsRouteKey(key)
      modifies this`kv
      ensures Between(old(kv), kv, target)
      ensures ok ==> forall key :: IsRouteKey(key) && Binding(target, key).None? ==> key !in kv
      ensures left <= calls && (ok ==> calls <= left + |existing|) && (calls >= |existing| ==> ok)
    {
      left := calls;
      for i := 0 to |existing|
        invariant left <= calls <= left + i
        invariant Between(old(kv), kv, target)
        invariant forall key :: key in kv ==> key in old(kv)
        invariant forall j :: 0 <= j < i && Binding(target, existing[j]).None? ==> existing[j] !in kv
      {
        var key := existing[i];
        assert key in existing;
        if Binding(target, key).Some? { continue; }
        ok := Delete(key, Fate(left, landed));
        if !ok { return false, left; }
        left := left - 1;
      }
      ok := true;
    }

    method PutAll(target: map<string, RouteValue>, calls: nat, landed: bool) returns (ok: bool, ghost rest: set<string>)
      requires AllValid(isTime, target)
      modifies this`kv
      ensures PutExcept(old(kv), kv, target, rest) && (ok ==> rest == {})
      ensures calls >= |target| ==> ok
    {
      var left: nat := calls;
      var hosts := target.Keys;
      while hosts != {}
        invariant hosts <= target.Keys && left <= calls && calls == left + |target.Keys| - |hosts|
        invariant PutExcept(old(kv), kv, target, hosts)
      {
        var host :| host in hosts;
        PutOneMore(old(kv), kv, target, hosts, host);
        ok := PutRoute(host, target[host], Fate(left, landed));
        if !ok { return false, if landed then hosts - {host} else hosts; }
        left := left - 1;
        hosts := hosts - {host};
      }
      return true, {};
    }
  }

  /** Every host of the target is put but those in `rest`. */
  ghost predicate PutExcept(before: Kv, kv: Kv, target: map<string, RouteValue>, rest: set<string>) {
    forall key :: Find(kv, key)
      == if Binding(target, key).Some? && key[6..] !in rest then Binding(target, key) else Find(before, key)
  }

  lemma PutOneMore(before: Kv, kv: Kv, target: map<string, RouteValue>, rest: set<string>, host: string)
    requires host in rest && host in target && PutExcept(before, kv, target, rest)
    ensures PutExcept(before, kv[RouteKey(host) := Route(target[host])], target, rest - {host})
  {
    var kv' := kv[RouteKey(host) := Route(target[host])];
    BindingOfHost(target, host);
    forall key ensures Find(kv', key)
      == if Binding(target, key).Some? && key[6..] !in rest - {host} then Binding(target, key) else Find(before, key)
    {
      if Binding(target, key).Some? { RouteKeysAreRoutes(key); }
    }
  }

  /** Pruning and then putting, stopped anywhere, stays between; finished, it is the target. */
  lemma PrunedAndPut(before: Kv, pruned: Kv, kv: Kv, target: map<string, RouteValue>, rest: set<string>)
    requires Between(before, pruned, target) && PutExcept(pruned, kv, target, rest)
    ensures Between(before, kv, target)
    ensures rest == {} && (forall key :: IsRouteKey(key) && Binding(target, key).None? ==> key !in pruned) ==>
      Rebuilt(before, kv, target)
  {
    forall key
      ensures Find(kv, key) == Find(before, key) || (IsRouteKey(key) && Find(kv, key) == Binding(target, key))
    {
      assert Find(pruned, key) == Find(before, key) || (IsRouteKey(key) && Find(pruned, key) == Binding(target, key));
    }
  }
}

/** The remote writer refines the local one, and what no later operation can undo. */
module ProjectionRuns {
  import opened Bytes
  import opened EdgeKeys
  import opened LocalProjection
  import opened RemoteProjection

  function AsRoute(v: Option<RouteValue>): Option<Value> { if v.Some? then Some(Route(v.value)) else None }
  function AsRevoked(v: Option<int>): Option<Value> { if v.Some? then Some(Revoked(v.value)) else None }
  function AsStatus(v: Option<string>): Option<Value> { if v.Some? then Some(Status(v.value)) else None }

  ghost predicate RoutesMatch(kv: Kv, m: Maps) {
    forall host :: Find(kv, RouteKey(host)) == AsRoute(Find(m.routes, host))
  }
  ghost predicate RevokedMatch(kv: Kv, m: Maps) {
    forall kind: Kind, id :: !kind.Unknown? ==>
      Find(kv, RevokedKey(kind, id)) == AsRevoked(Find(m.revoked, RevokedKey(kind, id)))
  }
  ghost predicate StatusMatch(kv: Kv, m: Maps) {
    forall org :: Find(kv, OrgStatusKey(org)) == AsStatus(Find(m.orgStatus, org))
  }

  /** The namespace holds the three maps, family by family. */
  ghost predicate Refines(kv: Kv, m: Maps) { RoutesMatch(kv, m) && RevokedMatch(kv, m) && StatusMatch(kv, m) }

  /** What leaves the other two families alone leaves them matching. */
  lemma OthersMatch(kv: Kv, kv': Kv, m: Maps, m': Maps)
    requires RevokedMatch(kv, m) && StatusMatch(kv, m) && m'.revoked == m.revoked && m'.orgStatus == m.orgStatus
    requires forall key :: !IsRouteKey(key) ==> Find(kv', key) == Find(kv, key)
    ensures RevokedMatch(kv', m') && StatusMatch(kv', m')
  {
    forall kind: Kind, id | !kind.Unknown?
      ensures Find(kv', RevokedKey(kind, id)) == AsRevoked(Find(m'.revoked, RevokedKey(kind, id)))
    {
      FamiliesAreDisjoint("", "", kind, id);
    }
    forall org ensures Find(kv', OrgStatusKey(org)) == AsStatus(Find(m'.orgStatus, org)) {
      FamiliesAreDisjoint("", org, User, "");
    }
  }

  lemma OneRouteRefines(kv: Kv, m: Maps, host: string, v: Option<RouteValue>)
    requires Refines(kv, m)
    ensures v.Some? ==> Refines(kv[RouteKey(host) := Route(v.value)], m.(routes := m.routes[host := v.value]))
    ensures v.None? ==> Refines(kv - {RouteKey(host)}, m.(routes := m.routes - {host}))
  {
    var kv' := if v.Some? then kv[RouteKey(host) := Route(v.value)] else kv - {RouteKey(host)};
    var m' := m.(routes := if v.Some? then m.routes[host := v.value] else m.routes - {host});
    forall h ensures Find(kv', RouteKey(h)) == AsRoute(Find(m'.routes, h)) {
      if RouteKey(h) == RouteKey(host) { RouteKeysAreInjective(h, host); }
    }
    FamiliesAreDisjoint(host, "", User, "");
    OthersMatch(kv, kv', m, m');
  }

  lemma RebuildRefines(kv: Kv, kv': Kv, m: Maps, target: map<string, RouteValue>)
    requires Refines(kv, m) && Rebuilt(kv, kv', target)
    ensures Refines(kv', m.(routes := target))
  {
    forall host ensures Find(kv', RouteKey(host)) == AsRoute(Find(target, host)) {
      FamiliesAreDisjoint(host, "", User, "");
      assert RouteKey(host)[6..] == host;
    }
    OthersMatch(kv, kv', m, m.(routes := target));
  }

  lemma RouteStepRefines(isTime: string -> bool, kv: Kv, op: Op, kv': Kv, m: Maps)
    requires Refines(kv, m) && RemoteStep(isTime, kv, op, kv') && !op.RevokeOp? && !op.StatusOp?
    ensures Refines(kv', LocalStep(isTime, m, op))
  {
    if Accepts(isTime, op) {
      match op
      case PutOp(host, v) => OneRouteRefines(kv, m, host, Some(v));
      case DeleteOp(host) => OneRouteRefines(kv, m, host, None);
      case RebuildOp(target) => RebuildRefines(kv, kv', m, target);
    }
  }

  lemma RevokeStepRefines(isTime: string -> bool, kv: Kv, op: Op, kv': Kv, m: Maps)
    requires Refines(kv, m) && RemoteStep(isTime, kv, op, kv') && op.RevokeOp? && MayRevoke(op.kind, op.id, op.minIat)
    ensures Refines(kv', LocalStep(isTime, m, op))
  {
    var m', key := LocalStep(isTime, m, op), RevokedKey(op.kind, op.id);
    assert Find(kv, key) == AsRevoked(Find(m.revoked, key));
    forall host ensures Find(kv', RouteKey(host)) == AsRoute(Find(m'.routes, host)) {
      FamiliesAreDisjoint(host, "", op.kind, op.id);
    }
    forall org ensures Find(kv', OrgStatusKey(org)) == AsStatus(Find(m'.orgStatus, org)) {
      FamiliesAreDisjoint("", org, op.kind, op.id);
    }
  }

  lemma StatusStepRefines(isTime: string -> bool, kv: Kv, op: Op, kv': Kv, m: Maps)
    requires Refines(kv, m) && RemoteStep(isTime, kv, op, kv') && op.StatusOp? && op.org != ""
    ensures Refines(kv', LocalStep(isTime, m, op))
  {
    StatusRefines(kv, kv', m, LocalStep(isTime, m, op), op.org);
  }

  lemma StatusRefines(kv: Kv, kv': Kv, m: Maps, m': Maps, org: string)
    requires Refines(kv, m) && m'.routes == m.routes && m'.revoked == m.revoked
    requires forall key :: key != OrgStatusKey(org) ==> Find(kv', key) == Find(kv, key)
    requires forall o :: o != org ==> Find(m'.orgStatus, o) == Find(m.orgStatus, o)
    requires Find(kv', OrgStatusKey(org)) == AsStatus(Find(m'.orgStatus, org))
    ensures Refines(kv', m')
  {
    forall host ensures Find(kv', RouteKey(host)) == AsRoute(Find(m'.routes, host)) {
      FamiliesAreDisjoint(host, org, User, "");
    }
    forall kind: Kind, id | !kind.Unknown?
      ensures Find(kv', RevokedKey(kind, id)) == AsRevoked(Find(m'.revoked, RevokedKey(kind, id)))
    {
      FamiliesAreDisjoint("", org, kind, id);
    }
    forall o ensures Find(kv', OrgStatusKey(o)) == AsStatus(Find(m'.orgStatus, o)) {
      if OrgStatusKey(o) == OrgStatusKey(org) { StatusKeysAreInjective(o, org); }
    }
  }

  lemma StepRefines(isTime: string -> bool, kv: Kv, op: Op, kv': Kv, m: Maps)
    requires Refines(kv, m) && RemoteStep(isTime, kv, op, kv')
    ensures Refines(kv', LocalStep(isTime, m, op))
  {
    if op.RevokeOp? {
      if MayRevoke(op.kind, op.id, op.minIat) { RevokeStepRefines(isTime, kv, op, kv', m); }
    } else if op.StatusOp? {
      if op.org != "" { StatusStepRefines(isTime, kv, op, kv', m); }
    } else {
      RouteStepRefines(isTime, kv, op, kv', m);
    }
  }

  function LocalRun(isTime: string -> bool, m: Maps, ops: seq<Op>): Maps {
    if ops == [] then m else LocalStep(isTime, LocalRun(isTime, m, ops[..|ops| - 1]), ops[|ops| - 1])
  }

  /** Over any run of acknowledged operations the two writers hold the same projection. */
  lemma {:induction false} RemoteRefinesLocal(isTime: string -> bool, states: seq<Kv>, ops: seq<Op>, m: Maps)
    requires |states| == |ops| + 1 && Refines(states[0], m)
    requires forall i :: 0 <= i < |ops| ==> RemoteStep(isTime, states[i], ops[i], states[i + 1])
    ensures Refines(states[|ops|], LocalRun(isTime, m, ops))
  {
    if ops != [] {
      var n := |ops| - 1;
      RemoteRefinesLocal(isTime, states[..n + 1], ops[..n], m);
      StepRefines(isTime, states[n], ops[n], states[n + 1], LocalRun(isTime, m, ops[..n]));
    }
  }

  /** A rebuild stopped anywhere and run again to the end is the in-memory rebuild. */
  lemma RerunCompletes(isTime: string -> bool, kv: Kv, stopped: Kv, done: Kv, target: map<string, RouteValue>, m: Maps)
    requires Refines(kv, m) && AllValid(isTime, target)
    requires Between(kv, stopped, target) && Rebuilt(stopped, done, target)
    ensures Rebuilt(kv, done, target)
    ensures Refines(done, LocalStep(isTime, m, RebuildOp(target)))
  {
    forall key ensures Find(done, key) == if IsRouteKey(key) then Binding(target, key) else Find(kv, key) {
      assert Find(stopped, key) == Find(kv, key) || IsRouteKey(key);
    }
    StepRefines(isTime, kv, RebuildOp(target), done, m);
  }

  // ---- The denylist ------------------------------------------------------------

  /** The stored bound, or 0 where there is none. */
  function MinIat(kv: Kv, kind: Kind, id: string): int {
    var key := RevokedKey(kind, id);
    if key in kv && kv[key].Revoked? then kv[key].minIat else 0
  }

  predicate On(e: Event, kind: Kind, id: string) {
    e.RevokeCall? && e.kind == kind && e.id == id && MayRevoke(kind, id, e.minIat) && e.landed
  }

  lemma OthersLeaveDenylist(isTime: string -> bool, kv: Kv, e: Event, kv': Kv, kind: Kind, id: string)
    requires Happens(isTime, kv, e, kv') && !kind.Unknown? && !On(e, kind, id)
    ensures MinIat(kv', kind, id) == MinIat(kv, kind, id)
  {
    var key := RevokedKey(kind, id);
    match e
    case RevokeCall(kind', id', minIat, _, landed) =>
      if MayRevoke(kind', id', minIat) && landed && RevokedKey(kind', id') == key {
        RevokedKeysAreInjective(kind', id', kind, id);
      }
    case Other(PutOp(host, _)) => FamiliesAreDisjoint(host, "", kind, id);
    case Other(DeleteOp(host)) => FamiliesAreDisjoint(host, "", kind, id);
    case Other(RebuildOp(target)) =>
      FamiliesAreDisjoint("", "", kind, id);
      assert Find(kv', key) == Find(kv, key);
    case Other(StatusOp(org, _)) => FamiliesAreDisjoint("", org, kind, id);
  }

  /**
   * A landed revocation keeps the larger bound exactly when its read succeeded or its
   * bound is not below the stored one; otherwise the denylist loosens.
   */
  lemma RevokeKeepsMaxExactly(isTime: string -> bool, kv: Kv, e: Event, kv': Kv, kind: Kind, id: string)
    requires Happens(isTime, kv, e, kv') && On(e, kind, id)
    ensures MinIat(kv', kind, id) == Max(MinIat(kv, kind, id), e.minIat)
       <==> e.readOk || MinIat(kv, kind, id) <= e.minIat
  {
  }

  /** The largest bound that landed for a subject, from a stored one on. */
  function MaxLanded(start: int, events: seq<Event>, kind: Kind, id: string): (max: int)
    ensures max >= start
    ensures forall i :: 0 <= i < |events| && On(events[i], kind, id) ==> events[i].minIat <= max
  {
    if events == [] then start
    else
      var front, e := MaxLanded(start, events[..|events| - 1], kind, id), events[|events| - 1];
      assert forall i :: 0 <= i < |events| - 1 ==> events[..|events| - 1][i] == events[i];
      if On(e, kind, id) then Max(front, e.minIat) else front
  }

  /** Reads succeed, or the caller's bounds do not go down. */
  predicate Careful(start: int, events: seq<Event>, kind: Kind, id: string) {
    forall i :: 0 <= i < |events| && On(events[i], kind, id) ==>
      events[i].readOk || MaxLanded(start, events[..i], kind, id) <= events[i].minIat
  }

  ghost predicate IsRun(isTime: string -> bool, states: seq<Kv>, events: seq<Event>) {
    |states| == |events| + 1 && forall i :: 0 <= i < |events| ==> Happens(isTime, states[i], events[i], states[i + 1])
  }

  lemma CarefulPrefix(start: int, events: seq<Event>, n: nat, kind: Kind, id: string)
    requires n <= |events| && Careful(start, events, kind, id)
    ensures Careful(start, events[..n], kind, id)
  {
    forall i | 0 <= i < n && On(events[..n][i], kind, id)
      ensures events[..n][i].readOk || MaxLanded(start, events[..n][..i], kind, id) <= events[..n][i].minIat
    {
      assert events[..n][..i] == events[..i];
    }
  }

  /** Then after any run the stored bound is the largest that landed, in whatever order they came. */
  lemma {:induction false} DenylistIsMax(
    isTime: string -> bool, states: seq<Kv>, events: seq<Event>, kind: Kind, id: string)
    requires IsRun(isTime, states, events) && !kind.Unknown? && Careful(MinIat(states[0], kind, id), events, kind, id)
    ensures MinIat(states[|events|], kind, id) == MaxLanded(MinIat(states[0], kind, id), events, kind, id)
  {
    if events != [] {
      var n := |events| - 1;
      CarefulPrefix(MinIat(states[0], kind, id), events, n, kind, id);
      DenylistIsMax(isTime, states[..n + 1], events[..n], kind, id);
      if On(events[n], kind, id) {
        RevokeKeepsMaxExactly(isTime, states[n], events[n], states[n + 1], kind, id);
      } else {
        OthersLeaveDenylist(isTime, states[n], events[n], states[n + 1], kind, id);
      }
    }
  }

  /** The reader's rule: any of the three subjects revoked after the token was issued. */
  predicate Rejected(kv: Kv, user: string, site: string, org: string, iat: nat) {
    MinIat(kv, User, user) > iat || MinIat(kv, Site, site) > iat || MinIat(kv, Org, org) > iat
  }

  /** A token once rejected stays rejected through every later operation. */
  lemma RejectedStaysRejected(
    isTime: string -> bool, states: seq<Kv>, events: seq<Event>, user: string, site: string, org: string, iat: nat)
    requires IsRun(isTime, states, events) && Rejected(states[0], user, site, org, iat)
    requires Careful(MinIat(states[0], User, user), events, User, user)
    requires Careful(MinIat(states[0], Site, site), events, Site, site)
    requires Careful(MinIat(states[0], Org, org), events, Org, org)
    ensures Rejected(states[|events|], user, site, org, iat)
  {
    DenylistIsMax(isTime, states, events, User, user);
    DenylistIsMax(isTime, states, events, Site, site);
    DenylistIsMax(isTime, states, events, Org, org);
  }

  /** A user revoked at 20, and again at 10 with a read that fails: a token of 15 is let back in. */
  lemma DenylistLoosens(isTime: string -> bool) returns (kv: Kv, e: Event, kv': Kv)
    ensures Happens(isTime, kv, e, kv') && e.RevokeCall? && e.landed && !e.readOk
    ensures Rejected(kv, "u", "s", "o", 15) && !Rejected(kv', "u", "s", "o", 15)
  {
    var key := RevokedKey(User, "u");
    kv, e, kv' := map[key := Revoked(20)], RevokeCall(User, "u", 10, false, true), map[key := Revoked(10)];
    assert kv' == kv[key := Revoked(10)];
    OnlyThisSubject(kv', "s", "o");
  }

  lemma OnlyThisSubject(kv: Kv, site: string, org: string)
    requires kv.Keys == {RevokedKey(User, "u")}
    ensures MinIat(kv, Site, site) == 0 && MinIat(kv, Org, org) == 0
  {
    if RevokedKey(Site, site) in kv { RevokedKeysAreInjective(Site, site, User, "u"); }
    if RevokedKey(Org, org) in kv { RevokedKeysAreInjective(Org, org, User, "u"); }
  }

  // ---- Exactly when rejections last --------------------------------------------

  /** The event does not lower its subject's bound. */
  predicate Tightens(kv: Kv, e: Event) {
    e.RevokeCall? && On(e, e.kind, e.id) ==> e.readOk || MinIat(kv, e.kind, e.id) <= e.minIat
  }

  lemma BoundStep(isTime: string -> bool, kv: Kv, e: Event, kv': Kv, kind: Kind, id: string)
    requires Happens(isTime, kv, e, kv') && !kind.Unknown? && Tightens(kv, e)
    ensures MinIat(kv', kind, id) >= MinIat(kv, kind, id)
  {
    if On(e, kind, id) {
      RevokeKeepsMaxExactly(isTime, kv, e, kv', kind, id);
    } else {
      OthersLeaveDenylist(isTime, kv, e, kv', kind, id);
    }
  }

  /** Whoever is rejected in the first state is rejected in the second. */
  ghost predicate KeepsRejecting(kv: Kv, kv': Kv) {
    forall user, site, org, iat: nat :: Rejected(kv, user, site, org, iat) ==> Rejected(kv', user, site, org, iat)
  }

  lemma LongerThanAll(keys: set<string>) returns (n: nat)
    ensures forall key :: key in keys ==> |key| < n
  {
    if keys == {} {
      n := 0;
    } else {
      var key :| key in keys;
      var m := LongerThanAll(keys - {key});
      n := if m > |key| then m else |key| + 1;
    }
  }

  /** Some id nobody has revoked, as a user, as a site or as an organisation. */
  lemma FreshId(kv: Kv) returns (id: string)
    ensures forall kind: Kind :: RevokedKey(kind, id) !in kv
  {
    var n := LongerThanAll(kv.Keys);
    id := seq(n, _ => 'x');
    forall kind: Kind ensures RevokedKey(kind, id) !in kv { assert |RevokedKey(kind, id)| >= n; }
  }

  /** The token of the loosened subject and of two subjects nobody revoked. */
  lemma LooseningLetsIn(isTime: string -> bool, kv: Kv, e: Event, kv': Kv)
    requires Happens(isTime, kv, e, kv') && !Tightens(kv, e)
    ensures !KeepsRejecting(kv, kv')
  {
    var x := FreshId(kv);
    var user := if e.kind == User then e.id else x;
    var site := if e.kind == Site then e.id else x;
    var org := if e.kind == Org then e.id else x;
    var iat: nat := MinIat(kv, e.kind, e.id) - 1;
    Lowered(kv, e, kv', User, user, x);
    Lowered(kv, e, kv', Site, site, x);
    Lowered(kv, e, kv', Org, org, x);
    assert Rejected(kv, user, site, org, iat) && !Rejected(kv', user, site, org, iat);
  }

  lemma Lowered(kv: Kv, e: Event, kv': Kv, kind: Kind, id: string, x: string)
    requires e.RevokeCall? && On(e, e.kind, e.id) && MinIat(kv, e.kind, e.id) > e.minIat
    requires kv' == kv[RevokedKey(e.kind, e.id) := Revoked(e.minIat)]
    requires !kind.Unknown? && id == (if kind == e.kind then e.id else x) && RevokedKey(kind, x) !in kv
    ensures MinIat(kv', kind, id) <= e.minIat
  {
    if kind != e.kind && RevokedKey(kind, id) == RevokedKey(e.kind, e.id) {
      RevokedKeysAreInjective(kind, id, e.kind, e.id);
    }
  }

  lemma {:induction false} BoundsRise(
    isTime: string -> bool, states: seq<Kv>, events: seq<Event>, i: nat, j: nat, kind: Kind, id: string)
    requires IsRun(isTime, states, events) && i <= j <= |events| && !kind.Unknown?
    requires forall n :: 0 <= n < |events| ==> Tightens(states[n], events[n])
    ensures MinIat(states[j], kind, id) >= MinIat(states[i], kind, id)
    decreases j
  {
    if i < j {
      BoundsRise(isTime, states, events, i, j - 1, kind, id);
      BoundStep(isTime, states[j - 1], events[j - 1], states[j], kind, id);
    }
  }

  /**
   * Over any run: every token once rejected is rejected at every later step exactly when each
   * revocation that landed had read successfully, or was not below the bound then stored.
   */
  lemma RejectionsLastExactly(isTime: string -> bool, states: seq<Kv>, events: seq<Event>)
    requires IsRun(isTime, states, events)
    ensures (forall i, j :: 0 <= i <= j <= |events| ==> KeepsRejecting(states[i], states[j]))
       <==> (forall n :: 0 <= n < |events| ==> Tightens(states[n], events[n]))
  {
    if forall n :: 0 <= n < |events| ==> Tightens(states[n], events[n]) {
      forall i, j | 0 <= i <= j <= |events| ensures KeepsRejecting(states[i], states[j]) {
        forall user, site, org, iat: nat | Rejected(states[i], user, site, org, iat)
          ensures Rejected(states[j], user, site, org, iat)
        {
          BoundsRise(isTime, states, events, i, j, User, user);
          BoundsRise(isTime, states, events, i, j, Site, site);
          BoundsRise(isTime, states, events, i, j, Org, org);
        }
      }
    } else {
      var n :| 0 <= n < |events| && !Tightens(states[n], events[n]);
      LooseningLetsIn(isTime, states[n], events[n], states[n + 1]);
    }
  }
}
