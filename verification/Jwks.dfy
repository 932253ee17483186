/**
 * The JWKS cache of internal/auth/jwks.go. Verifications run concurrently and meet
 * only at the mutex: each step below is one critical section, or the fetch between two.
 *
 * HTTP, JSON and base64 decoding are parameters, and the clock never goes back.
 */
module Jwks {
  import opened Bytes

  type Key = seq<byte>

  datatype Jwk = Jwk(kty: string, crv: string, kid: string, x: string)

  /** Base64url decoding. */
  type Decoder = string -> Option<seq<byte>>

  predicate Usable(decode: Decoder, k: Jwk) {
    k.kty == "OKP" && k.crv == "Ed25519" && k.kid != "" && decode(k.x).Some? && |decode(k.x).value| == 32
  }

  /** The usable keys of a document, a later one replacing an earlier of the same id. */
  function KeysOf(decode: Decoder, doc: seq<Jwk>): map<string, Key> {
    if doc == [] then map[]
    else
      var front, k := KeysOf(decode, doc[..|doc| - 1]), doc[|doc| - 1];
      if Usable(decode, k) then front[k.kid := decode(k.x).value] else front
  }

  method CollectKeys(decode: Decoder, doc: seq<Jwk>) returns (keys: map<string, Key>)
    ensures keys == KeysOf(decode, doc)
  {
    keys := map[];
    for i := 0 to |doc|
      invariant keys == KeysOf(decode, doc[..i])
    {
      var k := doc[i];
      assert doc[..i + 1][..i] == doc[..i];
      if k.kty != "OKP" || k.crv != "Ed25519" || k.kid == "" { continue; }
      var raw := decode(k.x);
      if raw.None? || |raw.value| != 32 { continue; }
      keys := keys[k.kid := raw.value];
    }
    assert doc[..|doc|] == doc;
  }

  /** Entry `i` of the document is usable, and no later usable entry has its id. */
  predicate IsLast(decode: Decoder, doc: seq<Jwk>, kid: string, i: int) {
    && 0 <= i < |doc| && Usable(decode, doc[i]) && doc[i].kid == kid
    && forall j :: i < j < |doc| ==> !(Usable(decode, doc[j]) && doc[j].kid == kid)
  }

  /** An id is cached exactly when some usable entry has it, with the key of the last such entry. */
  lemma {:induction false} KeysExactly(decode: Decoder, doc: seq<Jwk>, kid: string)
    ensures kid in KeysOf(decode, doc) <==> exists i :: IsLast(decode, doc, kid, i)
    ensures forall i :: IsLast(decode, doc, kid, i) ==> Find(KeysOf(decode, doc), kid) == decode(doc[i].x)
  {
    if doc != [] {
      var n := |doc| - 1;
      KeysExactly(decode, doc[..n], kid);
      if Usable(decode, doc[n]) && doc[n].kid == kid {
        assert IsLast(decode, doc, kid, n);
      } else {
        var front := doc[..n];
        SameLast(decode, doc, kid);
        if kid in KeysOf(decode, front) {
          var i :| IsLast(decode, front, kid, i);
          assert IsLast(decode, doc, kid, i);
        }
        forall i | IsLast(decode, doc, kid, i) ensures Find(KeysOf(decode, doc), kid) == decode(doc[i].x) {
          assert IsLast(decode, front, kid, i);
        }
      }
    }
  }

  lemma SameLast(decode: Decoder, doc: seq<Jwk>, kid: string)
    requires doc != []
    requires !Usable(decode, doc[|doc| - 1]) || doc[|doc| - 1].kid != kid
    ensures forall i :: IsLast(decode, doc, kid, i) <==> IsLast(decode, doc[..|doc| - 1], kid, i)
  {
    forall i ensures IsLast(decode, doc, kid, i) <==> IsLast(decode, doc[..|doc| - 1], kid, i) {
      var front := doc[..|doc| - 1];
      assert forall j :: 0 <= j < |front| ==> front[j] == doc[j];
    }
  }

  /** An Ed25519 key of the document with this id and thirty-two bytes. */
  predicate IsEd25519(decode: Decoder, k: Jwk, kid: string) {
    && k.kty == "OKP" && k.crv == "Ed25519" && k.kid == kid && kid != ""
    && decode(k.x).Some? && |decode(k.x).value| == 32
  }

  lemma {:induction false} SomeLast(decode: Decoder, doc: seq<Jwk>, kid: string, i: nat) returns (j: nat)
    requires i < |doc| && IsEd25519(decode, doc[i], kid)
    ensures IsLast(decode, doc, kid, j)
    decreases |doc| - i
  {
    if n :| i < n < |doc| && Usable(decode, doc[n]) && doc[n].kid == kid {
      j := SomeLast(decode, doc, kid, n);
    } else {
      j := i;
    }
  }

  /** Exactly the ids of the document's Ed25519 keys are cached, each with thirty-two bytes. */
  lemma CachedAreEd25519(decode: Decoder, doc: seq<Jwk>, kid: string)
    ensures kid in KeysOf(decode, doc) <==> exists i :: 0 <= i < |doc| && IsEd25519(decode, doc[i], kid)
    ensures kid in KeysOf(decode, doc) ==> kid != "" && |KeysOf(decode, doc)[kid]| == 32
  {
    KeysExactly(decode, doc, kid);
    if kid in KeysOf(decode, doc) {
      var i :| IsLast(decode, doc, kid, i);
      assert IsEd25519(decode, doc[i], kid);
      assert Find(KeysOf(decode, doc), kid) == decode(doc[i].x);
    }
    if i :| 0 <= i < |doc| && IsEd25519(decode, doc[i], kid) { var last := SomeLast(decode, doc, kid, i); }
  }

  // ---- The concurrent cache ----------------------------------------------------

  /** A call in progress. `who` is the key id to look up again, `None` for `Prime`, which forces its refresh. */
  datatype Call =
    | Verifying(kid: string)
    | AtGate(who: Option<string>)
    | Fetching(who: Option<string>)
    | Installing(who: Option<string>, keys: map<string, Key>)
    | Retrying(kid: string)
    | Found(kid: string, key: Key)
    | Ended

  datatype Fetch = Fetch(at: int, forced: bool)

  /** `fetches` and `documents` are the history: every fetch begun, every document decoded. */
  datatype State = State(
    now: int, keys: map<string, Key>, lastAttempt: Option<int>, calls: seq<Call>,
    fetches: seq<Fetch>, documents: seq<seq<Jwk>>)

  datatype Action =
    | Tick(elapsed: nat)
    | Verify(kid: string)
    | Prime
    /** Advance a call: `lag` is what passes between a gate's two clock reads. */
    | Step(i: nat, lag: nat, response: Option<seq<Jwk>>)

  const START := State(0, map[], None, [], [], [])

  function Exec(decode: Decoder, interval: int, s: State, a: Action): State {
    match a
    case Tick(elapsed) => s.(now := s.now + elapsed)
    case Verify(kid) => s.(calls := s.calls + [Verifying(kid)])
    case Prime => s.(calls := s.calls + [AtGate(None)])
    case Step(i, lag, response) => if i < |s.calls| then Advance(decode, interval, s, i, lag, response) else s
  }

  function Advance(decode: Decoder, interval: int, s: State, i: nat, lag: nat, response: Option<seq<Jwk>>): State
    requires i < |s.calls|
  {
    match s.calls[i]
    case Verifying(kid) =>
      s.(calls := s.calls[i := if kid in s.keys then Found(kid, s.keys[kid]) else AtGate(Some(kid))])
    case AtGate(kid) =>
      if kid.Some? && s.lastAttempt.Some? && s.now - s.lastAttempt.value < interval then
        s.(calls := s.calls[i := Retrying(kid.value)])
      else
        var at := s.now + lag;
        s.(now := at, lastAttempt := Some(at), calls := s.calls[i := Fetching(kid)],
           fetches := s.fetches + [Fetch(at, kid.None?)])
    case Fetching(kid) =>
      if response.None? then s.(calls := s.calls[i := Ended])
      else
        var keys := KeysOf(decode, response.value);
        var t := s.(documents := s.documents + [response.value]);
        if keys == map[] then t.(calls := s.calls[i := Ended])
        else t.(calls := s.calls[i := Installing(kid, keys)])
    case Installing(kid, keys) =>
      s.(keys := keys, calls := s.calls[i := if kid.Some? then Retrying(kid.value) else Ended])
    case Retrying(kid) =>
      s.(calls := s.calls[i := if kid in s.keys then Found(kid, s.keys[kid]) else Ended])
    case Found(_, _) => s
    case Ended => s
  }

  function Run(decode: Decoder, interval: int, actions: seq<Action>): State {
    if actions == [] then START
    else Exec(decode, interval, Run(decode, interval, actions[..|actions| - 1]), actions[|actions| - 1])
  }

  // ---- Provenance --------------------------------------------------------------

  /** Some decoded document has exactly these keys. */
  ghost predicate FromDocument(decode: Decoder, s: State, keys: map<string, Key>) {
    exists n :: 0 <= n < |s.documents| && KeysOf(decode, s.documents[n]) == keys
  }

  /** Some decoded document gives `kid` this key. */
  ghost predicate KeyFromDocument(decode: Decoder, s: State, kid: string, key: Key) {
    exists n :: 0 <= n < |s.documents| && Find(KeysOf(decode, s.documents[n]), kid) == Some(key)
  }

  ghost predicate CallInv(decode: Decoder, s: State, c: Call) {
    match c
    case Installing(_, keys) => keys != map[] && FromDocument(decode, s, keys)
    case Found(kid, key) => KeyFromDocument(decode, s, kid, key)
    case _ => true
  }

  ghost predicate KeysInv(decode: Decoder, s: State) {
    && (s.keys != map[] ==> FromDocument(decode, s, s.keys))
    && forall i :: 0 <= i < |s.calls| ==> CallInv(decode, s, s.calls[i])
  }

  lemma LaterKeepsCall(decode: Decoder, s: State, t: State, c: Call)
    requires CallInv(decode, s, c) && s.documents <= t.documents
    ensures CallInv(decode, t, c)
  {
    match c
    case Installing(_, keys) =>
      var n :| 0 <= n < |s.documents| && KeysOf(decode, s.documents[n]) == keys;
      assert t.documents[n] == s.documents[n];
    case Found(kid, key) =>
      var n :| 0 <= n < |s.documents| && Find(KeysOf(decode, s.documents[n]), kid) == Some(key);
      assert t.documents[n] == s.documents[n];
    case _ =>
  }

  lemma LaterKeepsKeys(decode: Decoder, s: State, t: State, keys: map<string, Key>)
    requires FromDocument(decode, s, keys) && s.documents <= t.documents
    ensures FromDocument(decode, t, keys)
  {
    var n :| 0 <= n < |s.documents| && KeysOf(decode, s.documents[n]) == keys;
    assert t.documents[n] == s.documents[n];
  }

  lemma LookupFromDocument(decode: Decoder, s: State, kid: string)
    requires KeysInv(decode, s) && kid in s.keys
    ensures KeyFromDocument(decode, s, kid, s.keys[kid])
  {
    var n :| 0 <= n < |s.documents| && KeysOf(decode, s.documents[n]) == s.keys;
    assert Find(KeysOf(decode, s.documents[n]), kid) == Some(s.keys[kid]);
  }

  lemma FetchFromDocument(decode: Decoder, s: State, doc: seq<Jwk>)
    requires s.documents != [] && s.documents[|s.documents| - 1] == doc
    ensures FromDocument(decode, s, KeysOf(decode, doc))
  {
    assert KeysOf(decode, s.documents[|s.documents| - 1]) == KeysOf(decode, doc);
  }

  /** The call an advance leaves behind is as the invariant asks. */
  lemma AdvancedCall(decode: Decoder, interval: int, s: State, i: nat, lag: nat, response: Option<seq<Jwk>>)
    requires KeysInv(decode, s) && i < |s.calls|
    ensures var t := Advance(decode, interval, s, i, lag, response);
      && s.documents <= t.documents && |t.calls| == |s.calls| && t.calls == s.calls[i := t.calls[i]]
      && CallInv(decode, t, t.calls[i]) && (t.keys != map[] ==> FromDocument(decode, t, t.keys))
      && (s.keys != map[] ==> t.keys != map[])
  {
    var t := Advance(decode, interval, s, i, lag, response);
    assert CallInv(decode, s, s.calls[i]);
    if s.keys != map[] { LaterKeepsKeys(decode, s, t, s.keys); }
    match s.calls[i]
    case Verifying(kid) => if kid in s.keys { LookupFromDocument(decode, s, kid); }
    case Retrying(kid) => if kid in s.keys { LookupFromDocument(decode, s, kid); }
    case Fetching(_) => if response.Some? { FetchFromDocument(decode, t, response.value); }
    case Installing(_, keys) => LaterKeepsKeys(decode, s, t, keys);
    case Found(_, _) => LaterKeepsCall(decode, s, t, s.calls[i]);
    case _ =>
  }

  lemma ExecKeepsKeys(decode: Decoder, interval: int, s: State, a: Action)
    requires KeysInv(decode, s)
    ensures var t := Exec(decode, interval, s, a);
      KeysInv(decode, t) && s.documents <= t.documents && (s.keys != map[] ==> t.keys != map[])
  {
    var t := Exec(decode, interval, s, a);
    if a.Step? && a.i < |s.calls| { AdvancedCall(decode, interval, s, a.i, a.lag, a.response); }
    if s.keys != map[] { LaterKeepsKeys(decode, s, t, s.keys); }
    forall j | 0 <= j < |t.calls| ensures CallInv(decode, t, t.calls[j]) {
      if j < |s.calls| && !(a.Step? && a.i == j) { LaterKeepsCall(decode, s, t, s.calls[j]); }
    }
  }

  /**
   * After any interleaving, successes and failures alike: the cached keys are those of
   * one decoded document, and a key handed to a verification is one such document's.
   */
  lemma {:induction false} KeysAreFromDocuments(decode: Decoder, interval: int, actions: seq<Action>)
    ensures KeysInv(decode, Run(decode, interval, actions))
  {
    if actions != [] {
      var n := |actions| - 1;
      KeysAreFromDocuments(decode, interval, actions[..n]);
      ExecKeepsKeys(decode, interval, Run(decode, interval, actions[..n]), actions[n]);
    }
  }

  /** Once the cache holds keys it never goes empty. */
  lemma {:induction false} NeverEmptyAgain(decode: Decoder, interval: int, actions: seq<Action>, n: nat)
    requires n <= |actions| && Run(decode, interval, actions[..n]).keys != map[]
    ensures Run(decode, interval, actions).keys != map[]
    decreases |actions|
  {
    if n == |actions| {
      assert actions[..n] == actions;
    } else {
      var last := |actions| - 1;
      assert actions[..last][..n] == actions[..n];
      NeverEmptyAgain(decode, interval, actions[..last], n);
      KeysAreFromDocuments(decode, interval, actions[..last]);
      ExecKeepsKeys(decode, interval, Run(decode, interval, actions[..last]), actions[last]);
    }
  }

  /** So a key handed to a verification, after any interleaving, is an Ed25519 key of some decoded document. */
  lemma FoundIsEd25519(decode: Decoder, interval: int, actions: seq<Action>, c: nat)
    requires var s := Run(decode, interval, actions); c < |s.calls| && s.calls[c].Found?
    ensures var s := Run(decode, interval, actions);
      var (kid, key) := (s.calls[c].kid, s.calls[c].key);
      && |key| == 32
      && exists n, i :: 0 <= n < |s.documents| && 0 <= i < |s.documents[n]| && IsEd25519(decode, s.documents[n][i], kid)
  {
    var s := Run(decode, interval, actions);
    KeysAreFromDocuments(decode, interval, actions);
    assert CallInv(decode, s, s.calls[c]);
    var kid, key := s.calls[c].kid, s.calls[c].key;
    var n :| 0 <= n < |s.documents| && Find(KeysOf(decode, s.documents[n]), kid) == Some(key);
    CachedAreEd25519(decode, s.documents[n], kid);
    var i :| 0 <= i < |s.documents[n]| && IsEd25519(decode, s.documents[n][i], kid);
  }

  // ---- Rotation ----------------------------------------------------------------

  function Steps(decode: Decoder, interval: int, s: State, i: nat, response: Option<seq<Jwk>>, n: nat): (t: State)
    requires i < |s.calls|
    ensures |t.calls| == |s.calls|
    decreases n
  {
    if n == 0 then s else Steps(decode, interval, Advance(decode, interval, s, i, 0, response), i, response, n - 1)
  }

  /** Whether the gate lets a verification fetch. */
  predicate GateOpen(s: State, interval: int) { s.lastAttempt.None? || s.now - s.lastAttempt.value >= interval }

  /** What an undisturbed verification finds: the cached key, else the key of a fresh document if it may fetch one. */
  function Finds(decode: Decoder, interval: int, s: State, kid: string, response: Option<seq<Jwk>>): Option<Key> {
    if kid in s.keys then Some(s.keys[kid])
    else if GateOpen(s, interval) && response.Some? then Find(KeysOf(decode, response.value), kid)
    else None
  }

  lemma {:induction false} DoneStays(
    decode: Decoder, interval: int, s: State, i: nat, response: Option<seq<Jwk>>, n: nat)
    requires i < |s.calls| && (s.calls[i].Found? || s.calls[i].Ended?)
    ensures Steps(decode, interval, s, i, response, n) == s
    decreases n
  {
    if n > 0 { DoneStays(decode, interval, s, i, response, n - 1); }
  }

  function Outcome(kid: string, key: Option<Key>): Call { if key.Some? then Found(kid, key.value) else Ended }

  lemma RetryFinds(decode: Decoder, interval: int, s: State, i: nat, response: Option<seq<Jwk>>, n: nat)
    requires i < |s.calls| && s.calls[i].Retrying? && n > 0
    ensures Steps(decode, interval, s, i, response, n).calls[i] == Outcome(s.calls[i].kid, Find(s.keys, s.calls[i].kid))
  {
    DoneStays(decode, interval, Advance(decode, interval, s, i, 0, response), i, response, n - 1);
  }

  lemma FetchFinds(decode: Decoder, interval: int, s: State, i: nat, response: Option<seq<Jwk>>)
    requires i < |s.calls| && s.calls[i].Fetching? && s.calls[i].who.Some?
    ensures var kid := s.calls[i].who.value;
      var key := if response.Some? then Find(KeysOf(decode, response.value), kid) else None;
      Steps(decode, interval, s, i, response, 3).calls[i] == Outcome(kid, key)
  {
    var t := Advance(decode, interval, s, i, 0, response);
    if t.calls[i].Ended? {
      DoneStays(decode, interval, t, i, response, 2);
    } else {
      RetryFinds(decode, interval, Advance(decode, interval, t, i, 0, response), i, response, 1);
    }
  }

  /** A rotated key is picked up: a verification of an unknown id fetches once, if it may, and looks again. */
  lemma RotatedKeyIsFound(decode: Decoder, interval: int, s: State, i: nat, response: Option<seq<Jwk>>)
    requires i < |s.calls| && s.calls[i].Verifying?
    ensures Steps(decode, interval, s, i, response, 5).calls[i] ==
      Outcome(s.calls[i].kid, Finds(decode, interval, s, s.calls[i].kid, response))
  {
    var t := Advance(decode, interval, s, i, 0, response);
    if t.calls[i].Found? {
      DoneStays(decode, interval, t, i, response, 4);
    } else {
      var u := Advance(decode, interval, t, i, 0, response);
      if u.calls[i].Retrying? {
        RetryFinds(decode, interval, u, i, response, 3);
      } else {
        FetchFinds(decode, interval, u, i, response);
      }
    }
  }

  // ---- The rate limit ----------------------------------------------------------

  /** Fetches are in time order, and an unforced one keeps its distance from the one before. */
  ghost predicate Spaced(fetches: seq<Fetch>, interval: int) {
    && (forall i, j :: 0 <= i < j < |fetches| ==> fetches[i].at <= fetches[j].at)
    && (forall j :: 1 <= j < |fetches| && !fetches[j].forced ==> fetches[j].at - fetches[j - 1].at >= interval)
  }

  ghost predicate GateInv(s: State, interval: int) {
    && Spaced(s.fetches, interval)
    && (s.fetches == [] ==> s.lastAttempt == None)
    && (s.fetches != [] ==> s.lastAttempt == Some(s.fetches[|s.fetches| - 1].at) && s.lastAttempt.value <= s.now)
  }

  lemma SpacedGrows(fetches: seq<Fetch>, f: Fetch, interval: int)
    requires Spaced(fetches, interval)
    requires fetches != [] ==> fetches[|fetches| - 1].at <= f.at
    requires fetches != [] && !f.forced ==> f.at - fetches[|fetches| - 1].at >= interval
    ensures Spaced(fetches + [f], interval)
  {
    var n := |fetches|;
    assert forall i :: 0 <= i < n ==> fetches[i].at <= fetches[n - 1].at;
  }

  /** The one step that fetches is a gate let through by force, by being first, or by the interval. */
  ghost predicate Fetched(s: State, t: State, interval: int)
    requires t.fetches != []
  {
    && t.fetches == s.fetches + [Fetch(t.now, t.fetches[|t.fetches| - 1].forced)]
    && t.lastAttempt == Some(t.now) && s.now <= t.now
    && (t.fetches[|t.fetches| - 1].forced || s.lastAttempt.None? || s.now - s.lastAttempt.value >= interval)
  }

  lemma OnlyGatesFetch(decode: Decoder, interval: int, s: State, a: Action)
    ensures var t := Exec(decode, interval, s, a);
      || (t.fetches == s.fetches && t.lastAttempt == s.lastAttempt && s.now <= t.now)
      || (t.fetches != [] && Fetched(s, t, interval))
  {
  }

  lemma ExecKeepsGate(decode: Decoder, interval: int, s: State, a: Action)
    requires GateInv(s, interval)
    ensures GateInv(Exec(decode, interval, s, a), interval)
  {
    var t := Exec(decode, interval, s, a);
    OnlyGatesFetch(decode, interval, s, a);
    GateKept(s, t, interval);
  }

  lemma GateKept(s: State, t: State, interval: int)
    requires GateInv(s, interval)
    requires
      || (t.fetches == s.fetches && t.lastAttempt == s.lastAttempt && s.now <= t.now)
      || (t.fetches != [] && Fetched(s, t, interval))
    ensures GateInv(t, interval)
  {
    if t.fetches != s.fetches { SpacedGrows(s.fetches, t.fetches[|s.fetches|], interval); }
  }

  lemma {:induction false} FetchesAreSpaced(decode: Decoder, interval: int, actions: seq<Action>)
    ensures GateInv(Run(decode, interval, actions), interval)
  {
    if actions != [] {
      var n := |actions| - 1;
      FetchesAreSpaced(decode, interval, actions[..n]);
      ExecKeepsGate(decode, interval, Run(decode, interval, actions[..n]), actions[n]);
    }
  }

  predicate Counts(f: Fetch, from: int, to: int) { !f.forced && from <= f.at <= to }

  function CountUnforced(fetches: seq<Fetch>, from: int, to: int): nat {
    if fetches == [] then 0
    else CountUnforced(fetches[..|fetches| - 1], from, to) + if Counts(fetches[|fetches| - 1], from, to) then 1 else 0
  }

  function LastUnforced(fetches: seq<Fetch>, from: int, to: int): int {
    if fetches == [] then from
    else if Counts(fetches[|fetches| - 1], from, to) then fetches[|fetches| - 1].at
    else LastUnforced(fetches[..|fetches| - 1], from, to)
  }

  lemma {:induction false} LastUnforcedIsOne(fetches: seq<Fetch>, from: int, to: int)
    requires CountUnforced(fetches, from, to) > 0
    ensures from <= LastUnforced(fetches, from, to) <= to
    ensures exists i :: 0 <= i < |fetches| && fetches[i].at == LastUnforced(fetches, from, to)
  {
    var n := |fetches| - 1;
    if Counts(fetches[n], from, to) {
      assert fetches[n].at == LastUnforced(fetches, from, to);
    } else {
      LastUnforcedIsOne(fetches[..n], from, to);
      var i :| 0 <= i < n && fetches[..n][i].at == LastUnforced(fetches, from, to);
      assert fetches[i].at == LastUnforced(fetches, from, to);
    }
  }

  function Times(n: nat, d: int): int { if n == 0 then 0 else Times(n - 1, d) + d }

  lemma {:induction false} TimesIsProduct(n: nat, d: int)
    ensures Times(n, d) == n * d
  {
    if n > 0 { TimesIsProduct(n - 1, d); }
  }

  lemma {:induction false} WindowCount(fetches: seq<Fetch>, interval: int, from: int, to: int)
    requires Spaced(fetches, interval) && interval >= 0 && CountUnforced(fetches, from, to) > 0
    ensures Times(CountUnforced(fetches, from, to) - 1, interval) <= LastUnforced(fetches, from, to) - from
  {
    var n := |fetches| - 1;
    var front := fetches[..n];
    if CountUnforced(front, from, to) > 0 {
      WindowCount(front, interval, from, to);
      LastUnforcedIsOne(front, from, to);
      if Counts(fetches[n], from, to) {
        var i :| 0 <= i < n && front[i].at == LastUnforced(front, from, to);
        assert fetches[i].at <= fetches[n - 1].at <= fetches[n].at - interval;
      }
    }
  }

  lemma SpacedRate(fetches: seq<Fetch>, interval: int, from: int, length: nat)
    requires Spaced(fetches, interval) && interval > 0
    ensures CountUnforced(fetches, from, from + length) <= 1 + length / interval
  {
    var count := CountUnforced(fetches, from, from + length);
    if count > 0 {
      WindowCount(fetches, interval, from, from + length);
      LastUnforcedIsOne(fetches, from, from + length);
      TimesIsProduct(count - 1, interval);
      DivideBound(count - 1, interval, length);
    }
  }

  /** In any window of length T at most 1 + T / interval unforced fetches begin, even if all of them fail. */
  lemma FetchRate(decode: Decoder, interval: int, actions: seq<Action>, from: int, length: nat)
    requires interval > 0
    ensures CountUnforced(Run(decode, interval, actions).fetches, from, from + length) <= 1 + length / interval
  {
    FetchesAreSpaced(decode, interval, actions);
    SpacedRate(Run(decode, interval, actions).fetches, interval, from, length);
  }

  lemma DivideBound(n: nat, d: int, t: nat)
    requires d > 0 && n * d <= t
    ensures n <= t / d
  {
    var q := t / d;
    if q < n { TimesKeepsOrder(q + 1, n, d); }
  }

  lemma TimesKeepsOrder(a: int, b: int, d: int)
    requires a <= b && d > 0
    ensures a * d <= b * d
  {
    assert (b - a) * d >= 0;
  }
}
