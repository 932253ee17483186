/**
 * Whether what one authorize request stored survives the next. The source reads again
 * before it writes, so that a concurrent request's id is not overwritten with a stale
 * copy; here is exactly when it is not.
 */
module RedirectUpdates {
  import opened Bytes
  import opened RedirectRules
  import opened RedirectRuns

  /** The client's list never loses an entry or its order: each stored list is a prefix of every later one. */
  ghost predicate OnlyGrows(k: Classifier, actions: seq<Action>, client: string) {
    forall i, j :: 0 <= i <= j <= |actions| ==> Extends(k, actions, client, i, j)
  }

  ghost predicate Extends(k: Classifier, actions: seq<Action>, client: string, i: int, j: int)
    requires 0 <= i <= |actions| && 0 <= j <= |actions|
  {
    var before, after := ListAfter(k, actions, client, i), ListAfter(k, actions, client, j);
    before.Some? && after.Some? ==> before.value <= after.value
  }

  function ListAfter(k: Classifier, actions: seq<Action>, client: string, n: int): Option<Allowlist>
    requires 0 <= n <= |actions|
  {
    ReadList(Run(k, START, actions[..n]), client)
  }

  /** Step `n` is a write of `latest + [uri]` over the stored list `found`. */
  predicate Overwrites(
    k: Classifier, actions: seq<Action>, client: string, n: int, uri: string, latest: Allowlist, found: Allowlist)
  {
    && 0 <= n < |actions| && actions[n].Advance?
    && IsAt(k, actions[..n], actions[n].i, Write(client, uri, latest + [uri])) && Stored(k, actions[..n], client, found)
  }

  /** Every write finds the list it read, or that list with its own URI already on it. */
  ghost predicate NoStaleWrite(k: Classifier, actions: seq<Action>, client: string) {
    forall n, uri, latest, found :: Overwrites(k, actions, client, n, uri, latest, found) ==>
      found == latest || found == latest + [uri]
  }

  // ---- No stale write: the list only grows -------------------------------------

  /** A step leaves the client's list alone, writes it, takes it away, or registers it. */
  lemma StepOnList(k: Classifier, s: State, a: Action, client: string)
    ensures var before, after := ReadList(s, client), ReadList(Exec(k, s, a), client);
      || after == before || after.None? || client !in s.original
      || (a.Advance? && a.i < |s.requests| && s.requests[a.i].Write? && s.requests[a.i].client == client
          && client in s.clients && after == Some(s.requests[a.i].next))
  {
  }

  /** What is stored was registered; a client that is gone stays gone. */
  lemma ListsAreRegistered(k: Classifier, actions: seq<Action>, client: string, n: nat)
    requires Exclusive(k) && n <= |actions| && ListAfter(k, actions, client, n).Some?
    ensures client in Run(k, START, actions[..n]).original
  {
    RunKeeps(k, START, actions[..n]);
  }

  lemma StepGone(k: Classifier, s: State, a: Action, client: string)
    requires client in s.original && client !in s.clients
    ensures client in Exec(k, s, a).original && client !in Exec(k, s, a).clients
  {
  }

  /** A registered client whose list cannot be read has none: no step makes a list unreadable. */
  ghost predicate Readable(s: State) {
    forall c :: c in s.clients ==> s.clients[c].redirects.Some?
  }

  lemma StepReadable(k: Classifier, s: State, a: Action)
    requires Readable(s)
    ensures Readable(Exec(k, s, a))
  {
  }

  lemma {:induction false} AlwaysReadable(k: Classifier, actions: seq<Action>)
    ensures Readable(Run(k, START, actions))
  {
    if actions != [] {
      AlwaysReadable(k, actions[..|actions| - 1]);
      StepReadable(k, Run(k, START, actions[..|actions| - 1]), actions[|actions| - 1]);
    }
  }

  lemma RunStep(k: Classifier, actions: seq<Action>, n: nat)
    requires n < |actions|
    ensures Run(k, START, actions[..n + 1]) == Exec(k, Run(k, START, actions[..n]), actions[n])
  {
    assert actions[..n + 1][..n] == actions[..n];
  }

  /** What every step keeps holds from then on. */
  lemma {:induction false} Persists<S(!new), A(!new)>(
    exec: (S, A) -> S, states: seq<S>, actions: seq<A>, keeps: S -> bool, i: nat, j: nat)
    requires |states| == |actions| + 1 && i <= j <= |actions|
    requires forall n :: 0 <= n < |actions| ==> states[n + 1] == exec(states[n], actions[n])
    requires forall s, a :: keeps(s) ==> keeps(exec(s, a))
    requires keeps(states[i])
    ensures keeps(states[j])
    decreases j
  {
    if i < j { Persists(exec, states, actions, keeps, i, j - 1); }
  }

  function States(k: Classifier, actions: seq<Action>): seq<State> {
    seq(|actions| + 1, n requires 0 <= n <= |actions| => Run(k, START, actions[..n]))
  }

  lemma StatesFollow(k: Classifier, actions: seq<Action>)
    ensures forall n :: 0 <= n < |actions| ==> States(k, actions)[n + 1] == Exec(k, States(k, actions)[n], actions[n])
  {
    forall n | 0 <= n < |actions| ensures States(k, actions)[n + 1] == Exec(k, States(k, actions)[n], actions[n]) {
      RunStep(k, actions, n);
    }
  }

  predicate Gone(s: State, client: string) { client in s.original && client !in s.clients }

  lemma GoneStaysGone(k: Classifier, actions: seq<Action>, client: string, i: nat, j: nat)
    requires i <= j <= |actions| && Gone(Run(k, START, actions[..i]), client)
    ensures Gone(Run(k, START, actions[..j]), client)
  {
    StatesFollow(k, actions);
    forall s, a | Gone(s, client) ensures Gone(Exec(k, s, a), client) { StepGone(k, s, a, client); }
    Persists((s, a) => Exec(k, s, a), States(k, actions), actions, s => Gone(s, client), i, j);
  }

  /** A step without a stale write extends the list. */
  lemma StepExtends(k: Classifier, actions: seq<Action>, client: string, n: nat)
    requires Exclusive(k) && n < |actions| && NoStaleWrite(k, actions, client)
    ensures Extends(k, actions, client, n, n + 1)
  {
    var s, a := Run(k, START, actions[..n]), actions[n];
    RunStep(k, actions, n);
    StepOnList(k, s, a, client);
    var before, after := ListAfter(k, actions, client, n), ListAfter(k, actions, client, n + 1);
    if before.Some? && after.Some? && after != before {
      ListsAreRegistered(k, actions, client, n);
      var q := s.requests[a.i];
      WriteHasCause(k, actions[..n], a.i, client, q.uri, q.next);
      var latest :| q.next == latest + [q.uri] && Caused(k, actions[..n], a.i, client, q.uri, latest);
      assert Overwrites(k, actions, client, n, q.uri, latest, before.value);
    }
  }

  /** Between two times the client has a list, it has one. */
  lemma StillThere(k: Classifier, actions: seq<Action>, client: string, i: nat, m: nat, j: nat)
    requires Exclusive(k) && i <= m <= j <= |actions|
    requires ListAfter(k, actions, client, i).Some? && ListAfter(k, actions, client, j).Some?
    ensures ListAfter(k, actions, client, m).Some?
  {
    ListsAreRegistered(k, actions, client, i);
    assert actions[..m][..i] == actions[..i];
    OriginalStays(k, actions[..m], i, client);
    AlwaysReadable(k, actions[..m]);
    if client !in Run(k, START, actions[..m]).clients { GoneStaysGone(k, actions, client, m, j); }
  }

  function Lists(k: Classifier, actions: seq<Action>, client: string): seq<Option<Allowlist>> {
    seq(|actions| + 1, n requires 0 <= n <= |actions| => ListAfter(k, actions, client, n))
  }

  lemma {:induction false} PrefixChain(lists: seq<Option<Allowlist>>, i: nat, j: nat)
    requires i <= j < |lists| && forall m :: i <= m <= j ==> lists[m].Some?
    requires forall m, n :: i <= m && n == m + 1 <= j ==> lists[m].value <= lists[n].value
    ensures lists[i].value <= lists[j].value
    decreases j
  {
    if i < j { PrefixChain(lists, i, j - 1); }
  }

  lemma ChainExtends(k: Classifier, actions: seq<Action>, client: string, i: nat, j: nat)
    requires Exclusive(k) && i <= j <= |actions| && NoStaleWrite(k, actions, client)
    ensures Extends(k, actions, client, i, j)
  {
    var lists := Lists(k, actions, client);
    if lists[i].Some? && lists[j].Some? {
      forall m | i <= m <= j ensures lists[m].Some? { StillThere(k, actions, client, i, m, j); }
      forall m, n | i <= m && n == m + 1 <= j ensures lists[m].value <= lists[n].value {
        StepExtends(k, actions, client, m);
      }
      PrefixChain(lists, i, j);
    }
  }

  // ---- A list that only grows: no stale write ----------------------------------

  lemma CausedWasStored(k: Classifier, actions: seq<Action>, i: nat, client: string, uri: string, latest: Allowlist)
    requires Caused(k, actions, i, client, uri, latest)
    ensures exists n :: 0 <= n < |actions| && Stored(k, actions[..n], client, latest)
  {
    if read, no :| OwnNo(k, actions, i, client, uri, latest, read, no) {
      assert actions[..no][..read] == actions[..read];
      assert Stored(k, actions[..read], client, latest);
    }
  }

  /** The list a write extends was stored before. */
  lemma ExtendedWasStored(
    k: Classifier, actions: seq<Action>, client: string, n: nat, uri: string, latest: Allowlist, found: Allowlist)
    requires Exclusive(k) && Overwrites(k, actions, client, n, uri, latest, found)
    ensures exists m :: 0 <= m < n && ListAfter(k, actions, client, m) == Some(latest)
  {
    var front := actions[..n];
    WriteHasCause(k, front, actions[n].i, client, uri, latest + [uri]);
    var l :| latest + [uri] == l + [uri] && Caused(k, front, actions[n].i, client, uri, l);
    assert l == (l + [uri])[..|l|] && latest == (latest + [uri])[..|latest|] && |l| == |latest|;
    CausedWasStored(k, front, actions[n].i, client, uri, latest);
    var m :| 0 <= m < |front| && Stored(k, front[..m], client, latest);
    assert front[..m] == actions[..m];
    assert ListAfter(k, actions, client, m) == Some(latest);
  }

  lemma Squeezed(latest: Allowlist, found: Allowlist, uri: string)
    requires latest <= found <= latest + [uri]
    ensures found == latest || found == latest + [uri]
  {
    if |found| == |latest| { assert found == found[..|latest|] == latest; }
  }

  lemma GrowingHasNoStaleWrite(
    k: Classifier, actions: seq<Action>, client: string, n: nat, uri: string, latest: Allowlist, found: Allowlist)
    requires Exclusive(k) && OnlyGrows(k, actions, client) && Overwrites(k, actions, client, n, uri, latest, found)
    ensures found == latest || found == latest + [uri]
  {
    ExtendedWasStored(k, actions, client, n, uri, latest, found);
    var m :| 0 <= m < n && ListAfter(k, actions, client, m) == Some(latest);
    RunStep(k, actions, n);
    assert ListAfter(k, actions, client, n) == Some(found);
    assert ListAfter(k, actions, client, n + 1) == Some(latest + [uri]);
    assert Extends(k, actions, client, m, n) && Extends(k, actions, client, n, n + 1);
    Squeezed(latest, found, uri);
  }

  /**
   * Over any run: no update of a client's list is ever lost exactly when every write that
   * lands finds the list it last read, or that list with its own URI appended.
   */
  lemma UpdatesSurviveExactly(k: Classifier, actions: seq<Action>, client: string)
    requires Exclusive(k)
    ensures OnlyGrows(k, actions, client) <==> NoStaleWrite(k, actions, client)
  {
    if NoStaleWrite(k, actions, client) {
      forall i, j | 0 <= i <= j <= |actions| ensures Extends(k, actions, client, i, j) {
        ChainExtends(k, actions, client, i, j);
      }
    } else {
      var n, uri, latest, found :|
        Overwrites(k, actions, client, n, uri, latest, found) && found != latest && found != latest + [uri];
      if OnlyGrows(k, actions, client) { GrowingHasNoStaleWrite(k, actions, client, n, uri, latest, found); }
    }
  }

  /** The source's own rules are such a classifier. */
  lemma SourceUpdatesSurviveExactly(parse: UrlParser, actions: seq<Action>, client: string)
    ensures OnlyGrows(ClassifierOf(parse), actions, client) <==> NoStaleWrite(ClassifierOf(parse), actions, client)
  {
    ProtocolsDiffer(parse);
    UpdatesSurviveExactly(ClassifierOf(parse), actions, client);
  }

  // ---- Updates that are lost ---------------------------------------------------

  lemma {:induction false} RunConcat(k: Classifier, s: State, a: seq<Action>, b: seq<Action>)
    ensures Run(k, s, a + b) == Run(k, Run(k, s, a), b)
  {
    if b == [] {
      assert a + b == a;
    } else {
      RunConcat(k, s, a, b[..|b| - 1]);
      assert (a + b)[..|a + b| - 1] == a + b[..|b| - 1];
    }
  }

  lemma RunOne(k: Classifier, s: State, a: Action)
    ensures Run(k, s, [a]) == Exec(k, s, a)
  {
    var one := [a];
    assert one[..|one| - 1] == [] && Run(k, s, []) == s;
  }

  lemma RunTwo(k: Classifier, s: State, a: Action, b: Action)
    ensures Run(k, s, [a, b]) == Exec(k, Exec(k, s, a), b)
  {
    assert [a, b] == [a] + [b];
    RunConcat(k, s, [a], [b]);
    RunOne(k, s, a);
    RunOne(k, Exec(k, s, a), b);
  }

  /** The state in which request `i` is about to write its URI onto the list it read. */
  function Ready(s: State, i: nat, client: string, uri: string, l: Allowlist): State
    requires i < |s.requests|
  {
    s.(requests := s.requests[i := Write(client, uri, l + [uri])])
  }

  /** Two steps of one request. */
  function Steps(i: nat): seq<Action> { [Advance(i, No), Advance(i, No)] }

  lemma LoopbackGetsReady(k: Classifier, s: State, i: nat, client: string, uri: string, l: Allowlist)
    requires i < |s.requests| && s.requests[i] == LoopBegin(client, uri) && ReadList(s, client) == Some(l)
    requires MayRegisterLoopback(k, uri, l)
    ensures Run(k, s, Steps(i)) == Ready(s, i, client, uri, l)
  {
    RunTwo(k, s, Advance(i, No), Advance(i, No));
    var write := Write(client, uri, l + [uri]);
    assert s.requests[i := LoopReread(client, uri)][i := write] == s.requests[i := write];
  }

  lemma StableGetsReady(k: Classifier, s: State, i: nat, client: string, uri: string, l: Allowlist)
    requires i < |s.requests| && s.requests[i] == Begin(client, uri) && ReadList(s, client) == Some(l)
    requires CheckStore(k, s.clients[client], uri, l) == Pass
    ensures Run(k, s, Steps(i)) == Ready(s, i, client, uri, l)
  {
    RunTwo(k, s, Advance(i, No), Advance(i, No));
    var write := Write(client, uri, l + [uri]);
    assert s.requests[i := Reread(client, uri)][i := write] == s.requests[i := write];
  }

  /** A new id takes four: each check asks, and each lookup says no. */
  lemma CallbackGetsReady(k: Classifier, s: State, i: nat, client: string, uri: string, l: Allowlist)
    requires i < |s.requests| && s.requests[i] == Begin(client, uri) && ReadList(s, client) == Some(l)
    requires CheckStore(k, s.clients[client], uri, l) == Ask
    ensures Run(k, s, Steps(i) + Steps(i)) == Ready(s, i, client, uri, l)
  {
    var t := s.(requests := s.requests[i := Reread(client, uri)]);
    RunConcat(k, s, Steps(i), Steps(i));
    RunTwo(k, s, Advance(i, No), Advance(i, No));
    assert s.requests[i := AskFirst(client, uri)][i := Reread(client, uri)] == t.requests;
    RunTwo(k, t, Advance(i, No), Advance(i, No));
    var write := Write(client, uri, l + [uri]);
    assert t.requests[i := AskSecond(client, uri, l)][i := write] == s.requests[i := write];
  }

  lemma TwoWrites(k: Classifier, s: State, client: string, l: Allowlist, u: string, v: string)
    requires s.requests == [Write(client, u, l + [u]), Write(client, v, l + [v])] && client in s.clients
    ensures var t := Exec(k, s, Advance(0, No));
      ReadList(t, client) == Some(l + [u]) && ReadList(Exec(k, t, Advance(1, No)), client) == Some(l + [v])
  {
    assert Exec(k, s, Advance(0, No)).requests[1] == Write(client, v, l + [v]);
  }

  lemma RunsOn(k: Classifier, front: seq<Action>, a: Action, b: Action)
    ensures var actions, s := front + [a, b], Run(k, START, front);
      && Run(k, START, actions[..|front| + 1]) == Exec(k, s, a)
      && Run(k, START, actions[..|front| + 2]) == Exec(k, Exec(k, s, a), b)
  {
    var actions := front + [a, b];
    assert actions[..|front|] == front && actions[..|front| + 1] == front + [a] && actions[..|front| + 2] == actions;
    RunConcat(k, START, front, [a]);
    RunOne(k, Run(k, START, front), a);
    RunConcat(k, START, front, [a, b]);
    RunTwo(k, Run(k, START, front), a, b);
  }

  /** Two requests ready to write onto the same list: the second to write drops what the first stored. */
  lemma SecondWriteDropsFirst(k: Classifier, front: seq<Action>, client: string, l: Allowlist, u: string, v: string)
    returns (actions: seq<Action>)
    requires var s := Run(k, START, front);
      s.requests == [Write(client, u, l + [u]), Write(client, v, l + [v])] && client in s.clients
    ensures |actions| == |front| + 2 && ListAfter(k, actions, client, |front| + 1) == Some(l + [u])
    ensures ListAfter(k, actions, client, |front| + 2) == Some(l + [v])
  {
    actions := front + [Advance(0, No), Advance(1, No)];
    RunsOn(k, front, Advance(0, No), Advance(1, No));
    TwoWrites(k, Run(k, START, front), client, l, u, v);
  }

  lemma NotAPrefix(l: Allowlist, u: string, v: string)
    requires u != v
    ensures !(l + [u] <= l + [v])
  {
    assert (l + [u])[|l|] == u && (l + [v])[|l|] == v;
  }

  /** A client registered with one URI, and requests on it. */
  function Opening(client: string, uri: string, requests: seq<Request>): State {
    State(map[client := Client(Some([uri]), false)], requests, map[client := [uri]])
  }

  lemma Opens(k: Classifier, client: string, uri: string, a: Action, b: Action, q: Request, r: Request)
    requires Exec(k, Opening(client, uri, []), a) == Opening(client, uri, [q])
    requires Exec(k, Opening(client, uri, [q]), b) == Opening(client, uri, [q, r])
    ensures Run(k, START, [Register(client, [uri], false)] + [a, b]) == Opening(client, uri, [q, r])
  {
    var register := Register(client, [uri], false);
    RunConcat(k, START, [register], [a, b]);
    RunOne(k, START, register);
    assert Exec(k, START, register) == Opening(client, uri, []);
    RunTwo(k, Opening(client, uri, []), a, b);
  }

  lemma Follows(k: Classifier, front: seq<Action>, a: seq<Action>, b: seq<Action>, s: State, t: State, w: State)
    requires Run(k, START, front) == s && Run(k, s, a) == t && Run(k, t, b) == w
    ensures Run(k, START, front + a + b) == w
  {
    RunConcat(k, START, front, a);
    RunConcat(k, START, front + a, b);
  }

  lemma BothReady(client: string, uri: string, q: Request, r: Request, u: string, v: string)
    ensures var s := Ready(Ready(Opening(client, uri, [q, r]), 0, client, u, [uri]), 1, client, v, [uri]);
      s == Opening(client, uri, [Write(client, u, [uri] + [u]), Write(client, v, [uri] + [v])])
  {
  }

  lemma LoopbacksGetReady(k: Classifier, client: string, uri: string, u: string, v: string, path: string)
    returns (front: seq<Action>)
    requires k.loopback(uri) == k.loopback(u) == k.loopback(v) == Some(path) && uri != u && v != uri
    ensures Run(k, START, front) ==
      Opening(client, uri, [Write(client, u, [uri] + [u]), Write(client, v, [uri] + [v])])
  {
    var a, b := AuthorizeLoopback(client, u), AuthorizeLoopback(client, v);
    var q, r := LoopBegin(client, u), LoopBegin(client, v);
    var s := Opening(client, uri, [q, r]);
    var t := Ready(s, 0, client, u, [uri]);
    Opens(k, client, uri, a, b, q, r);
    assert HasPath(k, [uri], path) by { assert k.loopback([uri][0]) == Some(path); }
    LoopbackGetsReady(k, s, 0, client, u, [uri]);
    LoopbackGetsReady(k, t, 1, client, v, [uri]);
    var opening := [Register(client, [uri], false)] + [a, b];
    Follows(k, opening, Steps(0), Steps(1), s, t, Ready(t, 1, client, v, [uri]));
    BothReady(client, uri, q, r, u, v);
    front := opening + Steps(0) + Steps(1);
  }

  /** Two loopback requests on the path of one registered URI: the first one's port is lost. */
  lemma LoopbackUpdateIsLost(k: Classifier, client: string, uri: string, u: string, v: string, path: string)
    returns (actions: seq<Action>)
    requires k.loopback(uri) == k.loopback(u) == k.loopback(v) == Some(path) && uri != u && u != v && v != uri
    ensures !OnlyGrows(k, actions, client)
  {
    var front := LoopbacksGetReady(k, client, uri, u, v, path);
    actions := SecondWriteDropsFirst(k, front, client, [uri], u, v);
    NotAPrefix([uri], u, v);
    assert !Extends(k, actions, client, |actions| - 1, |actions|);
  }

  /** The classifier reads a host's two stable forms and one of its callbacks as what they are. */
  ghost predicate ReadsHost(k: Classifier, host: string, id: string) {
    var stable := Canonical(Stable(host));
    && k.chatgpt(stable) == k.chatgpt(stable + "/") == Some(Stable(host))
    && k.chatgpt(Canonical(Callback(host, id))) == Some(Callback(host, id))
  }

  lemma CallbackAndStableGetReady(k: Classifier, client: string, host: string, id: string) returns (front: seq<Action>)
    requires ReadsHost(k, host, id)
    ensures var uri, u := Canonical(Stable(host)), Canonical(Callback(host, id));
      var v := uri + "/";
      Run(k, START, front) == Opening(client, uri, [Write(client, u, [uri] + [u]), Write(client, v, [uri] + [v])])
  {
    var uri, u := Canonical(Stable(host)), Canonical(Callback(host, id));
    var v := uri + "/";
    var a, b, q, r := Authorize(client, u), Authorize(client, v), Begin(client, u), Begin(client, v);
    var s := Opening(client, uri, [q, r]);
    var t := Ready(s, 0, client, u, [uri]);
    Opens(k, client, uri, a, b, q, r);
    ChecksOfTwo(k, host, id);
    CallbackGetsReady(k, s, 0, client, u, [uri]);
    StableGetsReady(k, t, 1, client, v, [uri]);
    var opening, four := [Register(client, [uri], false)] + [a, b], Steps(0) + Steps(0);
    Follows(k, opening, four, Steps(1), s, t, Ready(t, 1, client, v, [uri]));
    BothReady(client, uri, q, r, u, v);
    front := opening + four + Steps(1);
  }

  /**
   * A client registered with a host's stable callback, a request for a new id there, and one for
   * the stable callback with a slash: the id, which no consent stood against, is stored and lost.
   */
  lemma CallbackUpdateIsLost(k: Classifier, client: string, host: string, id: string) returns (actions: seq<Action>)
    requires ReadsHost(k, host, id)
    ensures !OnlyGrows(k, actions, client)
    ensures |actions| > 0 && Holds(k, actions[..|actions| - 1], client, Callback(host, id))
    ensures !Holds(k, actions, client, Callback(host, id))
  {
    var uri, u := Canonical(Stable(host)), Canonical(Callback(host, id));
    var front := CallbackAndStableGetReady(k, client, host, id);
    actions := SecondWriteDropsFirst(k, front, client, [uri], u, uri + "/");
    NotAPrefix([uri], u, uri + "/");
    assert !Extends(k, actions, client, |actions| - 1, |actions|);
    assert actions[..|actions|] == actions && ([uri] + [u])[1] == u;
  }

  lemma ChecksOfTwo(k: Classifier, host: string, id: string)
    requires ReadsHost(k, host, id)
    ensures var uri, u := Canonical(Stable(host)), Canonical(Callback(host, id)); u != uri && u != uri + "/"
    ensures Acceptable(k, Canonical(Callback(host, id))) && Acceptable(k, Canonical(Stable(host)) + "/")
    ensures var l := [Canonical(Stable(host))];
      && CheckStore(k, Client(Some(l), false), Canonical(Callback(host, id)), l) == Ask
      && CheckStore(k, Client(Some(l), false), Canonical(Stable(host)) + "/", l) == Pass
  {
    var l := [Canonical(Stable(host))];
    assert k.chatgpt(l[0]) == Some(Stable(host));
    assert HasHost(k, l, host) && HasRedirect(k, l, Stable(host));
  }

  /** By the source's own rules, with a parser that reads everything as the root of localhost. */
  lemma SourceLosesAnUpdate() returns (parse: UrlParser, actions: seq<Action>)
    ensures !OnlyGrows(ClassifierOf(parse), actions, "c")
  {
    parse := raw => Some(Url("http:", "", "", "localhost", "", "/", "", "", raw));
    RootOfLocalhost();
    actions := LoopbackUpdateIsLost(ClassifierOf(parse), "c", "a", "b", "d", "/");
  }

  lemma RootOfLocalhost()
    ensures IsLoopbackHostname("localhost") && NormalizedPath("/") == Some("/")
  {
    assert AsciiLower("localhost") == "localhost";
    assert "/"[1..] == "" && Split("/", '/') == ["", ""];
  }
}
