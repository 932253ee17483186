/**
 * `runPool` of apps/dashboard/lib/deploy.ts: workers share a cursor over the items,
 * and interleave at every `await`. `Promise.all` resolves when every worker returned
 * and rejects when one threw; the others then run on.
 */
module UploadPool {
  import opened Bytes

  /** A worker at its loop head, awaiting `fn` on an item, returned, or thrown from an item. */
  datatype Worker = Ready | Busy(item: nat) | Returned | Threw(item: nat)

  datatype Pool = Pool(cursor: nat, workers: seq<Worker>, started: seq<nat>, finished: seq<nat>)

  function WorkerCount(limit: int, n: nat): nat { if limit < 0 then 0 else Min(limit, n) }

  function Start(limit: int, n: nat): Pool { Pool(0, seq(WorkerCount(limit, n), _ => Ready), [], []) }

  /** Worker `w` runs to its next `await`; `ok` is how the call it awaits settles. */
  function Exec<T>(items: seq<Option<T>>, p: Pool, w: nat, ok: bool): Pool {
    if w >= |p.workers| then p
    else match p.workers[w]
      case Ready =>
        if p.cursor >= |items| then p.(workers := p.workers[w := Returned])
        else if items[p.cursor].None? then p.(cursor := p.cursor + 1, workers := p.workers[w := Returned])
        else Pool(p.cursor + 1, p.workers[w := Busy(p.cursor)], p.started + [p.cursor], p.finished)
      case Busy(item) =>
        if ok then p.(workers := p.workers[w := Ready], finished := p.finished + [item])
        else p.(workers := p.workers[w := Threw(item)])
      case _ => p
  }

  datatype Turn = Turn(worker: nat, ok: bool)

  function Run<T>(items: seq<Option<T>>, p: Pool, turns: seq<Turn>): Pool {
    if turns == [] then p
    else Exec(items, Run(items, p, turns[..|turns| - 1]), turns[|turns| - 1].worker, turns[|turns| - 1].ok)
  }

  predicate Resolved(p: Pool) { forall w :: 0 <= w < |p.workers| ==> p.workers[w].Returned? }

  // ---- Counting ----------------------------------------------------------------

  function Sum(f: Worker -> int, workers: seq<Worker>): int {
    if workers == [] then 0 else Sum(f, workers[..|workers| - 1]) + f(workers[|workers| - 1])
  }

  lemma {:induction false} SumUpdate(f: Worker -> int, workers: seq<Worker>, w: nat, v: Worker)
    requires w < |workers|
    ensures Sum(f, workers[w := v]) == Sum(f, workers) - f(workers[w]) + f(v)
  {
    var n := |workers| - 1;
    if w == n {
      assert workers[w := v][..n] == workers[..n];
    } else {
      SumUpdate(f, workers[..n], w, v);
      assert workers[w := v][..n] == workers[..n][w := v];
    }
  }

  lemma {:induction false} SumBetween(f: Worker -> int, workers: seq<Worker>, low: int, high: int)
    requires forall w :: 0 <= w < |workers| ==> low <= f(workers[w]) <= high
    ensures low * |workers| <= Sum(f, workers) <= high * |workers|
  {
    if workers != [] { SumBetween(f, workers[..|workers| - 1], low, high); }
  }

  function Holds(w: Worker): int { if w.Busy? || w.Threw? then 1 else 0 }
  function HoldsItem(i: nat): Worker -> int { (w: Worker) => if (w.Busy? || w.Threw?) && w.item == i then 1 else 0 }
  function HasReturned(w: Worker): int { if w.Returned? then 1 else 0 }

  /** How many times `i` occurs. */
  function Times(s: seq<nat>, i: nat): nat {
    if s == [] then 0 else Times(s[..|s| - 1], i) + if s[|s| - 1] == i then 1 else 0
  }

  lemma TimesPush(s: seq<nat>, x: nat, i: nat)
    ensures Times(s + [x], i) == Times(s, i) + if x == i then 1 else 0
  {
    assert (s + [x])[..|s|] == s;
  }

  /** The defined items among the first `n`, and how many are undefined. */
  function Defined<T>(items: seq<Option<T>>, n: nat): seq<nat>
    requires n <= |items|
  {
    if n == 0 then []
    else Defined(items, n - 1) + if items[n - 1].Some? then [n - 1] else []
  }

  function UndefinedCount<T>(items: seq<Option<T>>, n: nat): nat
    requires n <= |items|
  {
    if n == 0 then 0 else UndefinedCount(items, n - 1) + if items[n - 1].None? then 1 else 0
  }

  // ---- What every turn keeps ---------------------------------------------------

  /** Item `i` is finished once or held by one worker if it was started, and neither if not. */
  predicate Accounted<T>(items: seq<Option<T>>, p: Pool, i: nat) {
    Times(p.finished, i) + Sum(HoldsItem(i), p.workers)
      == if i < p.cursor && i < |items| && items[i].Some? then 1 else 0
  }

  ghost predicate Inv<T>(items: seq<Option<T>>, p: Pool, count: nat) {
    && p.cursor <= |items| && |p.workers| == count
    // Items start in index order, each once.
    && p.started == Defined(items, p.cursor)
    && (forall i: nat :: Accounted(items, p, i))
    && |p.finished| + Sum(Holds, p.workers) == |p.started|
    // Before the end of the list a worker returns only at an undefined item.
    && (p.cursor < |items| ==> Sum(HasReturned, p.workers) == UndefinedCount(items, p.cursor))
  }

  lemma StartHolds<T>(items: seq<Option<T>>, limit: int)
    ensures Inv(items, Start(limit, |items|), WorkerCount(limit, |items|))
  {
    var p := Start(limit, |items|);
    SumBetween(Holds, p.workers, 0, 0);
    SumBetween(HasReturned, p.workers, 0, 0);
    forall i: nat ensures Accounted(items, p, i) { SumBetween(HoldsItem(i), p.workers, 0, 0); }
  }

  lemma ExecKeeps<T>(items: seq<Option<T>>, p: Pool, w: nat, ok: bool, count: nat)
    requires Inv(items, p, count)
    ensures Inv(items, Exec(items, p, w, ok), count)
  {
    if w < |p.workers| {
      var p' := Exec(items, p, w, ok);
      SumUpdate(Holds, p.workers, w, p'.workers[w]);
      SumUpdate(HasReturned, p.workers, w, p'.workers[w]);
      forall i: nat ensures Accounted(items, p', i) { ExecAccounts(items, p, w, ok, i); }
    }
  }

  lemma ExecAccounts<T>(items: seq<Option<T>>, p: Pool, w: nat, ok: bool, i: nat)
    requires p.cursor <= |items| && w < |p.workers| && Accounted(items, p, i)
    ensures Accounted(items, Exec(items, p, w, ok), i)
  {
    SumUpdate(HoldsItem(i), p.workers, w, Exec(items, p, w, ok).workers[w]);
    if p.workers[w].Busy? { TimesPush(p.finished, p.workers[w].item, i); }
  }

  lemma {:induction false} RunKeeps<T>(items: seq<Option<T>>, p: Pool, turns: seq<Turn>, count: nat)
    requires Inv(items, p, count)
    ensures Inv(items, Run(items, p, turns), count)
  {
    if turns != [] {
      var n := |turns| - 1;
      RunKeeps(items, p, turns[..n], count);
      ExecKeeps(items, Run(items, p, turns[..n]), turns[n].worker, turns[n].ok, count);
    }
  }

  lemma Reachable<T>(items: seq<Option<T>>, limit: int, turns: seq<Turn>)
    ensures Inv(items, Run(items, Start(limit, |items|), turns), WorkerCount(limit, |items|))
  {
    StartHolds(items, limit);
    RunKeeps(items, Start(limit, |items|), turns, WorkerCount(limit, |items|));
  }

  lemma {:induction false} DefinedIncreases<T>(items: seq<Option<T>>, n: nat)
    requires n <= |items|
    ensures forall i :: 0 <= i < |Defined(items, n)| ==> Defined(items, n)[i] < n
    ensures forall i, j :: 0 <= i < j < |Defined(items, n)| ==> Defined(items, n)[i] < Defined(items, n)[j]
    ensures |Defined(items, n)| + UndefinedCount(items, n) == n
  {
    if n > 0 { DefinedIncreases(items, n - 1); }
  }

  /** On every schedule: items start in index order, each at most once, never more than the limit in flight. */
  lemma PoolIsOrdered<T>(items: seq<Option<T>>, limit: int, turns: seq<Turn>)
    ensures var p := Run(items, Start(limit, |items|), turns);
      && (forall i, j :: 0 <= i < j < |p.started| ==> p.started[i] < p.started[j])
      && (forall i: nat :: Accounted(items, p, i))
      && |p.started| - |p.finished| == Sum(Holds, p.workers) <= |items|
      && (limit >= 0 ==> |p.started| - |p.finished| <= limit)
  {
    Reachable(items, limit, turns);
    var p := Run(items, Start(limit, |items|), turns);
    DefinedIncreases(items, p.cursor);
    SumBetween(Holds, p.workers, 0, 1);
  }

  ghost predicate FinishedUpTo<T>(items: seq<Option<T>>, p: Pool, count: nat) {
    && p.cursor <= |items|
    && (forall i: nat :: Times(p.finished, i) == if i < p.cursor && items[i].Some? then 1 else 0)
    && |p.finished| + UndefinedCount(items, p.cursor) == p.cursor
    && (p.cursor < |items| ==> count == UndefinedCount(items, p.cursor))
  }

  lemma ResolvedPool<T>(items: seq<Option<T>>, p: Pool, count: nat)
    requires Inv(items, p, count) && Resolved(p)
    ensures FinishedUpTo(items, p, count)
  {
    SumBetween(Holds, p.workers, 0, 0);
    SumBetween(HasReturned, p.workers, 1, 1);
    DefinedIncreases(items, p.cursor);
    forall i: nat ensures Times(p.finished, i) == if i < p.cursor && items[i].Some? then 1 else 0 {
      assert Accounted(items, p, i);
      SumBetween(HoldsItem(i), p.workers, 0, 0);
    }
  }

  /**
   * When the pool resolves, exactly the defined items up to the cursor have finished,
   * each once; and the cursor is at the end unless every worker met an undefined item.
   */
  lemma ResolvedMeans<T>(items: seq<Option<T>>, limit: int, turns: seq<Turn>)
    requires Resolved(Run(items, Start(limit, |items|), turns))
    ensures FinishedUpTo(items, Run(items, Start(limit, |items|), turns), WorkerCount(limit, |items|))
  {
    Reachable(items, limit, turns);
    ResolvedPool(items, Run(items, Start(limit, |items|), turns), WorkerCount(limit, |items|));
  }

  lemma {:induction false} NothingUndefined<T>(items: seq<Option<T>>, n: nat)
    requires n <= |items| && forall i :: 0 <= i < |items| ==> items[i].Some?
    ensures UndefinedCount(items, n) == 0
  {
    if n > 0 { NothingUndefined(items, n - 1); }
  }

  /** If the pool has resolved, every item has finished exactly once. */
  ghost predicate AllDoneIfResolved<T>(items: seq<Option<T>>, limit: int, turns: seq<Turn>) {
    var p := Run(items, Start(limit, |items|), turns);
    Resolved(p) ==> |p.finished| == |items| && forall i :: 0 <= i < |items| ==> Times(p.finished, i) == 1
  }

  lemma ResolvesAfterAll<T>(items: seq<Option<T>>, limit: int, turns: seq<Turn>)
    requires forall i :: 0 <= i < |items| ==> items[i].Some?
    requires limit >= 1 || items == []
    ensures AllDoneIfResolved(items, limit, turns)
  {
    var p := Run(items, Start(limit, |items|), turns);
    if Resolved(p) {
      ResolvedMeans(items, limit, turns);
      NothingUndefined(items, p.cursor);
    }
  }

  /** With a limit below 1 there are no workers, and the pool resolves having done nothing. */
  lemma NoWorkers<T>(items: seq<Option<T>>, limit: int)
    requires limit < 1 && items != []
    ensures !AllDoneIfResolved(items, limit, [])
  {
    var p := Run(items, Start(limit, |items|), []);
    assert Resolved(p) && p.finished == [];
  }

  /** For a list without holes, resolving means done on every schedule exactly when the limit is at least 1. */
  lemma ResolvesAfterAllExactly<T>(items: seq<Option<T>>, limit: int)
    requires forall i :: 0 <= i < |items| ==> items[i].Some?
    ensures (limit >= 1 || items == []) <==> forall turns :: AllDoneIfResolved(items, limit, turns)
  {
    if limit >= 1 || items == [] {
      forall turns ensures AllDoneIfResolved(items, limit, turns) { ResolvesAfterAll(items, limit, turns); }
    } else {
      NoWorkers(items, limit);
    }
  }

  // ---- Every schedule comes to rest --------------------------------------------

  function Weight(w: Worker): int { match w case Ready => 1 case Busy(_) => 2 case _ => 0 }

  function Work<T>(items: seq<Option<T>>, p: Pool): int { 2 * (|items| - p.cursor) + Sum(Weight, p.workers) }

  /** A turn of a worker that has not ended uses up some of a finite amount of work. */
  lemma TurnsEnd<T>(items: seq<Option<T>>, p: Pool, w: nat, ok: bool)
    requires p.cursor <= |items| && w < |p.workers| && (p.workers[w].Ready? || p.workers[w].Busy?)
    ensures 0 <= Work(items, Exec(items, p, w, ok)) < Work(items, p)
  {
    var p' := Exec(items, p, w, ok);
    SumUpdate(Weight, p.workers, w, p'.workers[w]);
    SumBetween(Weight, p'.workers, 0, 2);
  }

  predicate Moves(p: Pool, t: Turn) {
    t.worker < |p.workers| && (p.workers[t.worker].Ready? || p.workers[t.worker].Busy?)
  }

  /** So no schedule can keep the pool busy for more than two turns an item and one a worker. */
  lemma {:induction false} SchedulesAreBounded<T>(items: seq<Option<T>>, limit: int, turns: seq<Turn>)
    requires forall n :: 0 <= n < |turns| ==> Moves(Run(items, Start(limit, |items|), turns[..n]), turns[n])
    ensures |turns| + Work(items, Run(items, Start(limit, |items|), turns)) <= 2 * |items| + WorkerCount(limit, |items|)
    ensures Work(items, Run(items, Start(limit, |items|), turns)) >= 0
  {
    var start := Start(limit, |items|);
    if turns == [] {
      SumBetween(Weight, start.workers, 1, 1);
    } else {
      var n := |turns| - 1;
      var front := turns[..n];
      forall m | 0 <= m < n ensures Moves(Run(items, start, front[..m]), front[m]) {
        assert front[..m] == turns[..m];
      }
      SchedulesAreBounded(items, limit, front);
      Reachable(items, limit, front);
      assert Moves(Run(items, start, turns[..n]), turns[n]);
      TurnsEnd(items, Run(items, start, front), turns[n].worker, turns[n].ok);
    }
  }
}

/** The manifest, and the upload-then-finalize part of `deployFolder`. */
module Deploy {
  import opened Bytes
  import opened Utf
  import opened Sorting
  import opened UploadPool

  /** Paths are JavaScript strings, sequences of UTF-16 code units; `kind` is the browser's content type. */
  datatype Dropped = Dropped(path: seq<unit>, content: seq<byte>, kind: string)
  datatype Entry = Entry(path: seq<unit>, sha: string, size: nat, contentType: string)

  type Hash = seq<byte> -> string
  type TypeFor = (seq<unit>, string) -> string

  function EntryOf(hash: Hash, typeFor: TypeFor, f: Dropped): Entry {
    Entry(f.path, hash(f.content), |f.content|, typeFor(f.path, f.kind))
  }

  function Entries(hash: Hash, typeFor: TypeFor, files: seq<Dropped>): seq<Entry> {
    seq(|files|, i requires 0 <= i < |files| => EntryOf(hash, typeFor, files[i]))
  }

  function PathKey(e: Entry): seq<int> { e.path }

  /** The file kept for a hash is the first dropped file that has it. */
  ghost predicate FirstWith(hash: Hash, files: seq<Dropped>, sha: string, content: seq<byte>, i: int) {
    && 0 <= i < |files| && files[i].content == content && hash(content) == sha
    && forall j :: 0 <= j < i ==> hash(files[j].content) != sha
  }

  ghost predicate KeepsFirst(hash: Hash, files: seq<Dropped>, byHash: map<string, seq<byte>>) {
    && (forall f :: f in files ==> hash(f.content) in byHash)
    && (forall sha :: sha in byHash ==> exists i :: FirstWith(hash, files, sha, byHash[sha], i))
  }

  lemma KeepsFirstNext(hash: Hash, files: seq<Dropped>, f: Dropped, byHash: map<string, seq<byte>>)
    requires KeepsFirst(hash, files, byHash)
    ensures var sha := hash(f.content);
      KeepsFirst(hash, files + [f], if sha in byHash then byHash else byHash[sha := f.content])
  {
    var more, sha := files + [f], hash(f.content);
    var next := if sha in byHash then byHash else byHash[sha := f.content];
    forall x | x in next ensures exists i :: FirstWith(hash, more, x, next[x], i) {
      if x in byHash {
        var i :| FirstWith(hash, files, x, byHash[x], i);
        assert FirstWith(hash, more, x, next[x], i);
      } else {
        forall j | 0 <= j < |files| ensures hash(more[j].content) != x { assert files[j] in files; }
        assert FirstWith(hash, more, x, next[x], |files|);
      }
    }
  }

  lemma EntriesNext(hash: Hash, typeFor: TypeFor, files: seq<Dropped>, f: Dropped)
    ensures Entries(hash, typeFor, files + [f]) == Entries(hash, typeFor, files) + [EntryOf(hash, typeFor, f)]
  {
  }

  /** The hashing loop. */
  method HashFiles(hash: Hash, typeFor: TypeFor, files: seq<Dropped>)
    returns (manifest: seq<Entry>, byHash: map<string, seq<byte>>)
    ensures manifest == Entries(hash, typeFor, files) && KeepsFirst(hash, files, byHash)
  {
    manifest, byHash := [], map[];
    for n := 0 to |files|
      invariant manifest == Entries(hash, typeFor, files[..n]) && KeepsFirst(hash, files[..n], byHash)
    {
      EntriesNext(hash, typeFor, files[..n], files[n]);
      KeepsFirstNext(hash, files[..n], files[n], byHash);
      assert files[..n] + [files[n]] == files[..n + 1];
      var sha := hash(files[n].content);
      manifest := manifest + [Entry(files[n].path, sha, |files[n].content|, typeFor(files[n].path, files[n].kind))];
      if sha !in byHash { byHash := byHash[sha := files[n].content]; }
    }
    assert files[..|files|] == files;
  }

  lemma EntriesAreHashed(hash: Hash, typeFor: TypeFor, files: seq<Dropped>, byHash: map<string, seq<byte>>, e: Entry)
    requires KeepsFirst(hash, files, byHash) && e in Entries(hash, typeFor, files)
    ensures e.sha in byHash
  {
    var i :| 0 <= i < |files| && Entries(hash, typeFor, files)[i] == e;
    assert e == EntryOf(hash, typeFor, files[i]) && files[i] in files;
  }

  lemma SameLength<T>(a: seq<T>, b: seq<T>)
    requires multiset(a) == multiset(b)
    ensures |a| == |b|
  {
    assert |a| == |multiset(a)| && |b| == |multiset(b)|;
  }

  /** `buildManifest`: one entry per file, ordered by path, and the first file of each hash. */
  method BuildManifest(hash: Hash, typeFor: TypeFor, files: seq<Dropped>)
    returns (manifest: seq<Entry>, byHash: map<string, seq<byte>>)
    ensures SortOf(PathKey, Entries(hash, typeFor, files), manifest)
    ensures KeepsFirst(hash, files, byHash) && forall e :: e in manifest ==> e.sha in byHash
    ensures |manifest| == |files| && forall i :: 0 <= i < |files| ==>
      var f := files[i]; Entry(f.path, hash(f.content), |f.content|, typeFor(f.path, f.kind)) in manifest
    ensures forall i, j :: 0 <= i < j < |manifest| ==> !Less(manifest[j].path, manifest[i].path)
  {
    manifest, byHash := HashFiles(hash, typeFor, files);
    SortSorts(PathKey, manifest);
    SameElements(manifest, Sort(PathKey, manifest));
    forall e | e in manifest ensures e.sha in byHash { EntriesAreHashed(hash, typeFor, files, byHash, e); }
    forall i | 0 <= i < |files| ensures EntryOf(hash, typeFor, files[i]) in manifest {
      assert manifest[i] == EntryOf(hash, typeFor, files[i]);
    }
    SameLength(manifest, Sort(PathKey, manifest));
    manifest := Sort(PathKey, manifest);
    forall i, j | 0 <= i < j < |manifest| ensures !Less(manifest[j].path, manifest[i].path) {
      assert !Less(PathKey(manifest[j]), PathKey(manifest[i]));
    }
  }

  /** A PUT settles well only if it has a URL and a file, and the store answers 2xx. */
  predicate Uploads(urls: map<string, string>, byHash: map<string, seq<byte>>, sha: string, stored: bool) {
    sha in urls && urls[sha] != "" && sha in byHash && stored
  }

  /** The pool's turns as the deploy's `fn` settles them. */
  ghost predicate Honest(
    urls: map<string, string>, byHash: map<string, seq<byte>>, missing: seq<string>, turns: seq<Turn>,
    answers: seq<bool>)
  {
    && |turns| == |answers|
    && forall n :: 0 <= n < |turns| ==>
         var p := Run(Listed(missing), Start(6, |missing|), turns[..n]);
         var w := turns[n].worker;
         w < |p.workers| && p.workers[w].Busy? && p.workers[w].item < |missing| ==>
           turns[n].ok == Uploads(urls, byHash, missing[p.workers[w].item], answers[n])
  }

  function Listed(missing: seq<string>): seq<Option<string>> {
    seq(|missing|, i requires 0 <= i < |missing| => Some(missing[i]))
  }

  /** Turn `n` settles item `i`'s call well. */
  ghost predicate Settles(missing: seq<string>, turns: seq<Turn>, n: nat, i: nat)
    requires n < |turns|
  {
    var p, t := Run(Listed(missing), Start(6, |missing|), turns[..n]), turns[n];
    t.ok && t.worker < |p.workers| && p.workers[t.worker] == Busy(i)
  }

  lemma {:induction false} FinishedWereOk(missing: seq<string>, turns: seq<Turn>, i: nat)
    requires i in Run(Listed(missing), Start(6, |missing|), turns).finished
    ensures exists n :: 0 <= n < |turns| && Settles(missing, turns, n, i)
  {
    var last := |turns| - 1;
    var front := turns[..last];
    if i in Run(Listed(missing), Start(6, |missing|), front).finished {
      FinishedWereOk(missing, front, i);
      var n :| 0 <= n < |front| && Settles(missing, front, n, i);
      assert turns[..n] == front[..n] && turns[n] == front[n];
      assert Settles(missing, turns, n, i);
    } else {
      assert Settles(missing, turns, last, i);
    }
  }

  lemma {:induction false} OccursSomewhere(s: seq<nat>, i: nat)
    requires Times(s, i) > 0
    ensures i in s
  {
    if s[|s| - 1] != i { OccursSomewhere(s[..|s| - 1], i); }
  }

  /** Finalize is reached only when every missing blob was put to the store by this deploy. */
  lemma FinalizeAfterUploads(
    urls: map<string, string>, byHash: map<string, seq<byte>>, missing: seq<string>, turns: seq<Turn>,
    answers: seq<bool>, i: nat)
    requires Honest(urls, byHash, missing, turns, answers) && i < |missing|
    requires Resolved(Run(Listed(missing), Start(6, |missing|), turns))
    ensures exists n ::
      0 <= n < |answers| && Settles(missing, turns, n, i) && answers[n]
    ensures missing[i] in urls && urls[missing[i]] != "" && missing[i] in byHash
    ensures |Run(Listed(missing), Start(6, |missing|), turns).finished| == |missing|
  {
    var p := Run(Listed(missing), Start(6, |missing|), turns);
    ResolvesAfterAll(Listed(missing), 6, turns);
    OccursSomewhere(p.finished, i);
    FinishedWereOk(missing, turns, i);
    var n :| 0 <= n < |turns| && Settles(missing, turns, n, i);
    assert Uploads(urls, byHash, missing[i], answers[n]);
  }
}
