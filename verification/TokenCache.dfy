/**
 * The bearer token cache of apps/dashboard/lib/token-cache.ts: a bounded map with expiring
 * entries. The JavaScript `Map` is a sequence of slots in insertion order, and each read of
 * the clock is a parameter.
 */
module TokenCache {
  import opened Bytes

  datatype Slot = Slot(key: string, token: string, expiresAt: int)

  // ---- An insertion-ordered map ------------------------------------------------

  ghost predicate Distinct(s: seq<Slot>) {
    forall i, j :: 0 <= i < j < |s| ==> s[i].key != s[j].key
  }

  function Index(s: seq<Slot>, key: string): (i: nat)
    ensures i <= |s| && (i < |s| ==> s[i].key == key)
    ensures forall j :: 0 <= j < i ==> s[j].key != key
  {
    if s == [] || s[0].key == key then 0 else 1 + Index(s[1..], key)
  }

  function Lookup(s: seq<Slot>, key: string): Option<Slot> {
    var i := Index(s, key);
    if i < |s| then Some(s[i]) else None
  }

  /** A slot whose key is present keeps its place. */
  function Put(s: seq<Slot>, slot: Slot): seq<Slot> {
    var i := Index(s, slot.key);
    if i < |s| then s[i := slot] else s + [slot]
  }

  function Remove(s: seq<Slot>, key: string): seq<Slot> {
    var i := Index(s, key);
    if i < |s| then s[..i] + s[i + 1..] else s
  }

  lemma LookupIsMember(s: seq<Slot>, key: string, e: Slot)
    requires Distinct(s)
    ensures Lookup(s, key) == Some(e) <==> e in s && e.key == key
  {
  }

  lemma PutContents(s: seq<Slot>, slot: Slot)
    requires Distinct(s)
    ensures Distinct(Put(s, slot))
    ensures forall e :: e in Put(s, slot) <==> e == slot || (e in s && e.key != slot.key)
  {
    var i, t := Index(s, slot.key), Put(s, slot);
    forall e | e in s && e.key != slot.key ensures e in t {
      var j :| 0 <= j < |s| && s[j] == e;
      assert t[j] == e;
    }
    assert t[i] == slot;
  }

  lemma RemoveContents(s: seq<Slot>, key: string)
    requires Distinct(s)
    ensures Distinct(Remove(s, key))
    ensures forall e :: e in Remove(s, key) <==> e in s && e.key != key
  {
    var i, t := Index(s, key), Remove(s, key);
    forall e | e in s && e.key != key ensures e in t {
      var j :| 0 <= j < |s| && s[j] == e;
      assert j < i ==> t[j] == e;
      assert j > i ==> t[j - 1] == e;
    }
  }

  /** Setting a key that is present keeps its place; a new one goes to the end. */
  lemma PutKeepsPlace(s: seq<Slot>, slot: Slot)
    requires Distinct(s)
    ensures forall i :: 0 <= i < |s| && s[i].key == slot.key ==> Put(s, slot) == s[i := slot]
    ensures (forall i :: 0 <= i < |s| ==> s[i].key != slot.key) ==> Put(s, slot) == s + [slot]
  {
  }

  // ---- Eviction ----------------------------------------------------------------

  /** The slots still live at `now`, in order. */
  function Sweep(s: seq<Slot>, now: int): (r: seq<Slot>)
    ensures |r| <= |s|
  {
    if s == [] then []
    else
      var rest := Sweep(s[1..], now);
      if s[0].expiresAt <= now then rest else [s[0]] + rest
  }

  /** How many slots stay when the oldest make room for one more. */
  function Room(max: int): nat { if max >= 1 then max - 1 else 0 }

  /** The live slots an insertion throws away: the oldest ones, when the sweep makes no room. */
  function Dropped(s: seq<Slot>, max: int, at: int): seq<Slot> {
    var live := Sweep(s, at);
    if |s| < max || |live| < max then [] else live[..|live| - Room(max)]
  }

  function Evicted(s: seq<Slot>, max: int, at: int): seq<Slot> {
    var live := Sweep(s, at);
    if |s| < max then s else if |live| < max then live else live[|live| - Room(max)..]
  }

  lemma {:induction false} SweepContents(s: seq<Slot>, now: int)
    requires Distinct(s)
    ensures Distinct(Sweep(s, now))
    ensures forall e :: e in Sweep(s, now) <==> e in s && e.expiresAt > now
  {
    if s != [] {
      SweepContents(s[1..], now);
      assert s == [s[0]] + s[1..];
      forall e | e in s[1..] ensures e.key != s[0].key {}
    }
  }

  lemma {:induction false} SweepSkips(s: seq<Slot>, i: nat, now: int)
    requires i < |s| && s[i].expiresAt <= now
    ensures Sweep(s[..i] + s[i + 1..], now) == Sweep(s, now)
  {
    if i == 0 {
      assert s[..0] + s[1..] == s[1..];
    } else {
      SweepSkips(s[1..], i - 1, now);
      assert (s[..i] + s[i + 1..])[1..] == s[1..][..i - 1] + s[1..][i..];
    }
  }

  lemma {:induction false} SweepKeepsLive(s: seq<Slot>, now: int)
    requires forall i :: 0 <= i < |s| ==> s[i].expiresAt > now
    ensures Sweep(s, now) == s
  {
    if s != [] { SweepKeepsLive(s[1..], now); }
  }

  /** What is evicted is expired or dropped, and nothing is both kept and dropped. */
  lemma EvictedContents(s: seq<Slot>, max: int, at: int)
    requires Distinct(s)
    ensures Distinct(Evicted(s, max, at))
    ensures forall e :: e in Evicted(s, max, at) ==> e in s
    ensures forall e :: e in s && e.expiresAt > at ==> e in Evicted(s, max, at) || e in Dropped(s, max, at)
    ensures forall e :: e in Dropped(s, max, at) ==> e in s && e.expiresAt > at
    ensures forall e, d :: e in Evicted(s, max, at) && d in Dropped(s, max, at) ==> e.key != d.key
  {
    SweepContents(s, at);
    var live, kept, gone := Sweep(s, at), Evicted(s, max, at), Dropped(s, max, at);
    if |s| >= max && |live| >= max {
      assert live == gone + kept;
    }
  }

  /** Below the cap nothing goes; at it the expired go; and if that makes no room, the oldest, until one fits. */
  lemma EvictsOldest(s: seq<Slot>, max: int, at: int)
    requires max >= 1
    ensures |s| < max ==> Evicted(s, max, at) == s
    ensures |s| >= max > |Sweep(s, at)| ==> Evicted(s, max, at) == Sweep(s, at)
    ensures |s| >= max && |Sweep(s, at)| >= max ==>
      Dropped(s, max, at) + Evicted(s, max, at) == Sweep(s, at) && |Evicted(s, max, at)| == max - 1
  {
    var live := Sweep(s, at);
    if |live| >= max && |s| >= max { assert live[..|live| - (max - 1)] + live[|live| - (max - 1)..] == live; }
  }

  // ---- The cache ---------------------------------------------------------------

  /** What a read at `now` answers. */
  function Answer(s: seq<Slot>, key: string, now: int): Option<string> {
    var hit := Lookup(s, key);
    if hit.None? || hit.value.expiresAt <= now then None else Some(hit.value.token)
  }

  function AfterGet(s: seq<Slot>, key: string, now: int): seq<Slot> {
    var hit := Lookup(s, key);
    if hit.Some? && hit.value.expiresAt <= now then Remove(s, key) else s
  }

  function AfterSet(s: seq<Slot>, max: int, slot: Slot, at: int): seq<Slot> { Put(Evicted(s, max, at), slot) }

  class TokenCache {
    const ttlMs: int
    const maxEntries: int
    var store: seq<Slot>

    ghost predicate Valid()
      reads this
    {
      Distinct(store) && |store| <= (if maxEntries < 1 then 1 else maxEntries)
    }

    constructor (ttlMs: int, maxEntries: int)
      ensures Valid() && store == [] && this.ttlMs == ttlMs && this.maxEntries == maxEntries
    {
      this.ttlMs, this.maxEntries, store := ttlMs, maxEntries, [];
    }

    method Get(key: string, now: int) returns (token: Option<string>)
      requires Valid()
      modifies this
      ensures Valid()
      ensures token == Answer(old(store), key, now)
      ensures store == AfterGet(old(store), key, now)
    {
      var hit := Lookup(store, key);
      if hit.None? { return None; }
      if hit.value.expiresAt <= now {
        RemoveContents(store, key);
        store := Remove(store, key);
        return None;
      }
      return Some(hit.value.token);
    }

    method Set(key: string, token: string, sweepAt: int, now: int)
      requires Valid()
      modifies this
      ensures Valid()
      ensures store == AfterSet(old(store), maxEntries, Slot(key, token, now + ttlMs), sweepAt)
    {
      EvictIfNeeded(sweepAt);
      PutContents(store, Slot(key, token, now + ttlMs));
      store := Put(store, Slot(key, token, now + ttlMs));
    }

    method Delete(key: string)
      requires Valid()
      modifies this
      ensures Valid()
      ensures store == Remove(old(store), key)
    {
      RemoveContents(store, key);
      store := Remove(store, key);
    }

    method EvictIfNeeded(at: int)
      requires Valid()
      modifies this
      ensures Distinct(store) && (store == [] || |store| < maxEntries)
      ensures store == Evicted(old(store), maxEntries, at)
    {
      EvictedContents(store, maxEntries, at);
      if |store| < maxEntries { return; }
      SweepExpired(at);
      DropOldest();
    }

    /** The second loop of the eviction: oldest first, until there is room for one more. */
    method DropOldest()
      modifies this
      ensures store == if |old(store)| < maxEntries then old(store) else old(store)[|old(store)| - Room(maxEntries)..]
    {
      ghost var gone := 0;
      while |store| >= maxEntries && store != []
        invariant gone <= |old(store)| && store == old(store)[gone..]
        invariant gone > 0 ==> |store| >= maxEntries - 1
        decreases |store|
      {
        store := store[1..];
        gone := gone + 1;
      }
    }

    /** The first loop of the eviction: entries are deleted while the map is iterated. */
    method SweepExpired(at: int)
      modifies this
      ensures store == Sweep(old(store), at)
    {
      var i := 0;
      while i < |store|
        invariant 0 <= i <= |store| && Sweep(store, at) == Sweep(old(store), at)
        invariant forall j :: 0 <= j < i ==> store[j].expiresAt > at
        decreases |store| - i
      {
        if store[i].expiresAt <= at {
          SweepSkips(store, i, at);
          store := store[..i] + store[i + 1..];
        } else {
          i := i + 1;
        }
      }
      SweepKeepsLive(store, at);
    }
  }

  // ---- Runs --------------------------------------------------------------------

  datatype Op =
    | Get(key: string, now: int)
    | Set(key: string, token: string, sweepAt: int, now: int)
    | Delete(key: string)

  datatype Config = Config(ttl: int, max: int)

  function SlotOf(c: Config, op: Op): Slot
    requires op.Set?
  {
    Slot(op.key, op.token, op.now + c.ttl)
  }

  function Exec(c: Config, s: seq<Slot>, op: Op): seq<Slot> {
    match op
    case Get(key, now) => AfterGet(s, key, now)
    case Set(_, _, sweepAt, _) => AfterSet(s, c.max, SlotOf(c, op), sweepAt)
    case Delete(key) => Remove(s, key)
  }

  function Run(c: Config, ops: seq<Op>): seq<Slot> {
    if ops == [] then [] else Exec(c, Run(c, ops[..|ops| - 1]), ops[|ops| - 1])
  }

  lemma ExecDistinct(c: Config, s: seq<Slot>, op: Op)
    requires Distinct(s)
    ensures Distinct(Exec(c, s, op))
  {
    match op
    case Get(key, _) => RemoveContents(s, key);
    case Set(_, _, sweepAt, _) =>
      EvictedContents(s, c.max, sweepAt);
      PutContents(Evicted(s, c.max, sweepAt), SlotOf(c, op));
    case Delete(key) => RemoveContents(s, key);
  }

  lemma {:induction false} RunDistinct(c: Config, ops: seq<Op>)
    ensures Distinct(Run(c, ops))
  {
    if ops != [] {
      RunDistinct(c, ops[..|ops| - 1]);
      ExecDistinct(c, Run(c, ops[..|ops| - 1]), ops[|ops| - 1]);
    }
  }

  lemma ExecBounded(c: Config, s: seq<Slot>, op: Op)
    requires |s| <= Room(c.max) + 1
    ensures |Exec(c, s, op)| <= Room(c.max) + 1
  {
    if op.Set? { assert |Evicted(s, c.max, op.sweepAt)| <= Room(c.max); }
  }

  lemma {:induction false} RunBounded(c: Config, ops: seq<Op>)
    ensures |Run(c, ops)| <= Room(c.max) + 1
  {
    if ops != [] {
      RunBounded(c, ops[..|ops| - 1]);
      ExecBounded(c, Run(c, ops[..|ops| - 1]), ops[|ops| - 1]);
    }
  }

  /** The cap is a cap on every run exactly when it is at least one. */
  lemma CapHoldsExactly(c: Config)
    ensures (forall ops :: |Run(c, ops)| <= c.max) <==> c.max >= 1
  {
    if c.max >= 1 {
      forall ops ensures |Run(c, ops)| <= c.max { RunBounded(c, ops); }
    } else {
      var op := Set("k", "t", 0, 0);
      assert [op][..0] == [];
      assert |Run(c, [op])| == 1;
    }
  }

  // ---- What a hit means --------------------------------------------------------

  /** `ops[i]` set this slot, and nothing after it set or deleted its key. */
  ghost predicate LastSet(c: Config, ops: seq<Op>, i: int, e: Slot) {
    && 0 <= i < |ops| && ops[i].Set? && SlotOf(c, ops[i]) == e
    && forall j :: i < j < |ops| ==> ops[j].Get? || ops[j].key != e.key
  }

  ghost predicate WasSetLast(c: Config, ops: seq<Op>, e: Slot) { exists i :: LastSet(c, ops, i, e) }

  lemma StillLast(c: Config, ops: seq<Op>, op: Op, e: Slot)
    requires WasSetLast(c, ops, e) && (op.Get? || op.key != e.key)
    ensures WasSetLast(c, ops + [op], e)
  {
    var i :| LastSet(c, ops, i, e);
    assert LastSet(c, ops + [op], i, e);
  }

  lemma {:induction false} SlotsAreLastSet(c: Config, ops: seq<Op>)
    ensures forall e :: e in Run(c, ops) ==> WasSetLast(c, ops, e)
  {
    RunDistinct(c, ops);
    if ops != [] {
      var n := |ops| - 1;
      var front, op := ops[..n], ops[n];
      var s := Run(c, front);
      SlotsAreLastSet(c, front);
      RunDistinct(c, front);
      RemoveContents(s, op.key);
      if op.Set? {
        EvictedContents(s, c.max, op.sweepAt);
        PutContents(Evicted(s, c.max, op.sweepAt), SlotOf(c, op));
        assert LastSet(c, ops, n, SlotOf(c, op));
      }
      assert front + [op] == ops;
      forall e | e in Run(c, ops) ensures WasSetLast(c, ops, e) {
        if op.Get? || e.key != op.key { StillLast(c, front, op, e); }
      }
    }
  }

  /** A hit is the token last set for that key, not deleted since and not yet expired: on any clock. */
  lemma HitIsLastSet(c: Config, ops: seq<Op>, key: string, now: int, token: string)
    requires Answer(Run(c, ops), key, now) == Some(token)
    ensures exists expiresAt :: expiresAt > now && WasSetLast(c, ops, Slot(key, token, expiresAt))
  {
    SlotsAreLastSet(c, ops);
    HitIsMember(Run(c, ops), key, now, token);
    var expiresAt :| expiresAt > now && Slot(key, token, expiresAt) in Run(c, ops);
    assert WasSetLast(c, ops, Slot(key, token, expiresAt));
  }

  lemma HitIsMember(s: seq<Slot>, key: string, now: int, token: string)
    requires Answer(s, key, now) == Some(token)
    ensures exists expiresAt :: expiresAt > now && Slot(key, token, expiresAt) in s
  {
    var e := Lookup(s, key).value;
    assert e == Slot(key, token, e.expiresAt) && e in s;
  }

  // ---- Against an unbounded expiring map ---------------------------------------

  function Unbounded(c: Config, ops: seq<Op>): map<string, Slot> {
    if ops == [] then map[] else UnboundedExec(c, Unbounded(c, ops[..|ops| - 1]), ops[|ops| - 1])
  }

  function UnboundedExec(c: Config, m: map<string, Slot>, op: Op): map<string, Slot> {
    match op
    case Get(_, _) => m
    case Set(key, _, _, _) => m[key := SlotOf(c, op)]
    case Delete(key) => m - {key}
  }

  function UnboundedAnswer(m: map<string, Slot>, key: string, now: int): Option<string> {
    if key in m && m[key].expiresAt > now then Some(m[key].token) else None
  }

  /** Every read from `clock` on is answered alike. */
  ghost predicate Agrees(s: seq<Slot>, m: map<string, Slot>, clock: int) {
    forall key, t :: t >= clock ==> Answer(s, key, t) == UnboundedAnswer(m, key, t)
  }

  function Began(op: Op, clock: int): int {
    match op
    case Get(_, now) => now
    case Set(_, _, sweepAt, _) => sweepAt
    case Delete(_) => clock
  }

  function Clock(ops: seq<Op>, start: int): int {
    if ops == [] then start
    else if ops[|ops| - 1].Delete? then Clock(ops[..|ops| - 1], start)
    else ops[|ops| - 1].now
  }

  ghost predicate Monotone(ops: seq<Op>, start: int) {
    ops != [] ==>
      var front, op := ops[..|ops| - 1], ops[|ops| - 1];
      Monotone(front, start) && Clock(front, start) <= Began(op, Clock(front, start)) <= Clock(ops, start)
  }

  /** A set that drops no other key's slot while that slot is still live. */
  predicate Harmless(c: Config, s: seq<Slot>, op: Op) {
    op.Set? ==>
      forall e :: e in Dropped(s, c.max, op.sweepAt) ==> e.key == op.key || e.expiresAt <= op.now
  }

  lemma AnswerIsMember(s: seq<Slot>, key: string, now: int, token: string)
    requires Distinct(s)
    ensures Answer(s, key, now) == Some(token) <==>
      exists e :: e in s && e.key == key && e.token == token && e.expiresAt > now
  {
    if Lookup(s, key).Some? { LookupIsMember(s, key, Lookup(s, key).value); }
    if e :| e in s && e.key == key && e.token == token && e.expiresAt > now { LookupIsMember(s, key, e); }
  }

  /** Stores with the same live slots for a key answer alike for it. */
  lemma SameAnswer(s: seq<Slot>, t: seq<Slot>, key: string, now: int)
    requires Distinct(s) && Distinct(t)
    requires forall e: Slot :: e.key == key && e.expiresAt > now ==> (e in s <==> e in t)
    ensures Answer(s, key, now) == Answer(t, key, now)
  {
    var a, b := Answer(s, key, now), Answer(t, key, now);
    if a.Some? {
      AnswerIsMember(s, key, now, a.value);
      AnswerIsMember(t, key, now, a.value);
    }
    if b.Some? {
      AnswerIsMember(s, key, now, b.value);
      AnswerIsMember(t, key, now, b.value);
    }
  }

  /** A key other than the one set is answered as before, unless its live slot was dropped. */
  lemma OtherKeyAnswer(c: Config, s: seq<Slot>, op: Op, key: string, t: int)
    requires Distinct(s) && op.Set? && key != op.key && op.sweepAt <= t
    ensures var dropped := exists e :: e in Dropped(s, c.max, op.sweepAt) && e.key == key && e.expiresAt > t;
      Answer(Exec(c, s, op), key, t) == if dropped then None else Answer(s, key, t)
  {
    var kept, after := Evicted(s, c.max, op.sweepAt), Exec(c, s, op);
    EvictedContents(s, c.max, op.sweepAt);
    PutContents(kept, SlotOf(c, op));
    if d :| d in Dropped(s, c.max, op.sweepAt) && d.key == key && d.expiresAt > t {
      if Answer(after, key, t).Some? { AnswerIsMember(after, key, t, Answer(after, key, t).value); }
    } else {
      SameAnswer(s, after, key, t);
    }
  }

  lemma SetKeyAnswer(c: Config, s: seq<Slot>, op: Op, t: int)
    requires Distinct(s) && op.Set?
    ensures Answer(Exec(c, s, op), op.key, t) == if op.now + c.ttl > t then Some(op.token) else None
  {
    var kept, after := Evicted(s, c.max, op.sweepAt), Exec(c, s, op);
    EvictedContents(s, c.max, op.sweepAt);
    PutContents(kept, SlotOf(c, op));
    LookupIsMember(after, op.key, SlotOf(c, op));
  }

  lemma HarmlessAgrees(c: Config, s: seq<Slot>, m: map<string, Slot>, clock: int, op: Op, key: string, t: int)
    requires Distinct(s) && Agrees(s, m, clock) && op.Set? && clock <= op.sweepAt <= op.now <= t
    requires Harmless(c, s, op)
    ensures Answer(Exec(c, s, op), key, t) == UnboundedAnswer(UnboundedExec(c, m, op), key, t)
  {
    if key == op.key {
      SetKeyAnswer(c, s, op, t);
    } else {
      OtherKeyAnswer(c, s, op, key, t);
      assert Answer(s, key, t) == UnboundedAnswer(m, key, t);
    }
  }

  lemma HarmfulDisagrees(c: Config, s: seq<Slot>, m: map<string, Slot>, clock: int, op: Op, e: Slot)
    requires Distinct(s) && Agrees(s, m, clock) && op.Set? && clock <= op.sweepAt <= op.now
    requires e in Dropped(s, c.max, op.sweepAt) && e.key != op.key && e.expiresAt > op.now
    ensures Answer(Exec(c, s, op), e.key, op.now) != UnboundedAnswer(UnboundedExec(c, m, op), e.key, op.now)
  {
    OtherKeyAnswer(c, s, op, e.key, op.now);
    EvictedContents(s, c.max, op.sweepAt);
    AnswerIsMember(s, e.key, op.now, e.token);
    assert Answer(s, e.key, op.now) == UnboundedAnswer(m, e.key, op.now);
  }

  /** A set keeps the cache indistinguishable from the unbounded map exactly when it is harmless. */
  lemma SetAgreesExactly(c: Config, s: seq<Slot>, m: map<string, Slot>, clock: int, op: Op)
    requires Distinct(s) && Agrees(s, m, clock) && op.Set? && clock <= op.sweepAt <= op.now
    ensures Agrees(Exec(c, s, op), UnboundedExec(c, m, op), op.now) <==> Harmless(c, s, op)
  {
    if Harmless(c, s, op) {
      forall key, t | t >= op.now
        ensures Answer(Exec(c, s, op), key, t) == UnboundedAnswer(UnboundedExec(c, m, op), key, t)
      {
        HarmlessAgrees(c, s, m, clock, op, key, t);
      }
    } else {
      var e :| e in Dropped(s, c.max, op.sweepAt) && e.key != op.key && e.expiresAt > op.now;
      HarmfulDisagrees(c, s, m, clock, op, e);
    }
  }

  /** Reads and deletions never tell the two apart. */
  lemma OthersAgree(c: Config, s: seq<Slot>, m: map<string, Slot>, clock: int, op: Op)
    requires Distinct(s) && Agrees(s, m, clock) && !op.Set? && clock <= Began(op, clock)
    ensures Agrees(Exec(c, s, op), UnboundedExec(c, m, op), Began(op, clock))
  {
    var after, n := Exec(c, s, op), UnboundedExec(c, m, op);
    RemoveContents(s, op.key);
    forall key, t | t >= Began(op, clock) ensures Answer(after, key, t) == UnboundedAnswer(n, key, t) {
      if op.Delete? && key == op.key {
        if Answer(after, key, t).Some? { AnswerIsMember(after, key, t, Answer(after, key, t).value); }
      } else {
        if op.Get? && Lookup(s, op.key).Some? { LookupIsMember(s, op.key, Lookup(s, op.key).value); }
        ExpiredIsNoMember(s, op.key);
        SameAnswer(s, after, key, t);
      }
    }
  }

  lemma ExpiredIsNoMember(s: seq<Slot>, key: string)
    requires Distinct(s)
    ensures forall e :: e in s && e.key == key ==> Lookup(s, key) == Some(e)
  {
    forall e | e in s && e.key == key ensures Lookup(s, key) == Some(e) { LookupIsMember(s, key, e); }
  }

  ghost predicate AgreesAt(c: Config, ops: seq<Op>, start: int, n: nat)
    requires n <= |ops|
  {
    Agrees(Run(c, ops[..n]), Unbounded(c, ops[..n]), Clock(ops[..n], start))
  }

  ghost predicate HarmlessAt(c: Config, ops: seq<Op>, n: nat)
    requires n < |ops|
  {
    Harmless(c, Run(c, ops[..n]), ops[n])
  }

  lemma {:induction false} MonotonePrefix(ops: seq<Op>, start: int, n: nat)
    requires Monotone(ops, start) && n <= |ops|
    ensures Monotone(ops[..n], start)
    decreases |ops|
  {
    if n == |ops| {
      assert ops[..n] == ops;
    } else {
      MonotonePrefix(ops[..|ops| - 1], start, n);
      assert ops[..|ops| - 1][..n] == ops[..n];
    }
  }

  lemma LastStepAgrees(c: Config, front: seq<Op>, op: Op, start: int)
    requires Monotone(front + [op], start) && Agrees(Run(c, front), Unbounded(c, front), Clock(front, start))
    ensures Agrees(Run(c, front + [op]), Unbounded(c, front + [op]), Clock(front + [op], start)) <==>
      Harmless(c, Run(c, front), op)
  {
    assert (front + [op])[..|front|] == front;
    RunDistinct(c, front);
    var s, m, clock := Run(c, front), Unbounded(c, front), Clock(front, start);
    if op.Set? { SetAgreesExactly(c, s, m, clock, op); } else { OthersAgree(c, s, m, clock, op); }
  }

  lemma StepAgrees(c: Config, ops: seq<Op>, start: int, n: nat)
    requires Monotone(ops, start) && n < |ops| && AgreesAt(c, ops, start, n)
    ensures AgreesAt(c, ops, start, n + 1) <==> HarmlessAt(c, ops, n)
  {
    assert ops[..n + 1] == ops[..n] + [ops[n]];
    MonotonePrefix(ops, start, n + 1);
    LastStepAgrees(c, ops[..n], ops[n], start);
  }

  lemma {:induction false} AgreesUpTo(c: Config, ops: seq<Op>, start: int, n: nat)
    requires Monotone(ops, start) && n <= |ops|
    requires forall k :: 0 <= k < n ==> HarmlessAt(c, ops, k)
    ensures AgreesAt(c, ops, start, n)
  {
    if n == 0 {
      assert ops[..0] == [];
    } else {
      AgreesUpTo(c, ops, start, n - 1);
      StepAgrees(c, ops, start, n - 1);
    }
  }

  /**
   * On a clock that never goes back, the cache answers like an unbounded expiring map
   * after every step of a run exactly when no step drops another key's live slot.
   */
  lemma AgreesExactly(c: Config, ops: seq<Op>, start: int)
    requires Monotone(ops, start)
    ensures (forall n :: 0 <= n <= |ops| ==> AgreesAt(c, ops, start, n))
      <==> (forall n :: 0 <= n < |ops| ==> HarmlessAt(c, ops, n))
  {
    if forall n :: 0 <= n < |ops| ==> HarmlessAt(c, ops, n) {
      forall n | 0 <= n <= |ops| ensures AgreesAt(c, ops, start, n) { AgreesUpTo(c, ops, start, n); }
    } else {
      var n :| 0 <= n < |ops| && !HarmlessAt(c, ops, n);
      if AgreesAt(c, ops, start, n) { StepAgrees(c, ops, start, n); }
    }
  }

  /** In particular when no set happens at capacity. */
  lemma BelowCapacityAgrees(c: Config, ops: seq<Op>, start: int)
    requires Monotone(ops, start)
    requires forall n :: 0 <= n < |ops| && ops[n].Set? ==> |Run(c, ops[..n])| < c.max
    ensures Agrees(Run(c, ops), Unbounded(c, ops), Clock(ops, start))
  {
    forall n | 0 <= n < |ops| ensures HarmlessAt(c, ops, n) {}
    AgreesExactly(c, ops, start);
    assert AgreesAt(c, ops, start, |ops|) && ops[..|ops|] == ops;
  }

  // ---- Keys --------------------------------------------------------------------

  function TokenCacheKey(session: string, org: Option<string>): string {
    session + ":" + if org.Some? then org.value else ""
  }

  /** Some other session or organisation has the same key. */
  ghost predicate Shared(session: string, org: string) {
    exists s, o :: (s, o) != (session, org) && TokenCacheKey(s, Some(o)) == TokenCacheKey(session, Some(org))
  }

  lemma ColonAt(session: string, org: string, s: string, o: string)
    requires TokenCacheKey(s, Some(o)) == TokenCacheKey(session, Some(org))
    ensures |s| < |session| ==> ':' in session
    ensures |s| > |session| ==> ':' in org
    ensures |s| == |session| ==> s == session && o == org
  {
    var key := session + ":" + org;
    assert key == s + ":" + o;
    assert key[..|session|] == session && key[|session| + 1..] == org;
    assert key[..|s|] == s && key[|s| + 1..] == o && key[|s|] == ':';
    if |s| > |session| { assert org[|s| - |session| - 1] == key[|s|]; }
  }

  /** A key belongs to one session and organisation exactly when neither holds a colon. */
  lemma KeySharedExactly(session: string, org: string)
    ensures Shared(session, org) <==> ':' in session || ':' in org
  {
    if ':' in session {
      var i :| 0 <= i < |session| && session[i] == ':';
      var s, o := session[..i], session[i + 1..] + ":" + org;
      assert s + ":" + o == session + ":" + org;
      assert TokenCacheKey(s, Some(o)) == TokenCacheKey(session, Some(org));
      assert |s| != |session|;
    } else if ':' in org {
      var i :| 0 <= i < |org| && org[i] == ':';
      var s, o := session + ":" + org[..i], org[i + 1..];
      assert s + ":" + o == session + ":" + org;
      assert TokenCacheKey(s, Some(o)) == TokenCacheKey(session, Some(org));
      assert |s| != |session|;
    } else if Shared(session, org) {
      var s, o :| (s, o) != (session, org) && TokenCacheKey(s, Some(o)) == TokenCacheKey(session, Some(org));
      ColonAt(session, org, s, o);
    }
  }
}
