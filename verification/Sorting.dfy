/** Sorting by a key whose values compare lexicographically. */
module Sorting {
  import opened Bytes
  import opened Utf

  ghost predicate Ordered<T>(key: T -> seq<int>, s: seq<T>) {
    forall i, j :: 0 <= i < j < |s| ==> !Less(key(s[j]), key(s[i]))
  }

  /** `t` is what a library sort of `s` may return. */
  ghost predicate SortOf<T>(key: T -> seq<int>, s: seq<T>, t: seq<T>) {
    multiset(s) == multiset(t) && Ordered(key, t)
  }

  function Insert<T>(key: T -> seq<int>, f: T, s: seq<T>): seq<T> {
    if s == [] || Less(key(f), key(s[0])) then [f] + s else [s[0]] + Insert(key, f, s[1..])
  }

  function Sort<T>(key: T -> seq<int>, s: seq<T>): seq<T> {
    if s == [] then [] else Insert(key, s[|s| - 1], Sort(key, s[..|s| - 1]))
  }

  lemma {:induction false} InsertContents<T>(key: T -> seq<int>, f: T, s: seq<T>)
    ensures multiset(Insert(key, f, s)) == multiset(s) + multiset{f}
    ensures forall e :: e in Insert(key, f, s) <==> e == f || e in s
  {
    if s != [] {
      assert s == [s[0]] + s[1..];
      InsertContents(key, f, s[1..]);
    }
  }

  /** Nothing in `s` comes before `f`. */
  ghost predicate NoneBefore<T>(key: T -> seq<int>, f: T, s: seq<T>) {
    forall e :: e in s ==> !Less(key(e), key(f))
  }

  lemma OrderedCons<T>(key: T -> seq<int>, f: T, s: seq<T>)
    requires Ordered(key, s) && NoneBefore(key, f, s)
    ensures Ordered(key, [f] + s)
  {
    var r := [f] + s;
    forall i, j | 0 <= i < j < |r| ensures !Less(key(r[j]), key(r[i])) { assert r[j] in s; }
  }

  lemma NoneBeforeLess<T>(key: T -> seq<int>, f: T, s: seq<T>)
    requires Ordered(key, s) && (s == [] || Less(key(f), key(s[0])))
    ensures NoneBefore(key, f, s)
  {
    forall e | e in s ensures !Less(key(e), key(f)) {
      LessIsTotal(key(f), key(s[0]));
      if Less(key(e), key(f)) { LessIsTransitive(key(e), key(f), key(s[0])); }
    }
  }

  lemma {:induction false} InsertSorts<T>(key: T -> seq<int>, f: T, s: seq<T>)
    requires Ordered(key, s)
    ensures Ordered(key, Insert(key, f, s))
  {
    if s == [] || Less(key(f), key(s[0])) {
      NoneBeforeLess(key, f, s);
      OrderedCons(key, f, s);
    } else {
      RestIsOrdered(key, s);
      InsertSorts(key, f, s[1..]);
      InsertContents(key, f, s[1..]);
      assert NoneBefore(key, s[0], Insert(key, f, s[1..]));
      OrderedCons(key, s[0], Insert(key, f, s[1..]));
    }
  }

  lemma {:induction false} SortSorts<T>(key: T -> seq<int>, s: seq<T>)
    ensures SortOf(key, s, Sort(key, s))
  {
    if s != [] {
      SortSorts(key, s[..|s| - 1]);
      InsertContents(key, s[|s| - 1], Sort(key, s[..|s| - 1]));
      InsertSorts(key, s[|s| - 1], Sort(key, s[..|s| - 1]));
      assert s == s[..|s| - 1] + [s[|s| - 1]];
    }
  }

  /** No two different elements share a key. */
  ghost predicate KeyDetermines<T>(key: T -> seq<int>, s: seq<T>) {
    forall f, g :: f in s && g in s && key(f) == key(g) ==> f == g
  }

  lemma FirstIsUnique<T>(key: T -> seq<int>, s: seq<T>, t: seq<T>)
    requires s != [] && t != [] && multiset(s) == multiset(t)
    requires Ordered(key, s) && Ordered(key, t) && KeyDetermines(key, s)
    ensures s[0] == t[0]
  {
    SameElements(s, t);
    assert s[0] in s && t[0] in t;
    var k :| 0 <= k < |t| && t[k] == s[0];
    var m :| 0 <= m < |s| && s[m] == t[0];
    LessIsTotal(key(s[0]), key(t[0]));
  }

  lemma RestsMatch<T>(s: seq<T>, t: seq<T>)
    requires s != [] && t != [] && s[0] == t[0] && multiset(s) == multiset(t)
    ensures multiset(s[1..]) == multiset(t[1..])
    ensures s[1..] == t[1..] ==> s == t
  {
    assert s == [s[0]] + s[1..] && t == [t[0]] + t[1..];
    assert multiset(s[1..]) == multiset(s) - multiset{s[0]};
    assert multiset(t[1..]) == multiset(t) - multiset{s[0]};
  }

  /** Then every library sort returns the same list. */
  lemma {:induction false} SortIsUnique<T>(key: T -> seq<int>, s: seq<T>, t: seq<T>)
    requires multiset(s) == multiset(t) && Ordered(key, s) && Ordered(key, t) && KeyDetermines(key, s)
    ensures s == t
    decreases |s|
  {
    assert |s| == |multiset(s)| && |t| == |multiset(t)|;
    if s != [] {
      FirstIsUnique(key, s, t);
      RestsMatch(s, t);
      RestIsOrdered(key, s);
      RestIsOrdered(key, t);
      RestDetermines(key, s);
      SortIsUnique(key, s[1..], t[1..]);
    }
  }

  lemma RestIsOrdered<T>(key: T -> seq<int>, s: seq<T>)
    requires s != [] && Ordered(key, s)
    ensures Ordered(key, s[1..]) && NoneBefore(key, s[0], s[1..])
  {
    forall e | e in s[1..] ensures !Less(key(e), key(s[0])) {
      var j :| 0 <= j < |s| - 1 && s[1..][j] == e;
      assert s[j + 1] == e;
    }
  }

  lemma RestDetermines<T>(key: T -> seq<int>, s: seq<T>)
    requires s != [] && KeyDetermines(key, s)
    ensures KeyDetermines(key, s[1..])
  {
    forall f, g | f in s[1..] && g in s[1..] && key(f) == key(g) ensures f == g { assert f in s && g in s; }
  }

  lemma SameElements<T>(s: seq<T>, t: seq<T>)
    requires multiset(s) == multiset(t)
    ensures forall f :: f in s <==> f in t
  {
    forall f ensures f in s <==> f in t {
      assert f in s <==> f in multiset(s);
      assert f in t <==> f in multiset(t);
    }
  }

  // ---- Stability ---------------------------------------------------------------

  function Picks<T>(key: T -> seq<int>, x: seq<int>): T -> seq<T> { e => if key(e) == x then [e] else [] }

  /** The elements with one key, in order. */
  function OfKey<T>(key: T -> seq<int>, s: seq<T>, x: seq<int>): seq<T> { Concat(Picks(key, x), s) }

  lemma OfKeyOne<T>(key: T -> seq<int>, e: T, x: seq<int>)
    ensures OfKey(key, [e], x) == if key(e) == x then [e] else []
  {
    ConcatOne(Picks(key, x), e);
  }

  lemma OfKeyConcat<T>(key: T -> seq<int>, a: seq<T>, b: seq<T>, x: seq<int>)
    ensures OfKey(key, a + b, x) == OfKey(key, a, x) + OfKey(key, b, x)
  {
    ConcatAppend(Picks(key, x), a, b);
  }

  lemma {:induction false} NoneOfKey<T>(key: T -> seq<int>, s: seq<T>, x: seq<int>)
    requires forall i :: 0 <= i < |s| ==> key(s[i]) != x
    ensures OfKey(key, s, x) == []
  {
    if s != [] { NoneOfKey(key, s[..|s| - 1], x); }
  }

  lemma {:induction false} InsertAt<T>(key: T -> seq<int>, f: T, s: seq<T>) returns (k: nat)
    ensures k <= |s| && Insert(key, f, s) == s[..k] + [f] + s[k..]
    ensures k < |s| ==> Less(key(f), key(s[k]))
  {
    if s == [] || Less(key(f), key(s[0])) {
      k := 0;
    } else {
      k := InsertAt(key, f, s[1..]);
      k := k + 1;
      assert s == [s[0]] + s[1..] && s[..k] == [s[0]] + s[1..][..k - 1];
    }
  }

  lemma LaterAreGreater<T>(key: T -> seq<int>, f: T, s: seq<T>, k: nat)
    requires Ordered(key, s) && k <= |s| && (k < |s| ==> Less(key(f), key(s[k])))
    ensures forall i :: k <= i < |s| ==> key(s[i]) != key(f)
  {
    forall i | k <= i < |s| ensures key(s[i]) != key(f) {
      LessIsTotal(key(f), key(s[k]));
      assert i > k ==> !Less(key(s[i]), key(s[k]));
    }
  }

  lemma InsertIsLast<T>(key: T -> seq<int>, f: T, s: seq<T>, x: seq<int>)
    requires Ordered(key, s)
    ensures OfKey(key, Insert(key, f, s), x) == OfKey(key, s, x) + OfKey(key, [f], x)
  {
    var k := InsertAt(key, f, s);
    LaterAreGreater(key, f, s, k);
    InsertedOfKey(key, f, s, Insert(key, f, s), s[..k], s[k..], x);
  }

  lemma InsertedOfKey<T>(key: T -> seq<int>, f: T, s: seq<T>, inserted: seq<T>, a: seq<T>, b: seq<T>, x: seq<int>)
    requires s == a + b && inserted == a + [f] + b
    requires forall i :: 0 <= i < |b| ==> key(b[i]) != key(f)
    ensures OfKey(key, inserted, x) == OfKey(key, s, x) + OfKey(key, [f], x)
  {
    SplitOfKey(key, f, a, b, x);
  }

  lemma SplitOfKey<T>(key: T -> seq<int>, f: T, a: seq<T>, b: seq<T>, x: seq<int>)
    requires forall i :: 0 <= i < |b| ==> key(b[i]) != key(f)
    ensures OfKey(key, a + [f] + b, x) == OfKey(key, a + b, x) + OfKey(key, [f], x)
  {
    OfKeyConcat(key, a + [f], b, x);
    OfKeyConcat(key, a, [f], x);
    OfKeyConcat(key, a, b, x);
    OfKeyOne(key, f, x);
    if key(f) == x { NoneOfKey(key, b, x); }
    Rearrange(OfKey(key, a, x), OfKey(key, [f], x), OfKey(key, b, x));
  }

  lemma Rearrange<T>(a: seq<T>, f: seq<T>, b: seq<T>)
    requires f == [] || b == []
    ensures (a + f) + b == (a + b) + f
  {
  }

  /** Elements with equal keys keep their order: the sort is stable. */
  lemma {:induction false} SortIsStable<T>(key: T -> seq<int>, s: seq<T>, x: seq<int>)
    ensures OfKey(key, Sort(key, s), x) == OfKey(key, s, x)
  {
    if s != [] {
      var front, last := s[..|s| - 1], s[|s| - 1];
      SortIsStable(key, front, x);
      SortSorts(key, front);
      InsertIsLast(key, last, Sort(key, front), x);
      OfKeyConcat(key, front, [last], x);
      assert s == front + [last];
    }
  }

  // ---- Swapping elements of equal keys -----------------------------------------

  function Swap<T>(xs: seq<T>, i: nat, j: nat): seq<T>
    requires i < |xs| && j < |xs|
  {
    xs[i := xs[j]][j := xs[i]]
  }

  lemma SwapPermutes<T>(xs: seq<T>, i: nat, j: nat)
    requires i < j < |xs|
    ensures multiset(Swap(xs, i, j)) == multiset(xs)
  {
    var once := xs[i := xs[j]];
    assert multiset(once) == multiset(xs) - multiset{xs[i]} + multiset{xs[j]};
    assert multiset(once[j := xs[i]]) == multiset(once) - multiset{once[j]} + multiset{xs[i]};
  }

  /** Swapping two elements of equal keys in a sorted list leaves it sorted. */
  lemma SwapStaysSorted<T>(key: T -> seq<int>, s: seq<T>, t: seq<T>, i: nat, j: nat)
    requires SortOf(key, s, t) && i < j < |t| && key(t[i]) == key(t[j])
    ensures SortOf(key, s, Swap(t, i, j))
  {
    var u := Swap(t, i, j);
    SwapPermutes(t, i, j);
    forall m, n | 0 <= m < n < |u| ensures !Less(key(u[n]), key(u[m])) {
      assert key(u[m]) == key(t[m]) && key(u[n]) == key(t[n]);
    }
  }
}
