/** Order-keeping collections: JavaScript's insertion-ordered `Set` and `Map` as sequences,
    and the stable first-wins de-duplication every normalizer uses. */
module Collections {
  import opened Text

  datatype Option<+T> = None | Some(value: T) {
    function GetOr(default: T): T {
      match this
      case Some(v) => v
      case None => default
    }
  }

  predicate NoDuplicates<T(==)>(s: seq<T>) {
    forall i, j :: 0 <= i < j < |s| ==> s[i] != s[j]
  }

  // ---------- insertion-ordered sets ----------

  function AddNew<T(==)>(s: seq<T>, x: T): seq<T> {
    if x in s then s else s + [x]
  }

  /** The distinct elements of `s`, in order of first appearance. */
  function Distinct<T(==)>(s: seq<T>): seq<T> {
    if s == [] then [] else AddNew(Distinct(s[..|s| - 1]), s[|s| - 1])
  }

  lemma {:induction false} DistinctMembers<T>(s: seq<T>)
    ensures NoDuplicates(Distinct(s))
    ensures forall x :: x in Distinct(s) <==> x in s
  {
    if s != [] {
      var front, last := s[..|s| - 1], s[|s| - 1];
      DistinctMembers(front);
      assert s == front + [last];
    }
  }

  lemma {:induction false} DistinctFixed<T>(s: seq<T>)
    requires NoDuplicates(s)
    ensures Distinct(s) == s
  {
    if s != [] {
      var front, last := s[..|s| - 1], s[|s| - 1];
      DistinctFixed(front);
      assert s == front + [last];
      assert last !in front;
    }
  }

  /** Adding only known elements changes nothing. */
  lemma {:induction false} DistinctAbsorbs<T>(s: seq<T>, extra: seq<T>)
    requires forall x :: x in extra ==> x in s
    ensures Distinct(s + extra) == Distinct(s)
  {
    if extra == [] {
      assert s + extra == s;
    } else {
      var front, last := extra[..|extra| - 1], extra[|extra| - 1];
      forall x | x in front ensures x in s {
        assert x in extra;
      }
      DistinctAbsorbs(s, front);
      var all := s + extra;
      assert all[..|all| - 1] == s + front && all[|all| - 1] == last;
      assert last in extra;
      DistinctMembers(s);
    }
  }

  /** Appending one element to the source adds it to the set. */
  lemma DistinctSnoc<T>(s: seq<T>, x: T)
    ensures Distinct(s + [x]) == AddNew(Distinct(s), x)
  {
    assert (s + [x])[..|s + [x]| - 1] == s;
  }

  // ---------- picking some of a list ----------

  /** The items for which `keep` holds, in order. */
  function Kept<T>(items: seq<T>, keep: T -> bool): seq<T> {
    if items == [] then [] else (if keep(items[0]) then [items[0]] else []) + Kept(items[1..], keep)
  }

  lemma KeptCons<T>(first: T, rest: seq<T>, keep: T -> bool)
    ensures Kept([first] + rest, keep) == (if keep(first) then [first] else []) + Kept(rest, keep)
  {
    assert ([first] + rest)[1..] == rest;
  }

  lemma KeptSnoc<T>(front: seq<T>, last: T, keep: T -> bool)
    ensures Kept(front + [last], keep) == Kept(front, keep) + (if keep(last) then [last] else [])
  {
    if front == [] {
      assert [last][1..] == [] && front + [last] == [last];
    } else {
      KeptSnoc(front[1..], last, keep);
      assert (front + [last])[1..] == front[1..] + [last];
    }
  }

  lemma {:induction false} EverythingKept<T>(items: seq<T>, keep: T -> bool)
    requires forall i :: 0 <= i < |items| ==> keep(items[i])
    ensures Kept(items, keep) == items
  {
    if items != [] {
      EverythingKept(items[1..], keep);
    }
  }

  lemma {:induction false} NothingKept<T>(items: seq<T>, keep: T -> bool)
    requires forall i :: 0 <= i < |items| ==> !keep(items[i])
    ensures Kept(items, keep) == []
  {
    if items != [] {
      NothingKept(items[1..], keep);
    }
  }

  // ---------- de-duplication by key ----------

  /** The item at `i` is the first one with its folded key. */
  predicate IsFirst<T>(items: seq<T>, key: T -> string, i: nat)
    requires i < |items|
  {
    forall j :: 0 <= j < i ==> Fold(key(items[j])) != Fold(key(items[i]))
  }

  predicate DistinctKeys<T>(items: seq<T>, key: T -> string) {
    forall i, j :: 0 <= i < j < |items| ==> Fold(key(items[i])) != Fold(key(items[j]))
  }

  /** Positions of the first items, in order. */
  function FirstPositions<T>(items: seq<T>, key: T -> string, n: nat): (r: seq<nat>)
    requires n <= |items|
    ensures forall k :: 0 <= k < |r| ==> r[k] < n
  {
    if n == 0 then []
    else FirstPositions(items, key, n - 1) + (if IsFirst(items, key, n - 1) then [n - 1] else [])
  }

  /** The items that survive de-duplication. */
  function DedupedBy<T>(items: seq<T>, key: T -> string): (r: seq<T>) {
    var at := FirstPositions(items, key, |items|);
    seq(|at|, k requires 0 <= k < |at| => items[at[k]])
  }

  lemma {:induction false} FirstPositionsExact<T>(items: seq<T>, key: T -> string, n: nat)
    requires n <= |items|
    ensures var at := FirstPositions(items, key, n);
            && (forall a, b :: 0 <= a < b < |at| ==> at[a] < at[b])
            && (forall i :: 0 <= i < n ==> (i in at <==> IsFirst(items, key, i)))
  {
    hide IsFirst;
    if n > 0 {
      FirstPositionsExact(items, key, n - 1);
      var before, at := FirstPositions(items, key, n - 1), FirstPositions(items, key, n);
      forall i | 0 <= i < n ensures i in at <==> IsFirst(items, key, i) {
        if i == n - 1 {
          assert i !in before;
          if IsFirst(items, key, i) { assert at[|at| - 1] == i; }
        } else {
          assert i in at <==> i in before;
        }
      }
    }
  }

  lemma {:induction false} HasFirst<T>(items: seq<T>, key: T -> string, i: nat) returns (f: nat)
    requires i < |items|
    ensures f <= i && IsFirst(items, key, f) && Fold(key(items[f])) == Fold(key(items[i]))
  {
    if IsFirst(items, key, i) {
      f := i;
    } else {
      var j :| 0 <= j < i && Fold(key(items[j])) == Fold(key(items[i]));
      f := HasFirst(items, key, j);
    }
  }

  /** What survives has no repeats (`DedupedByDistinct`), keeps every key
      (`DedupedByKeepsKey`), and is always the first item of its key
      (`DedupedByKeepsFirsts`), in the original order (`FirstPositionsExact`). */
  lemma DedupedByDistinct<T>(items: seq<T>, key: T -> string)
    ensures DistinctKeys(DedupedBy(items, key), key)
  {
    var at, out := FirstPositions(items, key, |items|), DedupedBy(items, key);
    FirstPositionsExact(items, key, |items|);
    forall a, b | 0 <= a < b < |out| ensures Fold(key(out[a])) != Fold(key(out[b])) {
      assert at[b] in at && at[a] < at[b];
      assert IsFirst(items, key, at[b]);
    }
  }

  lemma DedupedByKeepsKey<T>(items: seq<T>, key: T -> string, i: nat) returns (k: nat)
    requires i < |items|
    ensures k < |DedupedBy(items, key)|
    ensures Fold(key(DedupedBy(items, key)[k])) == Fold(key(items[i]))
  {
    FirstPositionsExact(items, key, |items|);
    var f := HasFirst(items, key, i);
    k :| 0 <= k < |FirstPositions(items, key, |items|)| && FirstPositions(items, key, |items|)[k] == f;
  }

  lemma DedupedByKeepsFirsts<T>(items: seq<T>, key: T -> string, k: nat) returns (i: nat)
    requires k < |DedupedBy(items, key)|
    ensures i < |items| && DedupedBy(items, key)[k] == items[i] && IsFirst(items, key, i)
  {
    FirstPositionsExact(items, key, |items|);
    i := FirstPositions(items, key, |items|)[k];
  }

  lemma {:induction false} FirstPositionsAll<T>(items: seq<T>, key: T -> string, n: nat)
    requires n <= |items| && DistinctKeys(items, key)
    ensures FirstPositions(items, key, n) == seq(n, i requires 0 <= i < n => i)
  {
    if n > 0 {
      FirstPositionsAll(items, key, n - 1);
      assert IsFirst(items, key, n - 1);
    }
  }

  /** A list without repeats is left exactly as it is. */
  lemma DedupedByFixed<T>(items: seq<T>, key: T -> string)
    requires DistinctKeys(items, key)
    ensures DedupedBy(items, key) == items
  {
    FirstPositionsAll(items, key, |items|);
  }

  lemma DedupedByIdempotent<T>(items: seq<T>, key: T -> string)
    ensures DedupedBy(DedupedBy(items, key), key) == DedupedBy(items, key)
  {
    DedupedByDistinct(items, key);
    DedupedByFixed(DedupedBy(items, key), key);
  }

  method DedupeBy<T>(items: seq<T>, key: T -> string) returns (out: seq<T>)
    ensures out == DedupedBy(items, key)
  {
    hide Fold;
    var seen: set<string> := {};
    out := [];
    for i := 0 to |items|
      invariant seen == set j | 0 <= j < i :: Fold(key(items[j]))
      invariant var at := FirstPositions(items, key, i);
                |out| == |at| && forall k :: 0 <= k < |at| ==> out[k] == items[at[k]]
    {
      var k := Fold(key(items[i]));
      if k in seen {
        assert !IsFirst(items, key, i);
        continue;
      }
      assert IsFirst(items, key, i);
      seen := seen + {k};
      out := out + [items[i]];
    }
  }

  // ---------- insertion-ordered maps ----------

  datatype Entry<V> = Entry(key: string, value: V)

  /** A map as the list of its entries in insertion order. */
  type Table<V> = seq<Entry<V>>

  predicate UniqueKeys<V>(t: Table<V>) {
    forall i, j :: 0 <= i < j < |t| ==> t[i].key != t[j].key
  }

  /** Where `k` sits, or the length of the table. */
  function Position<V>(t: Table<V>, k: string): (p: nat)
    ensures p <= |t|
    ensures p < |t| ==> t[p].key == k
    ensures forall i :: 0 <= i < p ==> t[i].key != k
  {
    if t == [] then 0 else if t[0].key == k then 0 else 1 + Position(t[1..], k)
  }

  predicate Has<V>(t: Table<V>, k: string) {
    Position(t, k) < |t|
  }

  /** `Map.set`: an existing key keeps its place. */
  function Put<V>(t: Table<V>, k: string, v: V): Table<V> {
    var p := Position(t, k);
    if p < |t| then t[p := Entry(k, v)] else t + [Entry(k, v)]
  }

  function KeySet<V>(t: Table<V>): set<string> {
    set i | 0 <= i < |t| :: t[i].key
  }

  lemma PutKeepsKeys<V>(t: Table<V>, k: string, v: V)
    requires UniqueKeys(t)
    ensures UniqueKeys(Put(t, k, v))
    ensures KeySet(Put(t, k, v)) == KeySet(t) + {k}
  {
    var u := Put(t, k, v);
    forall x | x in KeySet(t) ensures x in KeySet(u) {
      var i :| 0 <= i < |t| && t[i].key == x;
      assert u[i].key == x;
    }
    assert u[Position(t, k)].key == k;
  }

  lemma HasIff<V>(t: Table<V>, k: string)
    ensures Has(t, k) <==> k in KeySet(t)
  {
    if Has(t, k) { assert t[Position(t, k)].key == k; }
  }
}
