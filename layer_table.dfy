/** The layer cache of both interpreters: a JavaScript `Map` (which remembers
    the order in which keys were first set) from a layer key to a layer
    definition, and the sort by start that turns it into the layer table. */
module LayerTable {
  import opened Values

  /** A `Map`, as its entries in insertion order. */
  type Entries<K> = seq<(K, LayerDefinition)>

  predicate UniqueKeys<K(==)>(m: Entries<K>) {
    forall i, j :: 0 <= i < j < |m| ==> m[i].0 != m[j].0
  }

  /** Position of key `k`, or `|m|` when it is absent. */
  function KeyIndex<K(==)>(m: Entries<K>, k: K): (i: nat)
    ensures i <= |m|
    ensures i < |m| ==> m[i].0 == k
    ensures forall j :: 0 <= j < i ==> m[j].0 != k
  {
    if m == [] then 0
    else if m[0].0 == k then 0
    else 1 + KeyIndex(m[1..], k)
  }

  /** The first entry with key `k` is the one `KeyIndex` finds. */
  lemma KeyIndexAt<K>(m: Entries<K>, k: K, i: nat)
    requires i <= |m|
    requires i < |m| ==> m[i].0 == k
    requires forall j :: 0 <= j < i ==> m[j].0 != k
    ensures KeyIndex(m, k) == i
  {
    if m != [] && m[0].0 != k {
      assert i > 0;
      KeyIndexAt(m[1..], k, i - 1);
    }
  }

  /** `map.get(k)`. */
  function Get<K(==)>(m: Entries<K>, k: K): (r: Option<LayerDefinition>)
    ensures r.Some? <==> exists i :: 0 <= i < |m| && m[i].0 == k
  {
    var i := KeyIndex(m, k);
    if i < |m| then Some(m[i].1) else None
  }

  /** `map.set(k, v)`: an existing key keeps its place and takes the new
      value, a new key goes last. */
  function Put<K(==)>(m: Entries<K>, k: K, v: LayerDefinition): Entries<K>
  {
    var i := KeyIndex(m, k);
    if i < |m| then m[i := (k, v)] else m + [(k, v)]
  }

  /** `Put` keeps keys unique, makes `k` map to `v`, leaves every other key's
      value where it was, and keeps every entry's position. */
  lemma PutSpec<K>(m: Entries<K>, k: K, v: LayerDefinition)
    requires UniqueKeys(m)
    ensures UniqueKeys(Put(m, k, v))
    ensures Get(Put(m, k, v), k) == Some(v)
    ensures forall k' :: k' != k ==> Get(Put(m, k, v), k') == Get(m, k')
    ensures |Put(m, k, v)| == |m| + (if Get(m, k).None? then 1 else 0)
    ensures forall i :: 0 <= i < |m| ==> Put(m, k, v)[i].0 == m[i].0
  {
    var i := KeyIndex(m, k);
    var r := Put(m, k, v);
    KeyIndexAt(r, k, i);
    forall k' | k' != k
      ensures Get(r, k') == Get(m, k')
    {
      var j := KeyIndex(m, k');
      if j < |m| {
        KeyIndexAt(r, k', j);
      } else {
        KeyIndexAt(r, k', |r|);
      }
    }
  }

  /** The keys of a `Map`. */
  function Keys<K>(m: Entries<K>): set<K> {
    set i | 0 <= i < |m| :: m[i].0
  }

  /** `Put` adds its key to the keys, and nothing else. */
  lemma PutKeys<K>(m: Entries<K>, k: K, v: LayerDefinition)
    ensures Keys(Put(m, k, v)) == Keys(m) + {k}
  {
    var i := KeyIndex(m, k);
    var r := Put(m, k, v);
    if i < |m| {
      assert forall j :: 0 <= j < |m| ==> r[j].0 == m[j].0;
    } else {
      assert forall j :: 0 <= j < |m| ==> r[j].0 == m[j].0;
      assert r[|m|].0 == k;
    }
  }

  /** Keys that are unique are as many as the entries. */
  lemma {:induction false} KeysOfUnique<K>(m: Entries<K>)
    requires UniqueKeys(m)
    ensures |Keys(m)| == |m|
  {
    if m != [] {
      var init := m[..|m| - 1];
      assert UniqueKeys(init);
      KeysOfUnique(init);
      assert Keys(m) == Keys(init) + {m[|m| - 1].0};
      assert m[|m| - 1].0 !in Keys(init);
    }
  }

  /** The values, in insertion order: `Array.from(map.values())`. */
  function MapValues<K>(m: Entries<K>): (vs: seq<LayerDefinition>)
    ensures |vs| == |m|
    ensures forall i :: 0 <= i < |m| ==> vs[i] == m[i].1
  {
    if m == [] then [] else [m[0].1] + MapValues(m[1..])
  }

  predicate SortedByStart(s: seq<LayerDefinition>) {
    forall i, j :: 0 <= i < j < |s| ==> s[i].start <= s[j].start
  }

  /** Insert `d` into a sorted list after every entry whose start is not
      larger, so that entries with equal starts keep their order. */
  function InsertByStart(d: LayerDefinition, s: seq<LayerDefinition>): (r: seq<LayerDefinition>)
    ensures |r| == |s| + 1
    ensures r[0] == d || (s != [] && r[0] == s[0])
  {
    if s == [] then [d]
    else if d.start < s[0].start then [d] + s
    else
      assert s == [s[0]] + s[1..];
      [s[0]] + InsertByStart(d, s[1..])
  }

  /** Inserting adds `d` and loses nothing. */
  lemma {:induction false} InsertPermutes(d: LayerDefinition, s: seq<LayerDefinition>)
    ensures multiset(InsertByStart(d, s)) == multiset(s) + multiset{d}
  {
    if s != [] && d.start >= s[0].start {
      InsertPermutes(d, s[1..]);
      assert s == [s[0]] + s[1..];
    }
  }

  /** Inserting into a sorted list keeps it sorted. */
  lemma {:induction false} InsertSorted(d: LayerDefinition, s: seq<LayerDefinition>)
    requires SortedByStart(s)
    ensures SortedByStart(InsertByStart(d, s))
  {
    if s != [] && d.start >= s[0].start {
      InsertSorted(d, s[1..]);
      var rest := InsertByStart(d, s[1..]);
      assert rest[0] == d || rest[0] == s[1];
      assert forall i :: 0 <= i < |rest| ==> rest[0].start <= rest[i].start;
    }
  }

  /** `values.sort((v1, v2) => v1.start - v2.start)`: a stable sort by start;
      each entry is inserted after the earlier ones with the same start. */
  function SortByStart(s: seq<LayerDefinition>): (r: seq<LayerDefinition>)
    ensures SortedByStart(r)
    ensures |r| == |s|
  {
    if s == [] then []
    else
      var n := |s| - 1;
      InsertSorted(s[n], SortByStart(s[..n]));
      assert s == s[..n] + [s[n]];
      InsertByStart(s[n], SortByStart(s[..n]))
  }

  /** The sort is a permutation of its input. */
  lemma {:induction false} SortPermutes(s: seq<LayerDefinition>)
    ensures multiset(SortByStart(s)) == multiset(s)
  {
    if s != [] {
      var n := |s| - 1;
      SortPermutes(s[..n]);
      InsertPermutes(s[n], SortByStart(s[..n]));
      assert s == s[..n] + [s[n]];
    }
  }
}
