/** Bulk writing of rollup rows: merge the rows that share a key, cut the result into chunks, and
    write each chunk with one `INSERT ... ON CONFLICT DO UPDATE`. */
module BulkUpsert {
  import opened Prelude

  // ------------------------------------------------------------ first appearances

  predicate Distinct<K(==,!new)>(keys: seq<K>) {
    forall i, j :: 0 <= i < j < |keys| ==> keys[i] != keys[j]
  }

  /** The distinct keys in order of first appearance. */
  function FirstKeys<K(==,!new)>(keys: seq<K>): (f: seq<K>)
    ensures Distinct(f)
    ensures forall k :: k in f <==> k in keys
  {
    if keys == [] then []
    else
      var init, last := keys[..|keys| - 1], keys[|keys| - 1];
      assert keys == init + [last];
      if last in init then FirstKeys(init) else FirstKeys(init) + [last]
  }

  function KeysOf<T, K>(rows: seq<T>, key: T -> K): (keys: seq<K>)
    ensures |keys| == |rows|
    ensures forall i :: 0 <= i < |rows| ==> keys[i] == key(rows[i])
  {
    seq(|rows|, i requires 0 <= i < |rows| => key(rows[i]))
  }

  /** The rows with key `k`, added together from left to right. */
  function GroupSum<T, K(==,!new)>(rows: seq<T>, key: T -> K, sum: (T, T) -> T, k: K): T
    requires k in KeysOf(rows, key)
    decreases |rows|
  {
    var init, last := rows[..|rows| - 1], rows[|rows| - 1];
    assert KeysOf(rows, key) == KeysOf(init, key) + [key(last)];
    if key(last) != k then GroupSum(init, key, sum, k)
    else if k in KeysOf(init, key) then sum(GroupSum(init, key, sum, k), last)
    else last
  }

  /** One row per key, in order of first appearance, each the sum of its input rows. */
  function Merged<T, K(==,!new)>(rows: seq<T>, key: T -> K, sum: (T, T) -> T): (merged: seq<T>)
    ensures |merged| == |FirstKeys(KeysOf(rows, key))|
  {
    var keys := FirstKeys(KeysOf(rows, key));
    seq(|keys|, i requires 0 <= i < |keys| => GroupSum(rows, key, sum, keys[i]))
  }

  function IndexOf<K(==,!new)>(keys: seq<K>, k: K): (i: nat)
    requires k in keys
    ensures i < |keys| && keys[i] == k
  {
    if keys[0] == k then 0 else 1 + IndexOf(keys[1..], k)
  }

  /** Merging one more row changes one entry or appends one. */
  lemma MergeOneMore<T, K(!new)>(rows: seq<T>, row: T, key: T -> K, sum: (T, T) -> T)
    ensures var keys, k := FirstKeys(KeysOf(rows, key)), key(row);
      && FirstKeys(KeysOf(rows + [row], key)) == (if k in keys then keys else keys + [k])
      && Merged(rows + [row], key, sum) ==
           if k in keys
           then Merged(rows, key, sum)[IndexOf(keys, k) := sum(GroupSum(rows, key, sum, k), row)]
           else Merged(rows, key, sum) + [row]
  {
    var keys, k := FirstKeys(KeysOf(rows, key)), key(row);
    var all := rows + [row];
    assert all[..|all| - 1] == rows;
    assert KeysOf(all, key) == KeysOf(rows, key) + [k];
    assert KeysOf(all, key)[..|all| - 1] == KeysOf(rows, key);
    var after := if k in keys
      then Merged(rows, key, sum)[IndexOf(keys, k) := sum(GroupSum(rows, key, sum, k), row)]
      else Merged(rows, key, sum) + [row];
    var keys' := FirstKeys(KeysOf(all, key));
    forall i | 0 <= i < |keys'| ensures Merged(all, key, sum)[i] == after[i] {
      if keys'[i] != k { assert keys'[i] in KeysOf(rows, key); }
    }
  }

  /** The JavaScript Map of `mergeByKey` after some rows: its keys in insertion order and their values. */
  ghost predicate MapOf<T(!new), K(!new)>(order: seq<K>, byKey: map<K, T>, rows: seq<T>, key: T -> K, sum: (T, T) -> T) {
    && order == FirstKeys(KeysOf(rows, key))
    && (forall k :: k in byKey <==> k in order)
    && (forall k :: k in order ==> byKey[k] == GroupSum(rows, key, sum, k))
  }

  lemma FirstKeysOneMore<K(!new)>(keys: seq<K>, k: K)
    ensures FirstKeys(keys + [k]) == if k in keys then FirstKeys(keys) else FirstKeys(keys) + [k]
  {
    assert (keys + [k])[..|keys|] == keys;
  }

  lemma MapOneMore<T(!new), K(!new)>(order: seq<K>, byKey: map<K, T>, rows: seq<T>, row: T, key: T -> K, sum: (T, T) -> T)
    requires MapOf(order, byKey, rows, key, sum)
    ensures var k := key(row);
      if k in byKey then MapOf(order, byKey[k := sum(byKey[k], row)], rows + [row], key, sum)
      else MapOf(order + [k], byKey[k := row], rows + [row], key, sum)
  {
    hide GroupSum, FirstKeys, Distinct;
    var k, keys := key(row), KeysOf(rows, key);
    assert KeysOf(rows + [row], key) == keys + [k];
    FirstKeysOneMore(keys, k);
    forall l | l in keys || l == k
      ensures GroupSum(rows + [row], key, sum, l) ==
        if l != k then byKey[l] else if k in byKey then sum(byKey[k], row) else row
    {
      GroupSumOneMore(rows, row, key, sum, l);
    }
  }

  method MergeByKey<T(!new), K(==,!new)>(rows: seq<T>, key: T -> K, sum: (T, T) -> T) returns (merged: seq<T>)
    ensures merged == Merged(rows, key, sum)
  {
    var order: seq<K> := [];
    var byKey: map<K, T> := map[];
    for n := 0 to |rows|
      invariant MapOf(order, byKey, rows[..n], key, sum)
    {
      var row := rows[n];
      var k := key(row);
      assert rows[..n + 1] == rows[..n] + [row];
      MapOneMore(order, byKey, rows[..n], row, key, sum);
      if k in byKey {
        byKey := byKey[k := sum(byKey[k], row)];
      } else {
        byKey := byKey[k := row];
        order := order + [k];
      }
    }
    assert rows[..|rows|] == rows;
    merged := seq(|order|, i requires 0 <= i < |order| && order[i] in byKey => byKey[order[i]]);
  }

  lemma GroupSumOneMore<T, K(!new)>(rows: seq<T>, row: T, key: T -> K, sum: (T, T) -> T, k: K)
    requires k in KeysOf(rows + [row], key)
    ensures k != key(row) ==> k in KeysOf(rows, key)
    ensures GroupSum(rows + [row], key, sum, k) ==
      if k != key(row) then GroupSum(rows, key, sum, k)
      else if k in KeysOf(rows, key) then sum(GroupSum(rows, key, sum, k), row) else row
  {
    assert (rows + [row])[..|rows|] == rows;
    assert KeysOf(rows + [row], key) == KeysOf(rows, key) + [key(row)];
  }

  // ------------------------------------------------------------ what merging keeps

  function Total<T>(rows: seq<T>, measure: T -> real): real {
    if rows == [] then 0.0 else Total(rows[..|rows| - 1], measure) + measure(rows[|rows| - 1])
  }

  lemma {:induction false} TotalOfUpdate<T>(rows: seq<T>, i: nat, row: T, measure: T -> real)
    requires i < |rows|
    ensures Total(rows[i := row], measure) == Total(rows, measure) - measure(rows[i]) + measure(row)
    decreases |rows|
  {
    var n := |rows| - 1;
    if i == n {
      assert rows[i := row][..n] == rows[..n];
    } else {
      assert rows[i := row][..n] == rows[..n][i := row];
      TotalOfUpdate(rows[..n], i, row, measure);
    }
  }

  /** The row sum keeps the key, and `measure` is what it adds up. */
  ghost predicate Additive<T(!new), K(!new)>(key: T -> K, sum: (T, T) -> T, measure: T -> real) {
    forall a, b {:trigger sum(a, b)} :: key(a) == key(b) ==> key(sum(a, b)) == key(a) && measure(sum(a, b)) == measure(a) + measure(b)
  }

  /** `measure` on the rows with key `k`, nothing on the others. */
  function Only<T, K(==)>(key: T -> K, k: K, measure: T -> real): T -> real {
    (r: T) => if key(r) == k then measure(r) else 0.0
  }

  /** The merged row of a key measures what the rows with that key measure together. */
  lemma {:induction false} GroupSumMeasures<T(!new), K(!new)>(rows: seq<T>, key: T -> K, sum: (T, T) -> T, measure: T -> real, k: K)
    requires Additive(key, sum, measure)
    ensures k in KeysOf(rows, key) ==>
      && key(GroupSum(rows, key, sum, k)) == k
      && measure(GroupSum(rows, key, sum, k)) == Total(rows, Only(key, k, measure))
    ensures k !in KeysOf(rows, key) ==> Total(rows, Only(key, k, measure)) == 0.0
    decreases |rows|
  {
    if rows != [] {
      var init := rows[..|rows| - 1];
      assert KeysOf(rows, key) == KeysOf(init, key) + [key(rows[|rows| - 1])];
      GroupSumMeasures(init, key, sum, measure, k);
    }
  }

  /** Nothing is lost or counted twice: whatever the row sum adds up, the merged rows total the same. */
  lemma {:induction false} MergeConserves<T(!new), K(!new)>(rows: seq<T>, key: T -> K, sum: (T, T) -> T, measure: T -> real)
    requires Additive(key, sum, measure)
    ensures Total(Merged(rows, key, sum), measure) == Total(rows, measure)
    decreases |rows|
  {
    if rows != [] {
      var init, last := rows[..|rows| - 1], rows[|rows| - 1];
      assert rows == init + [last];
      MergeConserves(init, key, sum, measure);
      MergeOneMore(init, last, key, sum);
      var keys, k := FirstKeys(KeysOf(init, key)), key(last);
      if k in keys {
        GroupSumMeasures(init, key, sum, measure, k);
        TotalOfUpdate(Merged(init, key, sum), IndexOf(keys, k), sum(GroupSum(init, key, sum, k), last), measure);
      } else {
        assert (Merged(init, key, sum) + [last])[..|keys|] == Merged(init, key, sum);
      }
    }
  }

  /** The two key lists repeat themselves at the same places. */
  ghost predicate SamePattern<K(!new), L(!new)>(keys: seq<K>, names: seq<L>) {
    |keys| == |names| && forall i, j :: 0 <= i < |keys| && 0 <= j < |keys| ==> (keys[i] == keys[j] <==> names[i] == names[j])
  }

  /** The places where a key appears for the first time. */
  function FirstPlaces<K(==,!new)>(keys: seq<K>): (places: seq<nat>)
    ensures forall i :: 0 <= i < |places| ==> places[i] < |keys|
  {
    if keys == [] then []
    else
      var n := |keys| - 1;
      if keys[n] in keys[..n] then FirstPlaces(keys[..n]) else FirstPlaces(keys[..n]) + [n]
  }

  lemma {:induction false} FirstKeysAtFirstPlaces<K(!new)>(keys: seq<K>)
    ensures |FirstKeys(keys)| == |FirstPlaces(keys)|
    ensures forall i :: 0 <= i < |FirstPlaces(keys)| ==> FirstKeys(keys)[i] == keys[FirstPlaces(keys)[i]]
    decreases |keys|
  {
    if keys != [] { FirstKeysAtFirstPlaces(keys[..|keys| - 1]); }
  }

  lemma {:induction false} SameFirstPlaces<K(!new), L(!new)>(keys: seq<K>, names: seq<L>)
    requires SamePattern(keys, names)
    ensures FirstPlaces(keys) == FirstPlaces(names)
    decreases |keys|
  {
    if keys != [] {
      var n := |keys| - 1;
      SameFirstPlaces(keys[..n], names[..n]);
      SameMembership(keys, names, n, n);
    }
  }

  lemma SameMembership<K(!new), L(!new)>(keys: seq<K>, names: seq<L>, n: nat, i: nat)
    requires SamePattern(keys, names) && n <= |keys| && i < |keys|
    ensures keys[i] in keys[..n] <==> names[i] in names[..n]
  {
    if keys[i] in keys[..n] { var j :| 0 <= j < n && keys[j] == keys[i]; assert names[j] == names[i] && names[..n][j] == names[i]; }
    if names[i] in names[..n] { var j :| 0 <= j < n && names[j] == names[i]; assert keys[j] == keys[i] && keys[..n][j] == keys[i]; }
  }

  lemma LastKey<T(!new), K(!new)>(rows: seq<T>, key: T -> K, r: nat)
    requires r < |rows|
    ensures var n := |rows| - 1; var keys := KeysOf(rows, key);
      keys[r] == key(rows[r]) && keys[n] == key(rows[n]) && KeysOf(rows[..n], key) == keys[..n]
  {
  }

  lemma {:induction false} SameGroupSum<T(!new), K(!new), L(!new)>(rows: seq<T>, key: T -> K, name: T -> L, sum: (T, T) -> T, a: T)
    requires a in rows && SamePattern(KeysOf(rows, key), KeysOf(rows, name))
    ensures key(a) in KeysOf(rows, key) && name(a) in KeysOf(rows, name)
    ensures GroupSum(rows, key, sum, key(a)) == GroupSum(rows, name, sum, name(a))
    decreases |rows|
  {
    var n := |rows| - 1;
    var init := rows[..n];
    var keys, names := KeysOf(rows, key), KeysOf(rows, name);
    var r :| 0 <= r <= n && rows[r] == a;
    LastKey(rows, key, r);
    LastKey(rows, name, r);
    SameMembership(keys, names, n, r);
    if key(a) in keys[..n] {
      var i :| 0 <= i < n && keys[i] == key(a);
      SameGroupSum(init, key, name, sum, init[i]);
    }
  }

  /** Two key functions that agree on which rows belong together give the same merge. */
  lemma {:induction false} MergeByEquivalentKeys<T(!new), K(!new), L(!new)>(rows: seq<T>, key: T -> K, name: T -> L, sum: (T, T) -> T)
    requires forall a, b :: a in rows && b in rows ==> (key(a) == key(b) <==> name(a) == name(b))
    ensures Merged(rows, key, sum) == Merged(rows, name, sum)
  {
    var keys, names := KeysOf(rows, key), KeysOf(rows, name);
    assert SamePattern(keys, names);
    SameFirstPlaces(keys, names);
    FirstKeysAtFirstPlaces(keys);
    FirstKeysAtFirstPlaces(names);
    var places := FirstPlaces(keys);
    forall i | 0 <= i < |places|
      ensures Merged(rows, key, sum)[i] == Merged(rows, name, sum)[i]
    {
      SameGroupSum(rows, key, name, sum, rows[places[i]]);
    }
  }

  // ------------------------------------------------------------ chunks

  const CHUNK: nat := 500

  function Chunks<T>(items: seq<T>, size: nat): seq<seq<T>>
    requires size > 0
  {
    if |items| <= size then (if items == [] then [] else [items])
    else [items[..size]] + Chunks(items[size..], size)
  }

  function Flatten<T>(chunks: seq<seq<T>>): seq<T> {
    if chunks == [] then [] else chunks[0] + Flatten(chunks[1..])
  }

  predicate FullButLast<T>(chunks: seq<seq<T>>, size: nat) {
    chunks == [] || (if |chunks| == 1 then 0 < |chunks[0]| <= size else |chunks[0]| == size && FullButLast(chunks[1..], size))
  }

  lemma OneMoreChunk<T>(first: seq<T>, rest: seq<seq<T>>, size: nat)
    ensures Flatten([first] + rest) == first + Flatten(rest)
    ensures rest != [] && |first| == size && FullButLast(rest, size) ==> FullButLast([first] + rest, size)
  {
    assert ([first] + rest)[1..] == rest;
  }

  /** The chunks are the items cut up in order; all are full but the last, which is not empty. */
  lemma {:induction false} ChunksCover<T>(items: seq<T>, size: nat)
    requires size > 0
    ensures Flatten(Chunks(items, size)) == items
    ensures FullButLast(Chunks(items, size), size)
    decreases |items|
  {
    if |items| > size {
      ChunksCover(items[size..], size);
      hide Chunks;
      OneMoreChunk(items[..size], Chunks(items[size..], size), size);
      assert items == items[..size] + items[size..];
    } else if items != [] {
      assert Flatten([items]) == items + Flatten([items][1..]);
    }
  }

  method Chunked<T>(items: seq<T>, size: nat) returns (out: seq<seq<T>>)
    requires size > 0
    ensures out == Chunks(items, size)
  {
    out := [];
    var i := 0;
    while i < |items|
      invariant out + Chunks(items[Min(i, |items|)..], size) == Chunks(items, size)
      invariant 0 <= i
    {
      ghost var rest, before := items[i..], out;
      var end := Min(i + size, |items|);
      out := out + [items[i..end]];
      assert Chunks(rest, size) == [items[i..end]] + Chunks(items[end..], size) by {
        if |rest| > size {
          assert rest[..size] == items[i..end] && rest[size..] == items[end..];
        } else {
          assert rest == items[i..end] && items[end..] == [];
        }
      }
      assert out + Chunks(items[end..], size) == before + Chunks(rest, size);
      i := i + size;
    }
  }

  // ------------------------------------------------------------ writing a table

  datatype Row<K, V> = Row(key: K, totals: V)

  /** A stored row: its totals and its `finalisedAt` stamp. */
  datatype Stored<V> = Stored(totals: V, stamp: Option<int>)

  function Coalesce(a: Option<int>, b: Option<int>): Option<int> { if a.Some? then a else b }

  function StampOf<K, V>(table: map<K, Stored<V>>, k: K): Option<int> {
    if k in table then table[k].stamp else None
  }

  function ByKey<K, V>(): Row<K, V> -> K { (r: Row<K, V>) => r.key }

  function ByName<K, V>(name: K -> string): Row<K, V> -> string { (r: Row<K, V>) => name(r.key) }

  function AddRows<K, V>(add: (V, V) -> V): (Row<K, V>, Row<K, V>) -> Row<K, V> {
    (a: Row<K, V>, b: Row<K, V>) => a.(totals := add(a.totals, b.totals))
  }

  /** `name` tells the keys of these rows apart. */
  ghost predicate NamesApart<K(!new), V(!new)>(rows: seq<Row<K, V>>, name: K -> string) {
    forall i, j :: 0 <= i < |rows| && 0 <= j < |rows| && name(rows[i].key) == name(rows[j].key) ==> rows[i].key == rows[j].key
  }

  function StoreRow<K, V>(table: map<K, Stored<V>>, row: Row<K, V>, stamp: Option<int>): map<K, Stored<V>> {
    table[row.key := Stored(row.totals, Coalesce(stamp, StampOf(table, row.key)))]
  }

  function StoreRows<K, V>(table: map<K, Stored<V>>, rows: seq<Row<K, V>>, stamp: Option<int>): map<K, Stored<V>>
    decreases |rows|
  {
    if rows == [] then table else StoreRows(StoreRow(table, rows[0], stamp), rows[1..], stamp)
  }

  /** The whole upsert as one map override: every key of the input holds the sum of its rows, and a
      row already stamped keeps its stamp when none is given. */
  function Override<K(!new), V(!new)>(table: map<K, Stored<V>>, rows: seq<Row<K, V>>, add: (V, V) -> V, stamp: Option<int>): map<K, Stored<V>> {
    map k | k in table.Keys + (set key | key in KeysOf(rows, ByKey())) ::
      if k in KeysOf(rows, ByKey())
      then Stored(GroupSum(rows, ByKey(), AddRows(add), k).totals, Coalesce(stamp, StampOf(table, k)))
      else table[k]
  }

  lemma {:induction false} StoreRowsAppend<K, V>(table: map<K, Stored<V>>, a: seq<Row<K, V>>, b: seq<Row<K, V>>, stamp: Option<int>)
    ensures StoreRows(table, a + b, stamp) == StoreRows(StoreRows(table, a, stamp), b, stamp)
    decreases |a|
  {
    if a == [] {
      assert a + b == b;
    } else {
      assert (a + b)[1..] == a[1..] + b;
      StoreRowsAppend(StoreRow(table, a[0], stamp), a[1..], b, stamp);
    }
  }

  lemma {:induction false} StoreRowsAt<K(!new), V(!new)>(table: map<K, Stored<V>>, rows: seq<Row<K, V>>, stamp: Option<int>, k: K)
    requires Distinct(KeysOf(rows, ByKey()))
    ensures var after := StoreRows(table, rows, stamp);
      && (k in after <==> k in table || k in KeysOf(rows, ByKey()))
      && (k in after && k !in KeysOf(rows, ByKey()) ==> after[k] == table[k])
      && (forall i :: 0 <= i < |rows| && rows[i].key == k ==>
            after[k] == Stored(rows[i].totals, Coalesce(stamp, StampOf(table, k))))
    decreases |rows|
  {
    if rows != [] {
      var keys := KeysOf(rows, ByKey());
      var rest := rows[1..];
      assert KeysOf(rest, ByKey()) == keys[1..];
      assert keys == [keys[0]] + keys[1..];
      StoreRowsAt(StoreRow(table, rows[0], stamp), rest, stamp, k);
      forall i | 0 <= i < |rows| && rows[i].key == k
        ensures StoreRows(table, rows, stamp)[k] == Stored(rows[i].totals, Coalesce(stamp, StampOf(table, k)))
      {
        if i > 0 { assert rest[i - 1] == rows[i]; assert keys[i] != keys[0]; }
      }
    }
  }

  lemma {:induction false} GroupSumKeepsKey<K(!new), V(!new)>(rows: seq<Row<K, V>>, add: (V, V) -> V, k: K)
    requires k in KeysOf(rows, ByKey())
    ensures GroupSum(rows, ByKey(), AddRows(add), k).key == k
    decreases |rows|
  {
    var init := rows[..|rows| - 1];
    assert KeysOf(rows, ByKey()) == KeysOf(init, ByKey()) + [rows[|rows| - 1].key];
    if k in KeysOf(init, ByKey()) { GroupSumKeepsKey(init, add, k); }
  }

  /** Storing the merged rows one after the other is the override. */
  lemma {:induction false} StoreMergedIsOverride<K(!new), V(!new)>(table: map<K, Stored<V>>, rows: seq<Row<K, V>>, add: (V, V) -> V, stamp: Option<int>)
    ensures var merged := Merged(rows, ByKey(), AddRows(add));
      && Distinct(KeysOf(merged, ByKey()))
      && StoreRows(table, merged, stamp) == Override(table, rows, add, stamp)
  {
    var firsts := FirstKeys(KeysOf(rows, ByKey()));
    var merged := Merged(rows, ByKey(), AddRows(add));
    forall i | 0 <= i < |merged| ensures merged[i].key == firsts[i] {
      GroupSumKeepsKey(rows, add, firsts[i]);
    }
    assert KeysOf(merged, ByKey()) == firsts;
    var after, over := StoreRows(table, merged, stamp), Override(table, rows, add, stamp);
    forall k ensures (k in after <==> k in over) && (k in after ==> after[k] == over[k]) {
      StoreRowsAt(table, merged, stamp, k);
      if k in firsts {
        var i := IndexOf(firsts, k);
        assert merged[i].key == k;
      }
    }
  }

  /** The stamp a row ends up with: the one given, else the one it had. */
  ghost predicate Stamped<K, V>(table: map<K, Stored<V>>, k: K, stamp: Option<int>, row: Stored<V>) {
    if stamp.Some? then row.stamp == stamp else if k in table then row.stamp == table[k].stamp else row.stamp == None
  }

  lemma {:induction false} OverrideTells<K(!new), V(!new)>(table: map<K, Stored<V>>, rows: seq<Row<K, V>>, add: (V, V) -> V, stamp: Option<int>)
    ensures var after := Override(table, rows, add, stamp);
      && after.Keys == table.Keys + (set key | key in KeysOf(rows, ByKey()))
      && (forall k :: k in KeysOf(rows, ByKey()) ==>
            after[k].totals == GroupSum(rows, ByKey(), AddRows(add), k).totals && Stamped(table, k, stamp, after[k]))
      && (forall k :: k in table && k !in KeysOf(rows, ByKey()) ==> after[k] == table[k])
  {
  }

  lemma PartKeepsDistinct<K(!new), V(!new)>(before: seq<Row<K, V>>, part: seq<Row<K, V>>, after: seq<Row<K, V>>)
    requires Distinct(KeysOf(before + part + after, ByKey()))
    ensures Distinct(KeysOf(part, ByKey()))
  {
    var all := before + part + after;
    forall i, j | 0 <= i < j < |part| ensures part[i].key != part[j].key {
      assert all[|before| + i] == part[i] && all[|before| + j] == part[j];
      assert KeysOf(all, ByKey())[|before| + i] != KeysOf(all, ByKey())[|before| + j];
    }
  }

  /** Grouping what is already grouped changes nothing. */
  lemma {:induction false} GroupSumOfMerged<K(!new), V(!new)>(rows: seq<Row<K, V>>, add: (V, V) -> V, k: K)
    ensures var merged := Merged(rows, ByKey(), AddRows(add));
      && (k in KeysOf(merged, ByKey()) <==> k in KeysOf(rows, ByKey()))
      && (k in KeysOf(rows, ByKey()) ==>
            GroupSum(merged, ByKey(), AddRows(add), k) == GroupSum(rows, ByKey(), AddRows(add), k))
  {
    var firsts := FirstKeys(KeysOf(rows, ByKey()));
    var merged := Merged(rows, ByKey(), AddRows(add));
    forall i | 0 <= i < |merged| ensures merged[i].key == firsts[i] {
      GroupSumKeepsKey(rows, add, firsts[i]);
    }
    assert KeysOf(merged, ByKey()) == firsts;
    if k in firsts {
      GroupSumOfDistinct(merged, add, IndexOf(firsts, k));
    }
  }

  lemma {:induction false} GroupSumOfDistinct<K(!new), V(!new)>(rows: seq<Row<K, V>>, add: (V, V) -> V, i: nat)
    requires i < |rows| && Distinct(KeysOf(rows, ByKey()))
    ensures GroupSum(rows, ByKey(), AddRows(add), rows[i].key) == rows[i]
    decreases |rows|
  {
    var keys := KeysOf(rows, ByKey());
    var init := rows[..|rows| - 1];
    assert KeysOf(init, ByKey()) == keys[..|rows| - 1];
    assert keys[i] == rows[i].key;
    if i < |rows| - 1 {
      assert keys[i] != keys[|rows| - 1];
      GroupSumOfDistinct(init, add, i);
    } else {
      assert keys[i] !in keys[..i];
    }
  }

  lemma OverrideByMerged<K(!new), V(!new)>(table: map<K, Stored<V>>, rows: seq<Row<K, V>>, add: (V, V) -> V, stamp: Option<int>)
    ensures Override(table, Merged(rows, ByKey(), AddRows(add)), add, stamp) == Override(table, rows, add, stamp)
  {
    forall k { GroupSumOfMerged(rows, add, k); }
  }

  lemma NextChunk<K(!new), V(!new)>(written: seq<Row<K, V>>, chunks: seq<seq<Row<K, V>>>, c: nat, merged: seq<Row<K, V>>)
    requires c < |chunks| && written + Flatten(chunks[c..]) == merged && Distinct(KeysOf(merged, ByKey()))
    ensures written + chunks[c] + Flatten(chunks[c + 1..]) == merged
    ensures Distinct(KeysOf(chunks[c], ByKey()))
  {
    assert chunks[c..][1..] == chunks[c + 1..];
    assert written + chunks[c] + Flatten(chunks[c + 1..]) == written + Flatten(chunks[c..]);
    PartKeepsDistinct(written, chunks[c], Flatten(chunks[c + 1..]));
  }

  lemma MergedByName<K(!new), V(!new)>(rows: seq<Row<K, V>>, name: K -> string, add: (V, V) -> V)
    requires NamesApart(rows, name)
    ensures Merged(rows, ByName(name), AddRows(add)) == Merged(rows, ByKey(), AddRows(add))
  {
    MergeByEquivalentKeys(rows, ByKey(), ByName(name), AddRows(add));
  }

  /** A rollup table with its unique key. */
  class RollupTable<K(==,!new), V(!new)> {
    var rows: map<K, Stored<V>>

    constructor (rows: map<K, Stored<V>>)
      ensures this.rows == rows
    {
      this.rows := rows;
    }

    /** One `INSERT ... ON CONFLICT DO UPDATE`: the database refuses to touch a row twice in one
        statement, and then writes nothing. */
    method ExecuteInsert(chunk: seq<Row<K, V>>, stamp: Option<int>) returns (ok: bool)
      modifies this
      ensures ok <==> Distinct(KeysOf(chunk, ByKey()))
      ensures rows == if ok then StoreRows(old(rows), chunk, stamp) else old(rows)
      ensures ok ==> forall i :: 0 <= i < |chunk| ==>
        chunk[i].key in rows && rows[chunk[i].key].totals == chunk[i].totals && Stamped(old(rows), chunk[i].key, stamp, rows[chunk[i].key])
    {
      if Distinct(KeysOf(chunk, ByKey())) {
        forall i | 0 <= i < |chunk|
          ensures chunk[i].key in StoreRows(rows, chunk, stamp)
          ensures StoreRows(rows, chunk, stamp)[chunk[i].key].totals == chunk[i].totals
          ensures Stamped(rows, chunk[i].key, stamp, StoreRows(rows, chunk, stamp)[chunk[i].key])
        {
          assert KeysOf(chunk, ByKey())[i] == chunk[i].key;
          StoreRowsAt(rows, chunk, stamp, chunk[i].key);
        }
      }
      ok := Distinct(KeysOf(chunk, ByKey()));
      if ok {
        for i := 0 to |chunk|
          invariant StoreRows(rows, chunk[i..], stamp) == StoreRows(old(rows), chunk, stamp)
        {
          assert chunk[i..][1..] == chunk[i + 1..];
          rows := rows[chunk[i].key := Stored(chunk[i].totals, Coalesce(stamp, StampOf(rows, chunk[i].key)))];
        }
      }
    }

    /** All the chunks of rows with distinct keys, one statement each. */
    method ExecuteChunks(merged: seq<Row<K, V>>, stamp: Option<int>)
      requires Distinct(KeysOf(merged, ByKey()))
      modifies this
      ensures rows == StoreRows(old(rows), merged, stamp)
    {
      var chunks := Chunked(merged, CHUNK);
      ChunksCover(merged, CHUNK);
      ghost var written: seq<Row<K, V>> := [];
      for c := 0 to |chunks|
        invariant written + Flatten(chunks[c..]) == merged
        invariant rows == StoreRows(old(rows), written, stamp)
      {
        NextChunk(written, chunks, c, merged);
        var ok := ExecuteInsert(chunks[c], stamp);
        assert ok;
        StoreRowsAppend(old(rows), written, chunks[c], stamp);
        written := written + chunks[c];
      }
      assert chunks[|chunks|..] == [] && written == merged;
    }

    /** `upsertUsageRows` and `upsertRequestRows`: no statement is refused, and together they are
        one override by the per-key sums. */
    method Upsert(input: seq<Row<K, V>>, name: K -> string, add: (V, V) -> V, stamp: Option<int>)
      requires NamesApart(input, name)
      modifies this
      ensures rows == Override(old(rows), input, add, stamp)
      ensures forall k :: k in KeysOf(input, ByKey()) ==> k in rows && Stamped(old(rows), k, stamp, rows[k])
    {
      OverrideTells(rows, input, add, stamp);
      var merged := MergeByKey(input, ByName(name), AddRows(add));
      MergedByName(input, name, add);
      StoreMergedIsOverride(rows, input, add, stamp);
      ExecuteChunks(merged, stamp);
    }
  }
}
