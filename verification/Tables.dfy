/** Python dictionaries that remember the order in which their keys were first assigned. */
module Tables {
  import opened Wrappers

  ghost predicate NoRepeats<K>(ids: seq<K>) {
    forall i, j | 0 <= i < j < |ids| :: ids[i] != ids[j]
  }

  function Without<K(==, !new)>(ids: seq<K>, id: K): (rest: seq<K>)
    ensures forall x :: x in rest <==> x in ids && x != id
  {
    if ids == [] then []
    else if ids[0] == id then Without(ids[1..], id)
    else [ids[0]] + Without(ids[1..], id)
  }

  lemma {:induction false} WithoutNoRepeats<K(!new)>(ids: seq<K>, id: K)
    requires NoRepeats(ids)
    ensures NoRepeats(Without(ids, id))
  {
    if ids == [] {
    } else {
      WithoutNoRepeats(ids[1..], id);
      var rest := Without(ids[1..], id);
      assert forall j | 0 <= j < |rest| :: rest[j] in rest;
    }
  }

  datatype Table<K(==, !new), V> = Table(rows: map<K, V>, order: seq<K>) {
    ghost predicate Valid() {
      && (forall id :: id in order <==> id in rows)
      && NoRepeats(order)
    }

    /** d[id] = row */
    function Put(id: K, row: V): Table<K, V> {
      Table(rows[id := row], if id in rows then order else order + [id])
    }

    /** d.pop(id, None) */
    function Pop(id: K): Table<K, V> {
      Table(rows - {id}, Without(order, id))
    }
  }

  lemma WithoutAbsent<K(!new)>(ids: seq<K>, id: K)
    requires id !in ids
    ensures Without(ids, id) == ids && Without(ids + [id], id) == ids
  {
    if ids == [] {
    } else {
      WithoutAbsent(ids[1..], id);
      assert (ids + [id])[1..] == ids[1..] + [id];
    }
  }

  lemma PutValid<K(!new), V>(t: Table<K, V>, id: K, row: V)
    requires t.Valid()
    ensures t.Put(id, row).Valid()
  {
    if id in t.rows {
    } else {
      assert id !in t.order;
    }
  }

  /** Taking back the assignment of a new key restores the dictionary. */
  lemma PopPut<K(!new), V>(t: Table<K, V>, id: K, row: V)
    requires t.Valid() && id !in t.rows
    ensures t.Put(id, row).Pop(id) == t
  {
    WithoutAbsent(t.order, id);
    assert t.rows[id := row] - {id} == t.rows;
  }

  /** Assigning the first n pairs, one after the other, to an empty dictionary. */
  function Fill<K(==, !new), V>(pairs: seq<(K, V)>, n: nat): Table<K, V>
    requires n <= |pairs|
  {
    if n == 0 then Table(map[], []) else Fill(pairs, n - 1).Put(pairs[n - 1].0, pairs[n - 1].1)
  }

  /** The value of the last of the first n pairs with this key. */
  function LastFor<K(==, !new), V>(pairs: seq<(K, V)>, n: nat, id: K): (last: Option<V>)
    requires n <= |pairs|
  {
    if n == 0 then None
    else if pairs[n - 1].0 == id then Some(pairs[n - 1].1)
    else LastFor(pairs, n - 1, id)
  }

  lemma {:induction false} FillLookup<K(!new), V>(pairs: seq<(K, V)>, n: nat, id: K)
    requires n <= |pairs|
    ensures Fill(pairs, n).Valid()
    ensures LastFor(pairs, n, id) == if id in Fill(pairs, n).rows then Some(Fill(pairs, n).rows[id]) else None
  {
    if n > 0 {
      FillLookup(pairs, n - 1, id);
    }
  }

  ghost predicate DistinctKeys<K(!new), V>(pairs: seq<(K, V)>) {
    forall i, j | 0 <= i < j < |pairs| :: pairs[i].0 != pairs[j].0
  }

  lemma {:induction false} LastForDistinct<K(!new), V>(pairs: seq<(K, V)>, n: nat, i: nat)
    requires n <= |pairs| && i < |pairs| && DistinctKeys(pairs)
    ensures LastFor(pairs, n, pairs[i].0) == if i < n then Some(pairs[i].1) else None
  {
    if n > 0 {
      LastForDistinct(pairs, n - 1, i);
    }
  }

  /** Without repeated keys, filling keeps the order of the pairs. */
  lemma {:induction false} FillDistinct<K(!new), V>(pairs: seq<(K, V)>, n: nat)
    requires n <= |pairs| && DistinctKeys(pairs)
    ensures |Fill(pairs, n).order| == n
    ensures forall i | 0 <= i < n :: Fill(pairs, n).order[i] == pairs[i].0
  {
    if n > 0 {
      FillDistinct(pairs, n - 1);
      FillLookup(pairs, n - 1, pairs[n - 1].0);
      LastForDistinct(pairs, n - 1, n - 1);
    }
  }
}
