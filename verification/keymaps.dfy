/** The in-memory natural-key maps (`product_id_map` and friends): a Python
    dict filled by `m[key] = id` once per source row, in file order, so a
    later row with the same key overwrites an earlier one. */
module KeyMaps {

  /** Position `i` holds the last occurrence of its key. */
  predicate LastOccurrence<K(==)>(keys: seq<K>, i: int)
    requires 0 <= i < |keys|
  {
    forall j :: i < j < |keys| ==> keys[j] != keys[i]
  }

  /** `m` maps exactly the keys that occur, each to the identity written at
      its last occurrence. */
  predicate LastWriteWins<K(==)>(m: map<K, nat>, keys: seq<K>, ids: seq<nat>)
    requires |keys| == |ids|
  {
    && (forall k | k in m :: k in keys)
    && (forall i :: 0 <= i < |keys| ==> keys[i] in m)
    && (forall i :: 0 <= i < |keys| && LastOccurrence(keys, i) ==> m[keys[i]] == ids[i])
    && (forall k | k in m :: m[k] in ids)
  }

  /** The dict after the assignments `m[keys[i]] = ids[i]`, in order, starting
      from an empty dict. */
  function Assign<K(==)>(keys: seq<K>, ids: seq<nat>): map<K, nat>
    requires |keys| == |ids|
    decreases |keys|
  {
    if keys == [] then map[]
    else
      var n := |keys| - 1;
      Assign(keys[..n], ids[..n])[keys[n] := ids[n]]
  }

  /** The dict the assignments build holds exactly the keys that occur, each
      with the identity written at its last occurrence. */
  lemma {:induction false} AssignLastWriteWins<K>(keys: seq<K>, ids: seq<nat>)
    requires |keys| == |ids|
    ensures LastWriteWins(Assign(keys, ids), keys, ids)
    decreases |keys|
  {
    if keys != [] {
      var n := |keys| - 1;
      AssignLastWriteWins(keys[..n], ids[..n]);
      AssignStep(Assign(keys[..n], ids[..n]), keys, ids);
    }
  }

  lemma AssignStep<K>(m: map<K, nat>, keys: seq<K>, ids: seq<nat>)
    requires |keys| == |ids| > 0
    requires LastWriteWins(m, keys[..|keys| - 1], ids[..|ids| - 1])
    ensures LastWriteWins(m[keys[|keys| - 1] := ids[|ids| - 1]], keys, ids)
  {
    var n := |keys| - 1;
    assert keys == keys[..n] + [keys[n]];
    assert ids == ids[..n] + [ids[n]];
    AssignLast(m, keys[..n], ids[..n], keys[n], ids[n], keys, ids);
  }

  /** One more assignment keeps the last-write-wins description. */
  lemma AssignLast<K>(m: map<K, nat>, keys: seq<K>, ids: seq<nat>, k: K, id: nat, keys': seq<K>, ids': seq<nat>)
    requires |keys| == |ids| && LastWriteWins(m, keys, ids)
    requires keys' == keys + [k] && ids' == ids + [id]
    ensures LastWriteWins(m[k := id], keys', ids')
  {
    forall i | 0 <= i < |keys'| && LastOccurrence(keys', i)
      ensures m[k := id][keys'[i]] == ids'[i]
    {
      if i < |keys| {
        assert keys'[|keys|] == k;
        assert LastOccurrence(keys, i) by {
          forall j | i < j < |keys| ensures keys[j] != keys[i] {
            assert keys'[j] == keys[j];
          }
        }
      }
    }
    var m' := m[k := id];
    forall x | x in m' ensures m'[x] in ids' {
      if x != k {
        assert m[x] in ids;
      }
    }
  }

  /** A later source row with the same key overwrites an earlier one: the
      dict holds the identity written at the key's last occurrence, whatever
      was written before it. */
  lemma AssignOverwrites<K>(keys: seq<K>, ids: seq<nat>, i: nat, j: nat)
    requires |keys| == |ids| && i < j < |keys|
    requires keys[i] == keys[j] && LastOccurrence(keys, j)
    ensures keys[i] in Assign(keys, ids) && Assign(keys, ids)[keys[i]] == ids[j]
  {
    AssignLastWriteWins(keys, ids);
  }

  /** One more assignment at the end of the run updates the dict built so
      far. */
  lemma AssignSnoc<K>(keys: seq<K>, ids: seq<nat>, k: K, id: nat)
    requires |keys| == |ids|
    ensures Assign(keys + [k], ids + [id]) == Assign(keys, ids)[k := id]
  {
    assert (keys + [k])[..|keys|] == keys;
    assert (ids + [id])[..|ids|] == ids;
  }

  /** The dict holds exactly the keys that occur in the run. */
  lemma AssignKeys<K>(keys: seq<K>, ids: seq<nat>)
    requires |keys| == |ids|
    ensures Assign(keys, ids).Keys == set k | k in keys
  {
    AssignLastWriteWins(keys, ids);
    var m := Assign(keys, ids);
    forall k | k in keys
      ensures k in m
    {
      var i :| 0 <= i < |keys| && keys[i] == k;
    }
  }

  /** The position of the last occurrence of `k` in `keys`, or -1 when it
      does not occur. */
  function LastIndex<K(==)>(keys: seq<K>, k: K): (i: int)
    ensures -1 <= i < |keys|
    ensures 0 <= i <==> k in keys
    ensures 0 <= i ==> keys[i] == k && LastOccurrence(keys, i)
    decreases |keys|
  {
    if keys == [] then -1
    else if keys[|keys| - 1] == k then |keys| - 1
    else LastIndex(keys[..|keys| - 1], k)
  }

  /** The dict holds, for every key that occurs, the identity written at the
      key's last occurrence. */
  lemma AssignAt<K>(keys: seq<K>, ids: seq<nat>, k: K)
    requires |keys| == |ids|
    ensures k in Assign(keys, ids) <==> k in keys
    ensures k in keys ==> Assign(keys, ids)[k] == ids[LastIndex(keys, k)]
  {
    AssignLastWriteWins(keys, ids);
  }
}
