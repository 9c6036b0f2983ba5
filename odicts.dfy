/** Python's insertion-ordered `dict`: assigning to a new key appends it to the
    iteration order, assigning to an existing key keeps its position. */
module ODicts {
  import opened Outcomes

  datatype ODict<K(==,!new), V> = ODict(keys: seq<K>, items: map<K, V>) {

    /** The order lists every key exactly once. */
    predicate Valid()
    {
      && (forall i, j :: 0 <= i < j < |keys| ==> keys[i] != keys[j])
      && (forall k :: k in items ==> k in keys)
      && (forall i :: 0 <= i < |keys| ==> keys[i] in items)
    }

    /** `d[k] = v`. */
    function Put(k: K, v: V): (d: ODict<K, V>)
      requires Valid()
      ensures d.Valid()
      ensures d.items == items[k := v]
      ensures k in items ==> d.keys == keys
      ensures k !in items ==> d.keys == keys + [k]
    {
      if k in items then ODict(keys, items[k := v]) else ODict(keys + [k], items[k := v])
    }
  }

  /** Writing back the value a key already holds leaves the dict as it was. */
  lemma PutSame<K(!new), V>(d: ODict<K, V>, k: K)
    requires d.Valid() && k in d.items
    ensures d.Put(k, d.items[k]) == d
  {
    assert d.items[k := d.items[k]] == d.items;
  }

  function Empty<K(==,!new), V>(): (d: ODict<K, V>)
    ensures d.Valid() && |d.keys| == 0 && d.items == map[]
  {
    ODict([], map[])
  }

  /** Assigns `d[key(v)] = v` for each entry in order, starting from `acc`; the first
      entry that is an error aborts the loop with that error. */
  function PutAll<K(==,!new), V>(entries: seq<Result<V>>, key: V -> K, acc: ODict<K, V>): (r: Result<ODict<K, V>>)
    requires acc.Valid()
    ensures r.Ok? ==> r.value.Valid()
    decreases |entries|
  {
    if |entries| == 0 then Ok(acc)
    else
      var v :- entries[0];
      PutAll(entries[1..], key, acc.Put(key(v), v))
  }

  predicate AllOk<V>(entries: seq<Result<V>>)
  {
    forall i :: 0 <= i < |entries| ==> entries[i].Ok?
  }

  /** The loop runs to the end exactly when no entry is an error; otherwise the
      error is that of the first entry that is one. */
  lemma {:induction false} PutAllOk<K(!new), V>(entries: seq<Result<V>>, key: V -> K, acc: ODict<K, V>)
    requires acc.Valid()
    ensures PutAll(entries, key, acc).Ok? <==> AllOk(entries)
    ensures PutAll(entries, key, acc).Raise? ==>
      exists i :: 0 <= i < |entries| && entries[i].Raise? && PutAll(entries, key, acc).error == entries[i].error
        && forall j :: 0 <= j < i ==> entries[j].Ok?
    decreases |entries|
  {
    if |entries| > 0 {
      assert forall i :: 0 < i < |entries| ==> entries[1..][i - 1] == entries[i];
      if entries[0].Ok? {
        PutAllOk(entries[1..], key, acc.Put(key(entries[0].value), entries[0].value));
        if PutAll(entries, key, acc).Raise? {
          var i :| 0 <= i < |entries[1..]| && entries[1..][i].Raise? && PutAll(entries, key, acc).error == entries[1..][i].error
            && forall j :: 0 <= j < i ==> entries[1..][j].Ok?;
          assert entries[i + 1] == entries[1..][i];
        }
      }
    }
  }

  /** The keys of the result are those of `acc` and those of the entries. */
  lemma PutAllKeys<K(!new), V>(entries: seq<Result<V>>, key: V -> K, acc: ODict<K, V>)
    requires acc.Valid() && AllOk(entries)
    ensures PutAll(entries, key, acc).Ok?
    ensures forall k :: k in PutAll(entries, key, acc).value.items <==>
      k in acc.items || exists i :: 0 <= i < |entries| && key(entries[i].value) == k
  {
    PutAllOk(entries, key, acc);
    forall k
      ensures k in PutAll(entries, key, acc).value.items <==>
        k in acc.items || exists i :: 0 <= i < |entries| && key(entries[i].value) == k
    {
      PutAllHas(entries, key, acc, k);
    }
  }

  /** One key is in the result exactly when `acc` or some entry holds it. */
  lemma {:induction false} PutAllHas<K(!new), V>(entries: seq<Result<V>>, key: V -> K, acc: ODict<K, V>, k: K)
    requires acc.Valid() && AllOk(entries)
    ensures PutAll(entries, key, acc).Ok?
    ensures k in PutAll(entries, key, acc).value.items <==>
      k in acc.items || exists i :: 0 <= i < |entries| && key(entries[i].value) == k
    decreases |entries|
  {
    PutAllOk(entries, key, acc);
    if |entries| > 0 {
      var rest := entries[1..];
      var acc' := acc.Put(key(entries[0].value), entries[0].value);
      assert PutAll(entries, key, acc) == PutAll(rest, key, acc');
      PutAllHas(rest, key, acc', k);
      if exists i :: 0 <= i < |entries| && key(entries[i].value) == k {
        var i :| 0 <= i < |entries| && key(entries[i].value) == k;
        if i > 0 {
          assert key(rest[i - 1].value) == k;
        }
      }
      if k in PutAll(entries, key, acc).value.items && k !in acc.items && k != key(entries[0].value) {
        var i :| 0 <= i < |rest| && key(rest[i].value) == k;
        assert key(entries[i + 1].value) == k;
      }
    }
  }

  /** A key no entry carries keeps its value from `acc`. */
  lemma {:induction false} PutAllKeep<K(!new), V>(entries: seq<Result<V>>, key: V -> K, acc: ODict<K, V>, k: K)
    requires acc.Valid() && AllOk(entries) && k in acc.items
    requires forall j :: 0 <= j < |entries| ==> key(entries[j].value) != k
    ensures PutAll(entries, key, acc).Ok?
    ensures k in PutAll(entries, key, acc).value.items
    ensures PutAll(entries, key, acc).value.items[k] == acc.items[k]
    decreases |entries|
  {
    PutAllOk(entries, key, acc);
    if |entries| > 0 {
      assert forall i :: 0 < i < |entries| ==> entries[1..][i - 1] == entries[i];
      PutAllKeep(entries[1..], key, acc.Put(key(entries[0].value), entries[0].value), k);
    }
  }

  /** Filling an empty dict succeeds only when every entry is Ok; its keys are
      those of the entries and each key holds the last entry carrying it. */
  lemma PutAllFresh<K(!new), V>(entries: seq<Result<V>>, key: V -> K)
    requires PutAll(entries, key, Empty()).Ok?
    ensures var d := PutAll(entries, key, Empty()).value;
      && AllOk(entries)
      && (forall k :: k in d.items <==> exists i :: 0 <= i < |entries| && key(entries[i].value) == k)
      && (forall i :: 0 <= i < |entries| && (forall j :: i < j < |entries| ==> key(entries[j].value) != key(entries[i].value)) ==>
            d.items[key(entries[i].value)] == entries[i].value)
  {
    PutAllOk(entries, key, Empty());
    PutAllKeys(entries, key, Empty());
    forall i | 0 <= i < |entries| && (forall j :: i < j < |entries| ==> key(entries[j].value) != key(entries[i].value))
      ensures PutAll(entries, key, Empty()).value.items[key(entries[i].value)] == entries[i].value
    {
      PutAllLastWins(entries, key, Empty(), i);
    }
  }

  /** Later entries win: an entry no later entry shares a key with is the final value
      of its key. */
  lemma {:induction false} PutAllLastWins<K(!new), V>(entries: seq<Result<V>>, key: V -> K, acc: ODict<K, V>, i: nat)
    requires acc.Valid() && AllOk(entries) && i < |entries|
    requires forall j :: i < j < |entries| ==> key(entries[j].value) != key(entries[i].value)
    ensures PutAll(entries, key, acc).Ok?
    ensures key(entries[i].value) in PutAll(entries, key, acc).value.items
    ensures PutAll(entries, key, acc).value.items[key(entries[i].value)] == entries[i].value
    decreases |entries|
  {
    PutAllOk(entries, key, acc);
    assert forall j :: 0 < j < |entries| ==> entries[1..][j - 1] == entries[j];
    var acc' := acc.Put(key(entries[0].value), entries[0].value);
    if i > 0 {
      PutAllLastWins(entries[1..], key, acc', i - 1);
    } else {
      PutAllKeep(entries[1..], key, acc', key(entries[0].value));
    }
  }

  /** `for key in keys: d[key] = f(key)` starting from `acc`; the first key whose value
      raises aborts the loop with that error. */
  function PutEach<K(==,!new), V>(keys: seq<K>, f: K -> Result<V>, acc: ODict<K, V>): (r: Result<ODict<K, V>>)
    requires acc.Valid()
    ensures r.Ok? ==> r.value.Valid()
    decreases |keys|
  {
    if |keys| == 0 then Ok(acc)
    else
      var v :- f(keys[0]);
      PutEach(keys[1..], f, acc.Put(keys[0], v))
  }

  /** One iteration of the loop: a key whose value is `v` is written, and the loop
      goes on with the remaining keys. */
  lemma PutEachStep<K(!new), V>(keys: seq<K>, i: nat, f: K -> Result<V>, acc: ODict<K, V>, v: V)
    requires acc.Valid() && i < |keys| && f(keys[i]) == Ok(v)
    ensures PutEach(keys[i..], f, acc) == PutEach(keys[i + 1..], f, acc.Put(keys[i], v))
  {
    assert keys[i..][0] == keys[i] && keys[i..][1..] == keys[i + 1..];
  }

  /** A key whose value raises ends the loop with that error. */
  lemma PutEachStops<K(!new), V>(keys: seq<K>, i: nat, f: K -> Result<V>, acc: ODict<K, V>)
    requires acc.Valid() && i < |keys| && f(keys[i]).Raise?
    ensures PutEach(keys[i..], f, acc) == Raise(f(keys[i]).error)
  {
    assert keys[i..][0] == keys[i];
  }

  /** The loop finishes exactly when no value raises, and otherwise stops with the
      error of some key. */
  lemma {:induction false} PutEachOk<K(!new), V>(keys: seq<K>, f: K -> Result<V>, acc: ODict<K, V>)
    requires acc.Valid()
    ensures PutEach(keys, f, acc).Ok? <==> forall i :: 0 <= i < |keys| ==> f(keys[i]).Ok?
    ensures PutEach(keys, f, acc).Raise? ==>
      exists i :: 0 <= i < |keys| && f(keys[i]).Raise? && PutEach(keys, f, acc).error == f(keys[i]).error
    decreases |keys|
  {
    if |keys| > 0 {
      var rest := keys[1..];
      assert forall i :: 0 < i < |keys| ==> rest[i - 1] == keys[i];
      var v := f(keys[0]);
      if v.Ok? {
        PutEachOk(rest, f, acc.Put(keys[0], v.value));
        if PutEach(keys, f, acc).Raise? {
          var i :| 0 <= i < |rest| && f(rest[i]).Raise? && PutEach(keys, f, acc).error == f(rest[i]).error;
          assert rest[i] == keys[i + 1];
        }
      }
    }
  }

  /** No key occurs twice. */
  predicate Distinct<K(==)>(keys: seq<K>)
  {
    forall i, j :: 0 <= i < j < |keys| ==> keys[i] != keys[j]
  }

  /** No key is in `m` yet. */
  predicate Fresh<K(==), V>(keys: seq<K>, m: map<K, V>)
  {
    forall i :: 0 <= i < |keys| ==> keys[i] !in m
  }

  /** A finished loop appends the fresh keys in order. */
  lemma {:induction false} PutEachOrder<K(!new), V>(keys: seq<K>, f: K -> Result<V>, acc: ODict<K, V>)
    requires acc.Valid() && PutEach(keys, f, acc).Ok?
    requires Distinct(keys) && Fresh(keys, acc.items)
    ensures PutEach(keys, f, acc).value.keys == acc.keys + keys
    decreases |keys|
  {
    if |keys| > 0 {
      PutEachOrderStep(keys, f, acc);
      PutEachOrder(keys[1..], f, acc.Put(keys[0], f(keys[0]).value));
      ConsAppend(acc.keys, keys);
    }
  }

  lemma ConsAppend<K>(a: seq<K>, keys: seq<K>)
    requires |keys| > 0
    ensures (a + [keys[0]]) + keys[1..] == a + keys
  {
    assert [keys[0]] + keys[1..] == keys;
  }

  /** The first key of a loop over fresh distinct keys is appended, and the rest
      are still fresh and distinct. */
  lemma PutEachOrderStep<K(!new), V>(keys: seq<K>, f: K -> Result<V>, acc: ODict<K, V>)
    requires acc.Valid() && PutEach(keys, f, acc).Ok? && |keys| > 0
    requires Distinct(keys) && Fresh(keys, acc.items)
    ensures f(keys[0]).Ok?
    ensures var acc' := acc.Put(keys[0], f(keys[0]).value);
      && PutEach(keys, f, acc) == PutEach(keys[1..], f, acc')
      && acc'.keys == acc.keys + [keys[0]]
      && Distinct(keys[1..]) && Fresh(keys[1..], acc'.items)
  {
    var rest := keys[1..];
    assert forall i :: 0 <= i < |rest| ==> rest[i] == keys[i + 1];
  }

  /** A finished loop keeps what `acc` held under keys the loop does not visit. */
  lemma {:induction false} PutEachKeep<K(!new), V>(keys: seq<K>, f: K -> Result<V>, acc: ODict<K, V>, k: K)
    requires acc.Valid() && PutEach(keys, f, acc).Ok? && k in acc.items && k !in keys
    ensures k in PutEach(keys, f, acc).value.items && PutEach(keys, f, acc).value.items[k] == acc.items[k]
    decreases |keys|
  {
    if |keys| > 0 {
      assert k != keys[0] && k !in keys[1..];
      PutEachKeep(keys[1..], f, acc.Put(keys[0], f(keys[0]).value), k);
    }
  }

  /** In a finished loop over distinct keys every key holds its own value. */
  lemma {:induction false} PutEachAt<K(!new), V>(keys: seq<K>, f: K -> Result<V>, acc: ODict<K, V>, i: nat)
    requires acc.Valid() && PutEach(keys, f, acc).Ok? && i < |keys|
    requires forall a, b :: 0 <= a < b < |keys| ==> keys[a] != keys[b]
    ensures f(keys[i]).Ok?
    ensures keys[i] in PutEach(keys, f, acc).value.items && PutEach(keys, f, acc).value.items[keys[i]] == f(keys[i]).value
    decreases |keys|
  {
    var rest := keys[1..];
    var acc' := acc.Put(keys[0], f(keys[0]).value);
    if i == 0 {
      assert keys[0] !in rest;
      PutEachKeep(rest, f, acc', keys[0]);
    } else {
      assert rest[i - 1] == keys[i];
      PutEachAt(rest, f, acc', i - 1);
    }
  }
}
