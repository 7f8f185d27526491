/** Swift dictionaries as association lists with distinct keys. The order of the
    list stands for the dictionary's iteration order, which Swift leaves
    unspecified; `AsMap` is the order-free view. */
module AssocLists {
  import opened Wrappers

  function Keys<K, V>(entries: seq<(K, V)>): (r: seq<K>)
    ensures |r| == |entries|
    ensures forall i :: 0 <= i < |entries| ==> r[i] == entries[i].0
  {
    if |entries| == 0 then [] else [entries[0].0] + Keys(entries[1..])
  }

  predicate DistinctKeys<K(==), V>(entries: seq<(K, V)>)
  {
    forall i, j :: 0 <= i < j < |entries| ==> entries[i].0 != entries[j].0
  }

  /** The same property as `DistinctKeys`, stated one entry at a time. */
  predicate UniqueKeys<K(==), V>(entries: seq<(K, V)>)
    decreases |entries|
  {
    |entries| == 0 || (entries[0].0 !in Keys(entries[1..]) && UniqueKeys(entries[1..]))
  }

  lemma {:induction false} UniqueKeysDistinct<K, V>(entries: seq<(K, V)>)
    ensures UniqueKeys(entries) <==> DistinctKeys(entries)
    decreases |entries|
  {
    if |entries| > 0 {
      var rest := entries[1..];
      UniqueKeysDistinct(rest);
      assert Keys(rest) == Keys(entries)[1..];
      if DistinctKeys(entries) {
        assert DistinctKeys(rest) by {
          forall i, j | 0 <= i < j < |rest| ensures rest[i].0 != rest[j].0 {
            assert rest[i] == entries[i + 1] && rest[j] == entries[j + 1];
          }
        }
        forall j | 0 <= j < |rest| ensures Keys(rest)[j] != entries[0].0 {
          assert rest[j] == entries[j + 1];
        }
      }
      if UniqueKeys(entries) {
        forall i, j | 0 <= i < j < |entries| ensures entries[i].0 != entries[j].0 {
          if i == 0 {
            assert entries[j] == rest[j - 1];
            assert Keys(rest)[j - 1] == entries[j].0;
          } else {
            assert entries[i] == rest[i - 1] && entries[j] == rest[j - 1];
          }
        }
      }
    }
  }

  /** Where `key` stands, or `|entries|` when it is absent. */
  function IndexOf<K(==), V>(entries: seq<(K, V)>, key: K): (i: nat)
    ensures i <= |entries|
    ensures i < |entries| ==> entries[i].0 == key
    ensures forall j :: 0 <= j < i ==> entries[j].0 != key
    ensures i == |entries| <==> key !in Keys(entries)
  {
    if |entries| == 0 then 0
    else if entries[0].0 == key then 0
    else 1 + IndexOf(entries[1..], key)
  }

  /** Two lists with the same keys in the same order find a key at the same place. */
  lemma {:induction false} IndexOfSameKeys<K, V, W>(a: seq<(K, V)>, b: seq<(K, W)>, key: K)
    requires |a| == |b| && forall j :: 0 <= j < |a| ==> a[j].0 == b[j].0
    ensures IndexOf(a, key) == IndexOf(b, key)
    decreases |a|
  {
    if |a| > 0 && a[0].0 != key {
      IndexOfSameKeys(a[1..], b[1..], key);
    }
  }

  /** `dict[key]`. */
  function Lookup<K(==), V>(entries: seq<(K, V)>, key: K): (r: Option<V>)
    ensures r.None? <==> key !in Keys(entries)
    ensures r.Some? ==> (key, r.value) in entries
  {
    var i := IndexOf(entries, key);
    if i < |entries| then Some(entries[i].1) else None
  }

  /** With distinct keys, the entry holding `key` is the one `Lookup` finds. */
  lemma {:induction false} LookupDistinct<K, V>(entries: seq<(K, V)>, i: nat)
    requires DistinctKeys(entries) && i < |entries|
    ensures Lookup(entries, entries[i].0) == Some(entries[i].1)
  {
    IndexOfUnique(entries, entries[i].0, i);
  }

  /** `dict[key] = value`: an existing entry is replaced where it stands, a new key
      is appended. */
  function Insert<K(==,!new), V>(entries: seq<(K, V)>, key: K, value: V): (r: seq<(K, V)>)
    ensures Lookup(r, key) == Some(value)
    ensures forall k :: k != key ==> Lookup(r, k) == Lookup(entries, k)
    ensures key !in Keys(entries) ==> r == entries + [(key, value)]
  {
    var i := IndexOf(entries, key);
    var r := if i == |entries| then entries + [(key, value)] else entries[i := (key, value)];
    IndexOfUnique(r, key, i);
    forall k | k != key ensures Lookup(r, k) == Lookup(entries, k) {
      InsertElsewhere(entries, key, value, i, r, k);
    }
    r
  }

  /** Inserting keeps the keys distinct. */
  lemma {:induction false} InsertDistinct<K(!new), V>(entries: seq<(K, V)>, key: K, value: V)
    requires DistinctKeys(entries)
    ensures DistinctKeys(Insert(entries, key, value))
  {
    var r := Insert(entries, key, value);
    if key in Keys(entries) {
      var m := IndexOf(entries, key);
      assert r == entries[m := (key, value)];
      KeysUpdate(entries, m, (key, value));
      forall i, j | 0 <= i < j < |r| ensures r[i].0 != r[j].0 {
        assert r[i].0 == Keys(r)[i] == Keys(entries)[i] == entries[i].0;
        assert r[j].0 == Keys(r)[j] == Keys(entries)[j] == entries[j].0;
      }
    } else {
      forall i, j | 0 <= i < j < |r| ensures r[i].0 != r[j].0 {
        if j == |entries| {
          assert entries[i].0 == Keys(entries)[i];
        }
      }
    }
  }

  lemma {:induction false} InsertElsewhere<K, V>(entries: seq<(K, V)>, key: K, value: V, i: nat, r: seq<(K, V)>, k: K)
    requires i == IndexOf(entries, key) && k != key
    requires r == if i == |entries| then entries + [(key, value)] else entries[i := (key, value)]
    ensures Lookup(r, k) == Lookup(entries, k)
  {
    if i == |entries| {
      AppendElsewhere(entries, (key, value), k);
    } else {
      UpdateElsewhere(entries, i, (key, value), k);
    }
  }

  lemma {:induction false} AppendElsewhere<K, V>(entries: seq<(K, V)>, e: (K, V), k: K)
    requires e.0 != k
    ensures Lookup(entries + [e], k) == Lookup(entries, k)
  {
    var r := entries + [e];
    var m := IndexOf(entries, k);
    if m < |entries| {
      IndexOfUnique(r, k, m);
    } else {
      assert Keys(r) == Keys(entries) + [e.0];
      IndexOfUnique(r, k, |r|);
    }
  }

  lemma {:induction false} UpdateElsewhere<K, V>(entries: seq<(K, V)>, i: nat, e: (K, V), k: K)
    requires i < |entries| && entries[i].0 == e.0 && e.0 != k
    ensures Lookup(entries[i := e], k) == Lookup(entries, k)
  {
    var r := entries[i := e];
    var m := IndexOf(entries, k);
    if m < |entries| {
      IndexOfUnique(r, k, m);
    } else {
      KeysUpdate(entries, i, e);
      IndexOfUnique(r, k, |r|);
    }
  }

  lemma {:induction false} KeysUpdate<K, V>(entries: seq<(K, V)>, i: nat, e: (K, V))
    requires i < |entries| && entries[i].0 == e.0
    ensures Keys(entries[i := e]) == Keys(entries)
  {
    var a, b := Keys(entries[i := e]), Keys(entries);
    assert |a| == |b|;
    forall j | 0 <= j < |a| ensures a[j] == b[j] {
    }
  }

  /** The first place `key` stands is the only candidate for `IndexOf`. */
  lemma {:induction false} IndexOfUnique<K, V>(entries: seq<(K, V)>, key: K, i: nat)
    requires i <= |entries|
    requires i < |entries| ==> entries[i].0 == key
    requires i == |entries| ==> key !in Keys(entries)
    requires forall j :: 0 <= j < i ==> entries[j].0 != key
    ensures IndexOf(entries, key) == i
  {
  }

  /** The dictionary the list stands for. */
  function AsMap<K(==,!new), V>(entries: seq<(K, V)>): (m: map<K, V>)
    ensures forall k :: k in m <==> k in Keys(entries)
    ensures forall k :: k in m ==> Lookup(entries, k) == Some(m[k])
  {
    map k | k in Keys(entries) :: Lookup(entries, k).value
  }

  /** `for key in from.keys { into[key] = from[key] }`. */
  function Merge<K(==,!new), V>(into: seq<(K, V)>, from: seq<(K, V)>): (r: seq<(K, V)>)
    decreases |from|
  {
    if |from| == 0 then into else Merge(Insert(into, from[0].0, from[0].1), from[1..])
  }

  /** Merging keeps the keys distinct. */
  lemma {:induction false} MergeDistinct<K(!new), V>(into: seq<(K, V)>, from: seq<(K, V)>)
    requires DistinctKeys(into)
    ensures DistinctKeys(Merge(into, from))
    decreases |from|
  {
    if |from| > 0 {
      InsertDistinct(into, from[0].0, from[0].1);
      MergeDistinct(Insert(into, from[0].0, from[0].1), from[1..]);
    }
  }

  /** Merging entries whose keys are new appends them in order. */
  lemma {:induction false} MergeFresh<K(!new), V>(into: seq<(K, V)>, from: seq<(K, V)>)
    requires DistinctKeys(into + from)
    ensures Merge(into, from) == into + from
    decreases |from|
  {
    if |from| > 0 {
      FirstKeyFresh(into, from);
      assert (into + [from[0]]) + from[1..] == into + from;
      MergeFresh(into + [from[0]], from[1..]);
    }
  }

  /** Storing entries with unique keys, one by one, into an empty dictionary yields
      them in order. */
  lemma {:induction false} MergeUnique<K(!new), V>(entries: seq<(K, V)>)
    requires UniqueKeys(entries)
    ensures Merge([], entries) == entries
  {
    UniqueKeysDistinct(entries);
    assert [] + entries == entries;
    MergeFresh([], entries);
  }

  /** Storing one more entry after a merge is merging one entry more: the loop that
      stores decoded pairs one at a time builds `Merge([], pairs)`. */
  lemma {:induction false} MergeSnoc<K(!new), V>(into: seq<(K, V)>, from: seq<(K, V)>, key: K, value: V)
    ensures Merge(into, from + [(key, value)]) == Insert(Merge(into, from), key, value)
    decreases |from|
  {
    if |from| == 0 {
      assert from + [(key, value)] == [(key, value)];
      assert [(key, value)][1..] == [];
    } else {
      assert (from + [(key, value)])[0] == from[0];
      assert (from + [(key, value)])[1..] == from[1..] + [(key, value)];
      MergeSnoc(Insert(into, from[0].0, from[0].1), from[1..], key, value);
    }
  }

  /** The loop that stores the entries of `from` one at a time holds
      `Merge(into, from[..i])` after `i` of them. */
  lemma {:induction false} MergePrefix<K(!new), V>(into: seq<(K, V)>, from: seq<(K, V)>, i: nat)
    requires i < |from|
    ensures Merge(into, from[..i + 1]) == Insert(Merge(into, from[..i]), from[i].0, from[i].1)
  {
    assert from[..i + 1] == from[..i] + [(from[i].0, from[i].1)];
    MergeSnoc(into, from[..i], from[i].0, from[i].1);
  }

  /** Of several entries with the same key, the last one stored wins. */
  lemma {:induction false} MergeLastWins<K(!new), V>(into: seq<(K, V)>, from: seq<(K, V)>, key: K, value: V)
    ensures Lookup(Merge(into, from + [(key, value)]), key) == Some(value)
  {
    MergeSnoc(into, from, key, value);
  }

  lemma {:induction false} FirstKeyFresh<K, V>(into: seq<(K, V)>, from: seq<(K, V)>)
    requires |from| > 0 && DistinctKeys(into + from)
    ensures from[0].0 !in Keys(into)
  {
    assert (into + from)[|into|] == from[0];
    forall j | 0 <= j < |into| ensures Keys(into)[j] != from[0].0 {
      assert (into + from)[j] == into[j];
    }
  }

  /** After a merge, every key of `from` maps to its value there and every other
      key keeps its old value. */
  lemma {:induction false} MergeLookup<K(!new), V>(into: seq<(K, V)>, from: seq<(K, V)>, k: K)
    requires DistinctKeys(from)
    ensures k in Keys(from) ==> Lookup(Merge(into, from), k) == Lookup(from, k)
    ensures k !in Keys(from) ==> Lookup(Merge(into, from), k) == Lookup(into, k)
    decreases |from|
  {
    if |from| == 0 {
    } else {
      var next := Insert(into, from[0].0, from[0].1);
      var rest := from[1..];
      assert Keys(rest) == Keys(from)[1..];
      MergeLookup(next, rest, k);
      if k == from[0].0 {
        forall j | 0 <= j < |rest| ensures Keys(rest)[j] != k {
          assert rest[j] == from[j + 1];
        }
      } else {
        assert IndexOf(from, k) == 1 + IndexOf(rest, k);
      }
    }
  }

  lemma {:induction false} MergeAsMap<K(!new), V>(into: seq<(K, V)>, from: seq<(K, V)>)
    requires DistinctKeys(from)
    ensures AsMap(Merge(into, from)) == AsMap(into) + AsMap(from)
  {
    var l, r := AsMap(Merge(into, from)), AsMap(into) + AsMap(from);
    forall k
      ensures k in l <==> k in r
      ensures k in l ==> l[k] == r[k]
    {
      MergeAsMapKey(into, from, k);
    }
  }

  lemma {:induction false} MergeAsMapKey<K(!new), V>(into: seq<(K, V)>, from: seq<(K, V)>, k: K)
    requires DistinctKeys(from)
    ensures k in AsMap(Merge(into, from)) <==> k in AsMap(into) + AsMap(from)
    ensures k in AsMap(Merge(into, from)) ==> AsMap(Merge(into, from))[k] == (AsMap(into) + AsMap(from))[k]
  {
    MergeLookup(into, from, k);
    var m := Merge(into, from);
    LookupAsMap(m, k);
    LookupAsMap(into, k);
    LookupAsMap(from, k);
  }

  /** `AsMap` holds `key` exactly when `Lookup` finds it, with that value. */
  lemma {:induction false} LookupAsMap<K(!new), V>(entries: seq<(K, V)>, key: K)
    ensures key in AsMap(entries) <==> Lookup(entries, key).Some?
    ensures key in AsMap(entries) ==> AsMap(entries)[key] == Lookup(entries, key).value
  {
  }
}
