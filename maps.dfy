/** Filling a map from a list of entries in order, as the decoding loops do with
    `output[key] = value` and `Map.set`: a repeated key keeps its last value. */
module Maps {

  /** m with the entries of es stored one after another. */
  function Upserted<K, V>(m: map<K, V>, es: seq<(K, V)>): map<K, V>
    decreases |es|
  {
    if es == [] then m else Upserted(m[es[0].0 := es[0].1], es[1..])
  }

  /** The keys of a list of entries. */
  function KeysOf<K, V>(es: seq<(K, V)>): (ks: set<K>)
    ensures forall i :: 0 <= i < |es| ==> es[i].0 in ks
    ensures forall k :: k in ks ==> exists i :: 0 <= i < |es| && es[i].0 == k
  {
    if es == [] then {} else {es[0].0} + KeysOf(es[1..])
  }

  /** Storing one more entry at the end is one more update. */
  lemma {:induction false} UpsertedSnoc<K, V>(m: map<K, V>, es: seq<(K, V)>, k: K, v: V)
    ensures Upserted(m, es + [(k, v)]) == Upserted(m, es)[k := v]
    decreases |es|
  {
    if es == [] {
      assert [(k, v)][1..] == [];
    } else {
      assert (es + [(k, v)])[1..] == es[1..] + [(k, v)];
      UpsertedSnoc(m[es[0].0 := es[0].1], es[1..], k, v);
    }
  }

  /** The result holds exactly the old keys and the keys of the entries. */
  lemma {:induction false} UpsertedKeys<K, V>(m: map<K, V>, es: seq<(K, V)>)
    ensures Upserted(m, es).Keys == m.Keys + KeysOf(es)
    decreases |es|
  {
    if es != [] {
      UpsertedKeys(m[es[0].0 := es[0].1], es[1..]);
    }
  }

  /** Last write wins: an entry not followed by another with its key decides that key. */
  lemma {:induction false} UpsertedLastWins<K, V>(m: map<K, V>, es: seq<(K, V)>, i: nat)
    requires i < |es|
    requires forall j :: i < j < |es| ==> es[j].0 != es[i].0
    ensures es[i].0 in Upserted(m, es) && Upserted(m, es)[es[i].0] == es[i].1
    decreases |es|
  {
    if i == 0 {
      UpsertedUntouched(m[es[0].0 := es[0].1], es[1..], es[0].0);
    } else {
      UpsertedLastWins(m[es[0].0 := es[0].1], es[1..], i - 1);
    }
  }

  /** A key that no entry mentions keeps its old value. */
  lemma {:induction false} UpsertedUntouched<K, V>(m: map<K, V>, es: seq<(K, V)>, k: K)
    requires forall j :: 0 <= j < |es| ==> es[j].0 != k
    ensures (k in Upserted(m, es)) == (k in m)
    ensures k in m ==> Upserted(m, es)[k] == m[k]
    decreases |es|
  {
    if es != [] {
      UpsertedUntouched(m[es[0].0 := es[0].1], es[1..], k);
    }
  }

  /** Some order of a finite set's elements (see EnumerationListsEachOnce). */
  ghost function Enumeration<K>(ks: set<K>): (s: seq<K>)
    ensures |s| == |ks|
    ensures forall i :: 0 <= i < |s| ==> s[i] in ks
    decreases |ks|
  {
    if ks == {} then [] else var k :| k in ks; [k] + Enumeration(ks - {k})
  }

  /** The enumeration lists every element, and each once. */
  lemma {:induction false} EnumerationListsEachOnce<K>(ks: set<K>)
    ensures forall k :: k in ks ==> k in Enumeration(ks)
    ensures forall i, j :: 0 <= i < j < |Enumeration(ks)| ==> Enumeration(ks)[i] != Enumeration(ks)[j]
    decreases |ks|
  {
    if ks != {} {
      var s := Enumeration(ks);
      var k := s[0];
      assert s == [k] + Enumeration(ks - {k});
      EnumerationListsEachOnce(ks - {k});
    }
  }

  /** The entries of m under the listed keys, in that order. */
  function EntriesAt<K, V>(m: map<K, V>, ks: seq<K>): (es: seq<(K, V)>)
    requires forall i :: 0 <= i < |ks| ==> ks[i] in m
    ensures |es| == |ks| && forall i {:trigger es[i]} :: 0 <= i < |ks| ==> es[i] == (ks[i], m[ks[i]])
    decreases |ks|
  {
    if ks == [] then [] else [(ks[0], m[ks[0]])] + EntriesAt(m, ks[1..])
  }

  /** Storing the entries under a list of keys is storing the first, then the rest. */
  lemma UpsertedEntriesAtHead<K, V>(acc: map<K, V>, m: map<K, V>, ks: seq<K>)
    requires ks != [] && forall i :: 0 <= i < |ks| ==> ks[i] in m
    ensures Upserted(acc, EntriesAt(m, ks)) == Upserted(acc[ks[0] := m[ks[0]]], EntriesAt(m, ks[1..]))
  {
    assert EntriesAt(m, ks)[1..] == EntriesAt(m, ks[1..]);
  }

  /** Storing a map's entries, each key once, into an empty map rebuilds the map,
      whatever their order. */
  lemma UpsertedEntriesAt<K, V>(m: map<K, V>, ks: seq<K>)
    requires forall i :: 0 <= i < |ks| ==> ks[i] in m
    requires forall k :: k in m ==> k in ks
    requires forall i, j :: 0 <= i < j < |ks| ==> ks[i] != ks[j]
    ensures Upserted(map[], EntriesAt(m, ks)) == m
  {
    var u := Upserted(map[], EntriesAt(m, ks));
    EntriesAtKeys(m, ks);
    forall k | k in m
      ensures u[k] == m[k]
    {
      var i :| 0 <= i < |ks| && ks[i] == k;
      UpsertedLastWins(map[], EntriesAt(m, ks), i);
    }
  }

  /** The entries under a list of all of a map's keys store exactly those keys. */
  lemma EntriesAtKeys<K, V>(m: map<K, V>, ks: seq<K>)
    requires forall i :: 0 <= i < |ks| ==> ks[i] in m
    requires forall k :: k in m ==> k in ks
    ensures Upserted(map[], EntriesAt(m, ks)).Keys == m.Keys
  {
    var es := EntriesAt(m, ks);
    UpsertedKeys(map[], es);
    forall k | k in KeysOf(es) ensures k in m {
      var i :| 0 <= i < |es| && es[i].0 == k;
    }
    forall k | k in m ensures k in KeysOf(es) {
      var i :| 0 <= i < |ks| && ks[i] == k;
      assert es[i].0 == k;
    }
  }

  /** A map's entries in enumeration order rebuild the map. */
  lemma EnumeratedEntries<K, V>(m: map<K, V>)
    ensures forall k | k in Enumeration(m.Keys) :: k in m
    ensures |Enumeration(m.Keys)| == |m|
    ensures Upserted(map[], EntriesAt(m, Enumeration(m.Keys))) == m
  {
    EnumerationListsEachOnce(m.Keys);
    UpsertedEntriesAt(m, Enumeration(m.Keys));
  }
}
