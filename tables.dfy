/** Upserts into a map, as `m[k] = v` does on a `std::map`. */
module Tables {

  /** The map after writing each pair of `kvs` in order, a later write to a key replacing an earlier one. */
  function Upserts<K, V>(m: map<K, V>, kvs: seq<(K, V)>): map<K, V>
    decreases |kvs|
  {
    if |kvs| == 0 then m else Upserts(m[kvs[0].0 := kvs[0].1], kvs[1..])
  }

  /** Each record of `vs` paired with its key, in order: the writes a loader makes to a map keyed by `cle`. */
  function ParId<K, V>(vs: seq<V>, cle: V -> K): (r: seq<(K, V)>)
    ensures |r| == |vs|
    ensures forall i :: 0 <= i < |vs| ==> r[i] == (cle(vs[i]), vs[i])
  {
    if |vs| == 0 then [] else [(cle(vs[0]), vs[0])] + ParId(vs[1..], cle)
  }

  /** No pair of `kvs` after position `j` writes the key written at `j`. */
  ghost predicate DerniereEcriture<K, V>(kvs: seq<(K, V)>, j: int)
  {
    0 <= j < |kvs| && forall j' :: j < j' < |kvs| ==> kvs[j'].0 != kvs[j].0
  }

  /** No pair of `kvs` writes `k`. */
  ghost predicate JamaisEcrite<K, V>(kvs: seq<(K, V)>, k: K)
  {
    forall j :: 0 <= j < |kvs| ==> kvs[j].0 != k
  }

  /**
    Last write wins: the keys are the old ones and the written ones; a key
    never written keeps its old value; a written key holds its last write.
   */
  lemma {:induction false} DernierEcritGagne<K, V>(m: map<K, V>, kvs: seq<(K, V)>)
    ensures Upserts(m, kvs).Keys == m.Keys + set j | 0 <= j < |kvs| :: kvs[j].0
    ensures forall k :: k in m && JamaisEcrite(kvs, k) ==> Upserts(m, kvs)[k] == m[k]
    ensures forall j :: DerniereEcriture(kvs, j) ==> Upserts(m, kvs)[kvs[j].0] == kvs[j].1
    decreases |kvs|
  {
    if |kvs| > 0 {
      var m' := m[kvs[0].0 := kvs[0].1];
      var reste := kvs[1..];
      DernierEcritGagne(m', reste);
      var ecrites := set j | 0 <= j < |kvs| :: kvs[j].0;
      var ecritesReste := set j | 0 <= j < |reste| :: reste[j].0;
      assert ecrites == {kvs[0].0} + ecritesReste by {
        forall k | k in ecrites ensures k in {kvs[0].0} + ecritesReste {
          var j :| 0 <= j < |kvs| && kvs[j].0 == k;
          if j > 0 { assert reste[j - 1].0 == k; }
        }
        forall k | k in ecritesReste ensures k in ecrites {
          var j :| 0 <= j < |reste| && reste[j].0 == k;
          assert kvs[j + 1].0 == k;
        }
      }
      forall k | k in m && JamaisEcrite(kvs, k) ensures Upserts(m, kvs)[k] == m[k] {
        assert kvs[0].0 != k;
        assert JamaisEcrite(reste, k) by {
          forall j | 0 <= j < |reste| ensures reste[j].0 != k { assert reste[j] == kvs[j + 1]; }
        }
      }
      forall j | DerniereEcriture(kvs, j) ensures Upserts(m, kvs)[kvs[j].0] == kvs[j].1 {
        if j == 0 {
          assert JamaisEcrite(reste, kvs[0].0) by {
            forall i | 0 <= i < |reste| ensures reste[i].0 != kvs[0].0 { assert reste[i] == kvs[i + 1]; }
          }
        } else {
          assert DerniereEcriture(reste, j - 1) by {
            forall j' | j - 1 < j' < |reste| ensures reste[j'].0 != reste[j - 1].0 { assert reste[j'] == kvs[j' + 1]; }
          }
        }
      }
    }
  }
}
