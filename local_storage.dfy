/** The browser's localStorage as the client code uses it: string keys in a
    stable order (the order `key(i)` enumerates them in; the model keeps the
    order of first insertion) and a string value per key. */
module LocalStore {
  import opened JsCore

  predicate Distinct(ks: seq<string>)
  {
    forall i, j :: 0 <= i < j < |ks| ==> ks[i] != ks[j]
  }

  /** `ks` without `k`, the others in their order. */
  function Without(ks: seq<string>, k: string): (r: seq<string>)
    ensures forall x :: x in r <==> x in ks && x != k
    ensures Distinct(ks) ==> Distinct(r)
    ensures |r| <= |ks|
  {
    if ks == [] then []
    else
      DistinctTail(ks);
      if ks[0] == k then Without(ks[1..], k)
      else [ks[0]] + Without(ks[1..], k)
  }

  lemma DistinctTail(ks: seq<string>)
    requires ks != []
    ensures Distinct(ks) ==> Distinct(ks[1..]) && ks[0] !in ks[1..]
  {
    if Distinct(ks) {
      forall x | x in ks[1..] ensures x != ks[0] {
        var j :| 0 <= j < |ks[1..]| && ks[1..][j] == x;
        assert ks[j + 1] == x;
      }
    }
  }

  class LocalStorage {
    var keys: seq<string>
    var values: map<string, string>

    ghost predicate Valid()
      reads this
    {
      Distinct(keys) && (forall k :: k in keys <==> k in values)
    }

    constructor ()
      ensures Valid() && keys == [] && values == map[]
    {
      keys, values := [], map[];
    }

    /** `localStorage.length` */
    function Length(): nat
      reads this
    {
      |keys|
    }

    /** `localStorage.getItem(k)`; None for `null`. */
    function GetItem(k: string): (r: Option<string>)
      reads this
      ensures r.Some? <==> k in values
      ensures r.Some? ==> r.value == values[k]
    {
      if k in values then Some(values[k]) else None
    }

    /** `localStorage.setItem(k, v)`: a new key goes last, an existing key keeps its place. */
    method SetItem(k: string, v: string)
      requires Valid()
      modifies this
      ensures Valid()
      ensures values == old(values)[k := v]
      ensures keys == if k in old(keys) then old(keys) else old(keys) + [k]
    {
      if k !in keys {
        keys := keys + [k];
      }
      values := values[k := v];
    }

    /** `localStorage.removeItem(k)`; a missing key is no error. */
    method RemoveItem(k: string)
      requires Valid()
      modifies this
      ensures Valid()
      ensures values == old(values) - {k}
      ensures keys == Without(old(keys), k)
    {
      keys := Without(keys, k);
      values := values - {k};
    }
  }
}
