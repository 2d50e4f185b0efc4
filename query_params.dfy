/**
 * URLSearchParams as the ordered list of its (key, value) entries. Percent-encoding
 * by `toString()` and decoding on the way back are not modelled: a query string is
 * identified with its entry list.
 */
module QueryParams {
  import opened Wrappers
  import opened Seqs

  type Params = seq<(string, string)>

  /** `params.get(key)`: the value of the first entry with that key, or null. */
  function Get(p: Params, key: string): Option<string> {
    if p == [] then None
    else if p[0].0 == key then Some(p[0].1)
    else Get(p[1..], key)
  }

  /** The lookup fails exactly when no entry has the key, and otherwise finds an entry's value. */
  lemma {:induction false} GetFound(p: Params, key: string)
    ensures Get(p, key).None? <==> Lacks(p, key)
    ensures Get(p, key).Some? ==> (key, Get(p, key).value) in p
  {
    if p != [] {
      GetFound(p[1..], key);
      assert forall i :: 1 <= i < |p| ==> p[i] == p[1..][i - 1];
    }
  }

  /** `params.get(key) || fallback`: a missing or empty value reads as the fallback. */
  function GetOrDefault(p: Params, key: string, fallback: string): (r: string)
    ensures Get(p, key).Some? && Get(p, key).value != "" ==> r == Get(p, key).value
    ensures Get(p, key).None? || Get(p, key) == Some("") ==> r == fallback
  {
    match Get(p, key)
    case Some(v) => if v != "" then v else fallback
    case None => fallback
  }

  /** All entries whose key is not `key`, in order. */
  function RemoveKey(p: Params, key: string): (r: Params)
    ensures forall i :: 0 <= i < |r| ==> r[i].0 != key
    ensures forall k :: k != key ==> Get(r, k) == Get(p, k)
  {
    if p == [] then []
    else if p[0].0 == key then RemoveKey(p[1..], key)
    else [p[0]] + RemoveKey(p[1..], key)
  }

  /**
   * `params.set(key, value)`: the first entry with that key takes the new value and the
   * later ones are dropped; a key not yet present is appended.
   */
  function Set(p: Params, key: string, value: string): (r: Params)
    ensures Get(r, key) == Some(value)
    ensures forall k :: k != key ==> Get(r, k) == Get(p, k)
    ensures Get(p, key).None? ==> r == p + [(key, value)]
  {
    if p == [] then [(key, value)]
    else if p[0].0 == key then [(key, value)] + RemoveKey(p[1..], key)
    else [p[0]] + Set(p[1..], key, value)
  }

  /** No entry has the key. */
  predicate Lacks(p: Params, key: string) {
    forall i :: 0 <= i < |p| ==> p[i].0 != key
  }

  /** A lookup in a concatenation finds the first part's entry if it has one. */
  lemma {:induction false} GetAppend(a: Params, b: Params, key: string)
    ensures Get(a + b, key) == if Get(a, key).Some? then Get(a, key) else Get(b, key)
  {
    if a != [] {
      assert (a + b)[0] == a[0];
      if a[0].0 != key {
        assert (a + b)[1..] == a[1..] + b;
        GetAppend(a[1..], b, key);
      }
    } else {
      assert a + b == b;
    }
  }

  lemma LacksAppend(a: Params, b: Params, key: string)
    requires Lacks(a, key) && Lacks(b, key)
    ensures Lacks(a + b, key)
  {
    forall i | 0 <= i < |a + b| ensures (a + b)[i].0 != key {
      if i >= |a| { assert (a + b)[i] == b[i - |a|]; }
    }
  }

  /** Setting a key not yet present appends one entry. */
  lemma SetNew(p: Params, key: string, value: string)
    requires Lacks(p, key)
    ensures Set(p, key, value) == p + [(key, value)]
  {
    GetFound(p, key);
  }

  /** A lookup in a list of parts finds the one part that has the key. */
  lemma {:induction false} GetInPart(parts: seq<Params>, j: int, key: string)
    requires 0 <= j < |parts|
    requires forall i :: 0 <= i < |parts| && i != j ==> Lacks(parts[i], key)
    ensures Get(Flatten(parts), key) == Get(parts[j], key)
  {
    var n := |parts| - 1;
    var init := parts[..n];
    GetAppend(Flatten(init), parts[n], key);
    GetFound(parts[n], key);
    if j == n {
      LacksFlatten(init, key);
      GetFound(Flatten(init), key);
    } else {
      GetInPart(init, j, key);
    }
  }

  lemma {:induction false} LacksFlatten(parts: seq<Params>, key: string)
    requires forall i :: 0 <= i < |parts| ==> Lacks(parts[i], key)
    ensures Lacks(Flatten(parts), key)
  {
    if parts != [] {
      var n := |parts| - 1;
      LacksFlatten(parts[..n], key);
      LacksAppend(Flatten(parts[..n]), parts[n], key);
    }
  }
}
