/**
 * List operations the source gets from the JavaScript runtime: `Array.prototype.filter`,
 * a `Set` filled in insertion order and read back with `Array.from`, and the default
 * `Array.prototype.sort` on strings.
 */
module Seqs {
  import opened Text

  /** `s.filter(p)`. */
  function Filter<T>(s: seq<T>, p: T -> bool): seq<T> {
    if s == [] then []
    else if p(s[0]) then [s[0]] + Filter(s[1..], p)
    else Filter(s[1..], p)
  }

  /** The filter keeps, in order, exactly the elements that pass. */
  lemma {:induction false} FilterMembers<T>(s: seq<T>, p: T -> bool)
    ensures |Filter(s, p)| <= |s|
    ensures forall i :: 0 <= i < |Filter(s, p)| ==> Filter(s, p)[i] in s && p(Filter(s, p)[i])
    ensures forall i :: 0 <= i < |s| && p(s[i]) ==> s[i] in Filter(s, p)
    ensures IsSubsequence(Filter(s, p), s)
  {
    if s != [] {
      FilterMembers(s[1..], p);
      var r := Filter(s, p);
      assert s == [s[0]] + s[1..];
      if p(s[0]) {
        assert r[1..] == Filter(s[1..], p);
      }
    }
  }

  /** `a` is obtained from `b` by deleting elements, keeping the order of the rest. */
  predicate IsSubsequence<T(==)>(a: seq<T>, b: seq<T>)
    decreases |b|
  {
    if a == [] then true
    else if b == [] then false
    else (a[0] == b[0] && IsSubsequence(a[1..], b[1..])) || IsSubsequence(a, b[1..])
  }

  /** Filtering with a predicate that holds everywhere changes nothing. */
  lemma {:induction false} FilterTrue<T>(s: seq<T>, p: T -> bool)
    requires forall x :: p(x)
    ensures Filter(s, p) == s
  {
    if s != [] { FilterTrue(s[1..], p); }
  }

  /** Two successive filters are one filter by the conjunction of their predicates. */
  lemma {:induction false} FilterFusion<T>(s: seq<T>, p: T -> bool, q: T -> bool, pq: T -> bool)
    requires forall x :: pq(x) == (p(x) && q(x))
    ensures Filter(Filter(s, p), q) == Filter(s, pq)
  {
    if s != [] {
      FilterFusion(s[1..], p, q, pq);
      if p(s[0]) {
        assert Filter(s, p) == [s[0]] + Filter(s[1..], p);
        assert Filter(s, p)[1..] == Filter(s[1..], p);
      }
    }
  }

  /** No element occurs twice. */
  predicate Distinct<T(==)>(s: seq<T>) {
    forall i, j :: 0 <= i < j < |s| ==> s[i] != s[j]
  }

  /** The concatenation of the lists in `ls`, in order. */
  function Flatten<T>(ls: seq<seq<T>>): seq<T> {
    if ls == [] then [] else Flatten(ls[..|ls| - 1]) + ls[|ls| - 1]
  }

  /** Some list of `ls` holds `x`. */
  predicate InSome<T(==)>(ls: seq<seq<T>>, x: T) {
    exists i :: 0 <= i < |ls| && x in ls[i]
  }

  lemma {:induction false} FlattenMember<T>(ls: seq<seq<T>>, x: T)
    ensures x in Flatten(ls) <==> InSome(ls, x)
  {
    if ls != [] {
      var n := |ls| - 1;
      var init := ls[..n];
      FlattenMember(init, x);
      assert Flatten(ls) == Flatten(init) + ls[n];
      if x in Flatten(init) {
        var i :| 0 <= i < |init| && x in init[i];
        assert ls[i] == init[i];
      }
      if InSome(ls, x) && x !in ls[n] {
        var i :| 0 <= i < |ls| && x in ls[i];
        assert i < n && init[i] == ls[i];
      }
    }
  }

  /** The distinct elements of the concatenated lists, in first-occurrence order. */
  lemma DedupeFlatten<T>(ls: seq<seq<T>>)
    ensures Distinct(Dedupe(Flatten(ls)))
    ensures forall x :: x in Dedupe(Flatten(ls)) <==> InSome(ls, x)
    ensures forall i, j :: 0 <= i < j < |Dedupe(Flatten(ls))| ==>
      Dedupe(Flatten(ls))[i] in Flatten(ls) && Dedupe(Flatten(ls))[j] in Flatten(ls) &&
      IndexOf(Flatten(ls), Dedupe(Flatten(ls))[i]) < IndexOf(Flatten(ls), Dedupe(Flatten(ls))[j])
  {
    DedupeMembers(Flatten(ls));
    DedupeOrder(Flatten(ls));
    DedupeInSome(ls);
  }

  lemma DedupeInSome<T>(ls: seq<seq<T>>)
    ensures forall x :: x in Dedupe(Flatten(ls)) <==> InSome(ls, x)
  {
    DedupeMembers(Flatten(ls));
    forall x ensures x in Dedupe(Flatten(ls)) <==> InSome(ls, x) {
      FlattenMember(ls, x);
    }
  }

  /**
   * What a JavaScript `Set` holds, read back with `Array.from`, after `add` was called
   * with the elements of `s` in order: each distinct element once, where it first occurred.
   */
  function Dedupe<T(==)>(s: seq<T>): seq<T> {
    if s == [] then []
    else
      var d := Dedupe(s[..|s| - 1]);
      if s[|s| - 1] in d then d else d + [s[|s| - 1]]
  }

  lemma {:induction false} DedupeMembers<T>(s: seq<T>)
    ensures forall x :: x in Dedupe(s) <==> x in s
    ensures forall i :: 0 <= i < |Dedupe(s)| ==> Dedupe(s)[i] in s
    ensures Distinct(Dedupe(s))
  {
    if s != [] {
      var init := s[..|s| - 1];
      DedupeMembers(init);
      assert s == init + [s[|s| - 1]];
    }
  }

  /** Index of the first occurrence of `x` in `s`. */
  function IndexOf<T(==)>(s: seq<T>, x: T): (k: nat)
    requires x in s
    ensures k < |s| && s[k] == x && x !in s[..k]
  {
    if s[0] == x then 0 else 1 + IndexOf(s[1..], x)
  }

  lemma IndexOfAppend<T>(s: seq<T>, y: T, x: T)
    requires x in s
    ensures IndexOf(s + [y], x) == IndexOf(s, x)
  {
    var k := IndexOf(s, x);
    assert (s + [y])[k] == x && (s + [y])[..k] == s[..k];
    IndexOfFirst(s + [y], x, k);
  }

  lemma IndexOfLast<T>(s: seq<T>, x: T)
    requires x !in s
    ensures IndexOf(s + [x], x) == |s|
  {
    assert (s + [x])[|s|] == x && (s + [x])[..|s|] == s;
    IndexOfFirst(s + [x], x, |s|);
  }

  /** The first index holding `x` is IndexOf. */
  lemma {:induction false} IndexOfFirst<T>(s: seq<T>, x: T, k: nat)
    requires k < |s| && s[k] == x && x !in s[..k]
    ensures IndexOf(s, x) == k
  {
    if s[0] != x {
      assert k > 0;
      assert s[1..][..k - 1] == s[..k][1..];
      IndexOfFirst(s[1..], x, k - 1);
    }
  }

  /** Dedupe keeps first-occurrence order: a value listed earlier first occurs earlier in the input. */
  lemma {:induction false} DedupeOrder<T>(s: seq<T>)
    ensures forall i, j :: 0 <= i < j < |Dedupe(s)| ==>
      Dedupe(s)[i] in s && Dedupe(s)[j] in s && IndexOf(s, Dedupe(s)[i]) < IndexOf(s, Dedupe(s)[j])
  {
    DedupeMembers(s);
    if s != [] {
      var init, last := s[..|s| - 1], s[|s| - 1];
      assert s == init + [last];
      var d, r := Dedupe(init), Dedupe(s);
      DedupeOrder(init);
      DedupeMembers(init);
      forall i, j | 0 <= i < j < |r| ensures IndexOf(s, r[i]) < IndexOf(s, r[j]) {
        assert r[i] == d[i] && r[i] in d;
        IndexOfAppend(init, last, r[i]);
        if j < |d| {
          assert r[j] == d[j] && r[j] in d;
          IndexOfAppend(init, last, r[j]);
        } else {
          assert r[j] == last && last !in init;
          IndexOfLast(init, last);
        }
      }
    }
  }

  /**
   * Adds the elements of every list of `ls`, in order, to an insertion-ordered set
   * (the nested `forEach` loops that fill a `Set`), and returns the set's contents.
   */
  method CollectDistinct<T(==)>(ls: seq<seq<T>>) returns (seen: seq<T>)
    ensures seen == Dedupe(Flatten(ls))
  {
    seen := [];
    var i := 0;
    while i < |ls|
      invariant 0 <= i <= |ls|
      invariant seen == Dedupe(Flatten(ls[..i]))
    {
      var j := 0;
      assert Flatten(ls[..i]) + ls[i][..0] == Flatten(ls[..i]);
      while j < |ls[i]|
        invariant 0 <= j <= |ls[i]|
        invariant seen == Dedupe(Flatten(ls[..i]) + ls[i][..j])
      {
        var x := ls[i][j];
        DedupeMembers(Flatten(ls[..i]) + ls[i][..j]);
        assert Flatten(ls[..i]) + ls[i][..j + 1] == (Flatten(ls[..i]) + ls[i][..j]) + [x];
        if x !in seen {
          seen := seen + [x];
        }
        j := j + 1;
      }
      assert ls[..i + 1][..i] == ls[..i];
      assert ls[i][..j] == ls[i];
      i := i + 1;
    }
    assert ls[..i] == ls;
  }

  /** Sorted in strictly ascending UTF-16 code-unit order (`Text.Below`). */
  predicate StrictlyAscending(s: seq<string>) {
    forall i, j :: 0 <= i < j < |s| ==> Below(s[i], s[j])
  }

  /** Inserts `x` into its place in an ascending list. */
  function Insert(x: string, s: seq<string>): (r: seq<string>)
    ensures multiset(r) == multiset(s) + multiset{x}
  {
    if s == [] then [x]
    else if Below(s[0], x) then
      assert s == [s[0]] + s[1..];
      [s[0]] + Insert(x, s[1..])
    else [x] + s
  }

  lemma {:induction false} InsertAscending(x: string, s: seq<string>)
    requires StrictlyAscending(s) && x !in s
    ensures StrictlyAscending(Insert(x, s))
  {
    if s == [] {
    } else if Below(s[0], x) {
      assert s == [s[0]] + s[1..];
      InsertAscending(x, s[1..]);
      InsertAbove(x, s);
      ConsAscending(s[0], Insert(x, s[1..]));
    } else {
      BelowTotal(x, s[0]);
      forall j | 0 <= j < |s| ensures Below(x, s[j]) {
        if j > 0 { BelowTransitive(x, s[0], s[j]); }
      }
      ConsAscending(x, s);
    }
  }

  /** Every element of `r` comes after `h`. */
  predicate AllAbove(h: string, r: seq<string>) {
    forall j :: 0 <= j < |r| ==> Below(h, r[j])
  }

  lemma ConsAscending(h: string, r: seq<string>)
    requires StrictlyAscending(r) && AllAbove(h, r)
    ensures StrictlyAscending([h] + r)
  {
    var c := [h] + r;
    forall i, j | 0 <= i < j < |c| ensures Below(c[i], c[j]) {
      assert c[j] == r[j - 1];
      if i > 0 { assert c[i] == r[i - 1]; }
    }
  }

  /** Inserting a later `x` into the tail keeps every element after the head. */
  lemma InsertAbove(x: string, s: seq<string>)
    requires s != [] && StrictlyAscending(s) && Below(s[0], x)
    ensures AllAbove(s[0], Insert(x, s[1..]))
  {
    var tail, rest := s[1..], Insert(x, s[1..]);
    forall j | 0 <= j < |rest| ensures Below(s[0], rest[j]) {
      assert rest[j] in multiset(rest);
      if rest[j] != x {
        assert rest[j] in multiset(tail);
        var k :| 0 <= k < |tail| && tail[k] == rest[j];
        assert s[k + 1] == tail[k];
      }
    }
  }

  /** `Array.from(set).sort()` on strings: insertion sort by the code-unit order. */
  function Sort(s: seq<string>): (r: seq<string>)
    ensures multiset(r) == multiset(s)
    ensures Distinct(s) ==> StrictlyAscending(r)
  {
    if s == [] then []
    else
      var tail := s[1..];
      assert s == [s[0]] + tail;
      var sorted := Sort(tail);
      assert Distinct(s) ==> Distinct(tail) && s[0] !in tail;
      assert s[0] !in tail ==> s[0] !in sorted by {
        assert s[0] in sorted ==> s[0] in multiset(sorted);
      }
      if Distinct(s) then InsertAscending(s[0], sorted); Insert(s[0], sorted)
      else Insert(s[0], sorted)
  }
}
