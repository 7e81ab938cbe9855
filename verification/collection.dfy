/** The in-memory collection operations of the home page, written once for
    any record type with a string key: `findIndex`/`find` by id, the upsert
    done on save, and the `filter` used for delete and search. */
module Collection {
  import opened Wrappers

  /** `i` is the first position whose key is `id`. */
  predicate FirstWith<T>(xs: seq<T>, key: T -> string, id: string, i: int) {
    && 0 <= i < |xs| && key(xs[i]) == id
    && forall j :: 0 <= j < i ==> key(xs[j]) != id
  }

  /** Some record in `xs` has key `id`. */
  predicate HasKey<T>(xs: seq<T>, key: T -> string, id: string) {
    exists i :: 0 <= i < |xs| && key(xs[i]) == id
  }

  /** No two records of `xs` share a key. */
  predicate UniqueKeys<T>(xs: seq<T>, key: T -> string) {
    forall i, j :: 0 <= i < j < |xs| ==> key(xs[i]) != key(xs[j])
  }

  /** `a` is `b` with some elements left out, the rest in their order. */
  predicate IsSubseq<T(==)>(a: seq<T>, b: seq<T>)
    decreases |b|
  {
    if a == [] then true
    else if b == [] then false
    else (a[0] == b[0] && IsSubseq(a[1..], b[1..])) || IsSubseq(a, b[1..])
  }

  /** Every sequence is a selection of itself. */
  lemma {:induction false} SubseqRefl<T>(xs: seq<T>)
    ensures IsSubseq(xs, xs)
    decreases |xs|
  {
    if xs != [] {
      SubseqRefl(xs[1..]);
    }
  }

  /** `xs.findIndex(x => key(x) === id)`: the first position with that key,
      or -1 when there is none. */
  function FindIndex<T>(xs: seq<T>, key: T -> string, id: string): (r: int)
    ensures -1 <= r < |xs|
    ensures r == -1 <==> !HasKey(xs, key, id)
    ensures r >= 0 ==> FirstWith(xs, key, id, r)
    decreases |xs|
  {
    if xs == [] then -1
    else if key(xs[0]) == id then 0
    else
      var k := FindIndex(xs[1..], key, id);
      assert forall i :: 0 < i < |xs| ==> xs[i] == xs[1..][i - 1];
      if k == -1 then -1 else k + 1
  }

  /** `xs.find(x => key(x) === id)`: the first record with that key. */
  function Find<T>(xs: seq<T>, key: T -> string, id: string): (r: Option<T>)
    ensures r.None? <==> !HasKey(xs, key, id)
    ensures r.Some? ==> exists i :: FirstWith(xs, key, id, i) && xs[i] == r.value
  {
    var i := FindIndex(xs, key, id);
    if i >= 0 then Some(xs[i]) else None
  }

  /** Save: when a record with the same key exists, the first such record is
      replaced in place and nothing else moves; otherwise the new record is
      put in front. */
  function Upsert<T>(xs: seq<T>, x: T, key: T -> string): (r: seq<T>)
    ensures HasKey(xs, key, key(x)) ==>
              && |r| == |xs|
              && exists i :: FirstWith(xs, key, key(x), i) && r == xs[i := x] && r[i] == x
                   && forall j :: 0 <= j < |xs| && j != i ==> r[j] == xs[j]
    ensures !HasKey(xs, key, key(x)) ==> r == [x] + xs
  {
    var i := FindIndex(xs, key, key(x));
    if i > -1 then xs[i := x] else [x] + xs
  }

  /** Number of elements of `xs` satisfying `p`. */
  function Count<T>(xs: seq<T>, p: T -> bool): nat
    decreases |xs|
  {
    if xs == [] then 0 else (if p(xs[0]) then 1 else 0) + Count(xs[1..], p)
  }

  /** `xs.filter(p)`: an order-preserving selection of `xs` whose elements
      all satisfy `p`, with exactly as many elements as `xs` has satisfying
      `p` -- which pins it down. */
  function Keep<T(==)>(xs: seq<T>, p: T -> bool): (r: seq<T>)
    ensures forall i :: 0 <= i < |r| ==> p(r[i]) && r[i] in xs
    ensures forall i :: 0 <= i < |xs| && p(xs[i]) ==> xs[i] in r
    ensures |r| == Count(xs, p)
    ensures IsSubseq(r, xs)
    decreases |xs|
  {
    if xs == [] then []
    else
      var rest := Keep(xs[1..], p);
      assert forall i :: 0 < i < |xs| ==> xs[i] == xs[1..][i - 1];
      if p(xs[0]) then
        assert ([xs[0]] + rest)[1..] == rest;
        [xs[0]] + rest
      else
        rest
  }

  /** The test `x => key(x) !== id` that a delete filters with. */
  function Lacks<T>(key: T -> string, id: string): T -> bool {
    y => key(y) != id
  }

  /** `xs.filter(x => key(x) !== id)`. */
  function Remove<T(==)>(xs: seq<T>, key: T -> string, id: string): (r: seq<T>)
    ensures !HasKey(r, key, id)
    ensures forall i :: 0 <= i < |xs| && key(xs[i]) != id ==> xs[i] in r
    ensures IsSubseq(r, xs)
    ensures |r| == Count(xs, Lacks(key, id))
  {
    Keep(xs, Lacks(key, id))
  }

  /** Filtering a sequence whose elements all pass leaves it unchanged. */
  lemma {:induction false} KeepAll<T>(xs: seq<T>, p: T -> bool)
    requires forall i :: 0 <= i < |xs| ==> p(xs[i])
    ensures Keep(xs, p) == xs
    decreases |xs|
  {
    if xs != [] {
      KeepAll(xs[1..], p);
    }
  }

  /** Filtering twice by the same test is filtering once. */
  lemma KeepIdempotent<T>(xs: seq<T>, p: T -> bool)
    ensures Keep(Keep(xs, p), p) == Keep(xs, p)
  {
    KeepAll(Keep(xs, p), p);
  }

  /** Filtering depends only on which elements pass. */
  lemma {:induction false} KeepCongruent<T>(xs: seq<T>, p: T -> bool, q: T -> bool)
    requires forall i :: 0 <= i < |xs| ==> p(xs[i]) == q(xs[i])
    ensures Keep(xs, p) == Keep(xs, q)
    decreases |xs|
  {
    if xs != [] {
      KeepCongruent(xs[1..], p, q);
    }
  }

  /** Deleting the same id twice is deleting it once. */
  lemma RemoveIdempotent<T>(xs: seq<T>, key: T -> string, id: string)
    ensures Remove(Remove(xs, key, id), key, id) == Remove(xs, key, id)
  {
    KeepIdempotent(xs, Lacks(key, id));
  }

  /** Deleting an id no record has changes nothing. */
  lemma RemoveAbsent<T>(xs: seq<T>, key: T -> string, id: string)
    requires !HasKey(xs, key, id)
    ensures Remove(xs, key, id) == xs
  {
    KeepAll(xs, Lacks(key, id));
  }

  /** After a save, looking up the saved key finds the saved record. */
  lemma FindAfterUpsert<T>(xs: seq<T>, x: T, key: T -> string)
    ensures Find(Upsert(xs, x, key), key, key(x)) == Some(x)
  {
    var r := Upsert(xs, x, key);
    if HasKey(xs, key, key(x)) {
      var i :| FirstWith(xs, key, key(x), i) && r[i] == x
                && forall j :: 0 <= j < |xs| && j != i ==> r[j] == xs[j];
      assert FirstWith(r, key, key(x), i);
      FirstWithUnique(r, key, key(x), i, FindIndex(r, key, key(x)));
    } else {
      assert FirstWith(r, key, key(x), 0);
      FirstWithUnique(r, key, key(x), 0, FindIndex(r, key, key(x)));
    }
  }

  /** A save leaves the lookup of every other key as it was. */
  lemma FindOtherAfterUpsert<T>(xs: seq<T>, x: T, key: T -> string, id: string)
    requires id != key(x)
    ensures Find(Upsert(xs, x, key), key, id) == Find(xs, key, id)
  {
    var i := FindIndex(xs, key, key(x));
    if i > -1 {
      FindOtherAfterReplace(xs, x, key, id, i);
    } else {
      FindOtherAfterPrepend(xs, x, key, id);
    }
  }

  /** Overwriting a record whose key is not `id` with another whose key is
      not `id` does not change the lookup of `id`. */
  lemma FindOtherAfterReplace<T>(xs: seq<T>, x: T, key: T -> string, id: string, i: int)
    requires 0 <= i < |xs| && key(xs[i]) != id && key(x) != id
    ensures Find(xs[i := x], key, id) == Find(xs, key, id)
  {
    var r := xs[i := x];
    assert forall j :: 0 <= j < |xs| ==> (key(r[j]) == id <==> key(xs[j]) == id);
    if HasKey(xs, key, id) {
      var k := FindIndex(xs, key, id);
      assert FirstWith(r, key, id, k);
      FirstWithUnique(r, key, id, k, FindIndex(r, key, id));
    } else {
      assert !HasKey(r, key, id);
    }
  }

  /** Putting a record whose key is not `id` in front does not change the
      lookup of `id`. */
  lemma FindOtherAfterPrepend<T>(xs: seq<T>, x: T, key: T -> string, id: string)
    requires key(x) != id
    ensures Find([x] + xs, key, id) == Find(xs, key, id)
  {
    FindCons([x] + xs, key, id);
    assert ([x] + xs)[1..] == xs;
  }

  /** A save leaves the lookup of every other key as it was, for all keys
      at once. */
  lemma FindOthersAfterUpsert<T>(xs: seq<T>, x: T, key: T -> string)
    ensures forall id :: id != key(x) ==> Find(Upsert(xs, x, key), key, id) == Find(xs, key, id)
  {
    forall id | id != key(x)
      ensures Find(Upsert(xs, x, key), key, id) == Find(xs, key, id)
    {
      FindOtherAfterUpsert(xs, x, key, id);
    }
  }

  /** There is only one first position with a given key. */
  lemma FirstWithUnique<T>(xs: seq<T>, key: T -> string, id: string, i: int, k: int)
    requires FirstWith(xs, key, id, i) && FirstWith(xs, key, id, k)
    ensures i == k
  {
  }

  /** After a delete, looking up any other key finds what it found before. */
  lemma {:induction false} FindOtherAfterRemove<T>(xs: seq<T>, key: T -> string, id: string, other: string)
    requires other != id
    ensures Find(Remove(xs, key, id), key, other) == Find(xs, key, other)
    decreases |xs|
  {
    if xs != [] {
      FindOtherAfterRemove(xs[1..], key, id, other);
      FindCons(xs, key, other);
      var rest := Remove(xs[1..], key, id);
      assert Keep(xs, Lacks(key, id)) == if key(xs[0]) != id then [xs[0]] + rest else rest;
      if key(xs[0]) != id {
        FindCons([xs[0]] + rest, key, other);
        assert ([xs[0]] + rest)[1..] == rest;
      }
    }
  }

  /** A delete leaves the lookup of every other key as it was, for all keys
      at once. */
  lemma FindOthersAfterRemove<T>(xs: seq<T>, key: T -> string, id: string)
    ensures forall other :: other != id ==> Find(Remove(xs, key, id), key, other) == Find(xs, key, other)
  {
    forall other | other != id
      ensures Find(Remove(xs, key, id), key, other) == Find(xs, key, other)
    {
      FindOtherAfterRemove(xs, key, id, other);
    }
  }

  /** Looking up a key in a non-empty sequence: the head, or a lookup in
      the tail. */
  lemma FindCons<T>(xs: seq<T>, key: T -> string, id: string)
    requires xs != []
    ensures Find(xs, key, id) == if key(xs[0]) == id then Some(xs[0]) else Find(xs[1..], key, id)
  {
    if key(xs[0]) != id {
      assert forall i :: 0 < i < |xs| ==> xs[i] == xs[1..][i - 1];
      if HasKey(xs[1..], key, id) {
        var k := FindIndex(xs[1..], key, id);
        assert FirstWith(xs, key, id, k + 1);
        FirstWithUnique(xs, key, id, k + 1, FindIndex(xs, key, id));
      }
    }
  }

  /** Saving a record keeps keys unique. */
  lemma UpsertKeepsUnique<T>(xs: seq<T>, x: T, key: T -> string)
    requires UniqueKeys(xs, key)
    ensures UniqueKeys(Upsert(xs, x, key), key)
  {
    var r := Upsert(xs, x, key);
    if !HasKey(xs, key, key(x)) {
      assert forall j :: 0 < j < |r| ==> r[j] == xs[j - 1];
    }
  }

  /** Filtering keeps keys unique. */
  lemma {:induction false} KeepKeepsUnique<T>(xs: seq<T>, p: T -> bool, key: T -> string)
    requires UniqueKeys(xs, key)
    ensures UniqueKeys(Keep(xs, p), key)
    decreases |xs|
  {
    if xs != [] {
      var tail := xs[1..];
      assert UniqueKeys(tail, key) by {
        assert forall i :: 0 <= i < |tail| ==> tail[i] == xs[i + 1];
      }
      KeepKeepsUnique(tail, p, key);
      var rest := Keep(tail, p);
      if p(xs[0]) {
        var r := [xs[0]] + rest;
        forall i, j | 0 <= i < j < |r|
          ensures key(r[i]) != key(r[j])
        {
          if i == 0 {
            assert r[j] == rest[j - 1] && rest[j - 1] in tail;
            var m :| 0 <= m < |tail| && tail[m] == r[j];
            assert xs[m + 1] == r[j];
          } else {
            assert r[i] == rest[i - 1] && r[j] == rest[j - 1];
          }
        }
      }
    }
  }

  /** Deleting keeps keys unique. */
  lemma RemoveKeepsUnique<T>(xs: seq<T>, key: T -> string, id: string)
    requires UniqueKeys(xs, key)
    ensures UniqueKeys(Remove(xs, key, id), key)
  {
    KeepKeepsUnique(xs, Lacks(key, id), key);
  }
}
