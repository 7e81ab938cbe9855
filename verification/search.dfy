/** The search box: a case-insensitive substring filter over name, email,
    phone and address, applied to whichever collection is shown. */
module Search {
  import opened Wrappers
  import opened Text
  import opened Entities
  import opened Collection

  /** `field.toLowerCase().includes(term.toLowerCase())`. */
  predicate FieldMatches(field: string, term: string) {
    Contains(Lower(field), Lower(term))
  }

  /** An optional field takes part only when it is set and non-empty
      (`field && field.toLowerCase().includes(…)`). */
  predicate OptionalMatches(field: Option<string>, term: string) {
    field.Some? && field.value != "" && FieldMatches(field.value, term)
  }

  /** The record passes the search: the lower-cased term occurs in the
      lower-cased name, email, phone or address. */
  predicate Matches(v: SearchView, term: string)
    ensures term == "" ==> Matches(v, term)
  {
    || FieldMatches(v.name, term)
    || FieldMatches(v.email, term)
    || OptionalMatches(v.phone, term)
    || OptionalMatches(v.address, term)
  }

  /** The search test on records seen through `view`. */
  function Hits<T>(view: T -> SearchView, term: string): T -> bool {
    x => Matches(view(x), term)
  }

  /** `filteredCustomers` / `filteredVendors`: the whole collection for an
      empty term, otherwise the matching records in their original order --
      every matching record and nothing else. */
  function Filter<T(==)>(xs: seq<T>, term: string, view: T -> SearchView): (r: seq<T>)
    ensures term == "" ==> r == xs
    ensures IsSubseq(r, xs)
    ensures term != "" ==> forall i :: 0 <= i < |r| ==> Matches(view(r[i]), term)
    ensures term != "" ==> forall i :: 0 <= i < |xs| && Matches(view(xs[i]), term) ==> xs[i] in r
    ensures term != "" ==> |r| == Count(xs, Hits(view, term))
  {
    if term == "" then SubseqRefl(xs); xs else Keep(xs, Hits(view, term))
  }

  /** The filter has no effect on a second application. */
  lemma FilterIdempotent<T>(xs: seq<T>, term: string, view: T -> SearchView)
    ensures Filter(Filter(xs, term, view), term, view) == Filter(xs, term, view)
  {
    if term != "" {
      KeepIdempotent(xs, Hits(view, term));
    }
  }

  /** Matching ignores the case of ASCII letters in the term. */
  lemma MatchesIgnoresCase(v: SearchView, term: string)
    ensures Matches(v, Lower(term)) == Matches(v, term)
  {
    LowerIdempotent(term);
  }

  /** Searching with a term and with its lower-cased form give the same
      records. */
  lemma FilterIgnoresCase<T>(xs: seq<T>, term: string, view: T -> SearchView)
    ensures Filter(xs, Lower(term), view) == Filter(xs, term, view)
  {
    if term != "" {
      assert Lower(term) != "" by { assert |Lower(term)| == |term|; }
      forall x {:trigger view(x)} ensures Matches(view(x), Lower(term)) == Matches(view(x), term) {
        MatchesIgnoresCase(view(x), term);
      }
      KeepCongruent(xs, Hits(view, Lower(term)), Hits(view, term));
    }
  }

  /** A record whose name contains the term is always found. */
  lemma NameHitIsFound<T>(xs: seq<T>, term: string, view: T -> SearchView, i: int)
    requires 0 <= i < |xs| && Contains(Lower(view(xs[i]).name), Lower(term))
    ensures xs[i] in Filter(xs, term, view)
  {
  }
}
