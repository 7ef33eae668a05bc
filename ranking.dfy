/** The sort key identify_results_keygen gives the host: records are ordered
    by the relevance rank the search assigned them and by nothing else. */
module Ranking {
  import opened Records

  /** _KeyGen: all a key keeps of its record is the relevance. */
  datatype Key = Key(relevance: int)

  function KeyGen(m: Metadata): Key
  {
    Key(m.sourceRelevance)
  }

  // The six comparison operators _KeyGen defines.
  predicate Eq(a: Key, b: Key) { a.relevance == b.relevance }
  predicate Ne(a: Key, b: Key) { a.relevance != b.relevance }
  predicate Lt(a: Key, b: Key) { a.relevance < b.relevance }
  predicate Le(a: Key, b: Key) { a.relevance <= b.relevance }
  predicate Gt(a: Key, b: Key) { a.relevance > b.relevance }
  predicate Ge(a: Key, b: Key) { a.relevance >= b.relevance }

  /** Two records' keys compare as their relevances do, whatever else the
      records hold; lower relevance sorts first. */
  lemma KeysCompareByRelevance(x: Metadata, y: Metadata)
    ensures Eq(KeyGen(x), KeyGen(y)) <==> x.sourceRelevance == y.sourceRelevance
    ensures Ne(KeyGen(x), KeyGen(y)) <==> x.sourceRelevance != y.sourceRelevance
    ensures Lt(KeyGen(x), KeyGen(y)) <==> x.sourceRelevance < y.sourceRelevance
    ensures Le(KeyGen(x), KeyGen(y)) <==> x.sourceRelevance <= y.sourceRelevance
    ensures Gt(KeyGen(x), KeyGen(y)) <==> x.sourceRelevance > y.sourceRelevance
    ensures Ge(KeyGen(x), KeyGen(y)) <==> x.sourceRelevance >= y.sourceRelevance
  {
  }

  /** Le is a total preorder whose ties are exactly Eq, and the six
      operators agree with one another the way total_ordering expects. */
  lemma KeyOrderIsTotalPreorder(a: Key, b: Key, c: Key)
    ensures Le(a, a)
    ensures Le(a, b) && Le(b, c) ==> Le(a, c)
    ensures Le(a, b) || Le(b, a)
    ensures Eq(a, b) <==> Le(a, b) && Le(b, a)
    ensures Ne(a, b) <==> !Eq(a, b)
    ensures Lt(a, b) <==> Le(a, b) && !Eq(a, b)
    ensures Gt(a, b) <==> Lt(b, a)
    ensures Ge(a, b) <==> Le(b, a)
  {
  }

  /** A sequence of records in strictly increasing key order. */
  predicate StrictlyIncreasing(records: seq<Metadata>)
  {
    forall a, b :: 0 <= a < b < |records| ==> Lt(KeyGen(records[a]), KeyGen(records[b]))
  }
}
