/** The parsed response as the plugin queries it: the elements of the XML
    document in document order, and the find / find_all / tag["..."] lookups
    it makes on them. */
module Soup {
  import opened Wrappers

  /** One element: its tag name, its attributes and its text children. */
  datatype Element = Element(name: string, attrs: map<string, string>, contents: seq<string>)

  /** A parsed response: every element of the document, in document order. */
  type Document = seq<Element>

  /** A find query: a tag name and the attribute values an element must carry. */
  datatype Query = Query(name: string, attrs: map<string, string>)

  predicate Matches(e: Element, q: Query)
  {
    e.name == q.name && forall k :: k in q.attrs ==> k in e.attrs && e.attrs[k] == q.attrs[k]
  }

  predicate NoMatch(doc: Document, q: Query)
  {
    forall i :: 0 <= i < |doc| ==> !Matches(doc[i], q)
  }

  /** doc[i] is the first element of doc that q matches. */
  predicate IsFirstMatch(doc: Document, q: Query, i: int)
  {
    0 <= i < |doc| && Matches(doc[i], q) && forall j :: 0 <= j < i ==> !Matches(doc[j], q)
  }

  function FindIndex(doc: Document, q: Query): (r: Option<nat>)
    ensures r.None? <==> NoMatch(doc, q)
    ensures r.Some? ==> IsFirstMatch(doc, q, r.value)
  {
    if doc == [] then None
    else if Matches(doc[0], q) then Some(0)
    else match FindIndex(doc[1..], q)
      case None => None
      case Some(i) => Some(i + 1)
  }

  /** soup.find(name, attrs=...): the first matching element, if any. */
  function Find(doc: Document, q: Query): (r: Option<Element>)
    ensures r.None? <==> NoMatch(doc, q)
    ensures forall i :: IsFirstMatch(doc, q, i) ==> r == Some(doc[i])
  {
    match FindIndex(doc, q)
    case None => None
    case Some(i) => Some(doc[i])
  }

  /** soup.find_all(name, attrs=...): the matching elements in document order. */
  function FindAll(doc: Document, q: Query): (r: seq<Element>)
    ensures forall i :: 0 <= i < |r| ==> Matches(r[i], q)
  {
    if doc == [] then []
    else
      var rest := FindAll(doc[1..], q);
      if Matches(doc[0], q) then [doc[0]] + rest else rest
  }

  /** find_all keeps every matching element as often as the document holds
      it, and nothing else. */
  lemma {:induction false} FindAllKeepsMatches(doc: Document, q: Query)
    ensures forall e :: multiset(FindAll(doc, q))[e] == if Matches(e, q) then multiset(doc)[e] else 0
  {
    if doc != [] {
      FindAllKeepsMatches(doc[1..], q);
      assert doc == [doc[0]] + doc[1..];
    }
  }

  /** find_all keeps document order: the matches in a + b are those in a
      followed by those in b. */
  lemma {:induction false} FindAllAppend(a: Document, b: Document, q: Query)
    ensures FindAll(a + b, q) == FindAll(a, q) + FindAll(b, q)
  {
    if a == [] {
      assert a + b == b;
    } else {
      assert (a + b)[1..] == a[1..] + b;
      FindAllAppend(a[1..], b, q);
      if Matches(a[0], q) {
        assert [a[0]] + (FindAll(a[1..], q) + FindAll(b, q)) == [a[0]] + FindAll(a[1..], q) + FindAll(b, q);
      }
    }
  }

  /** find is the head of find_all. */
  lemma {:induction false} FindIsFirstOfFindAll(doc: Document, q: Query)
    ensures Find(doc, q) == if FindAll(doc, q) == [] then None else Some(FindAll(doc, q)[0])
  {
    if doc != [] && !Matches(doc[0], q) {
      FindIsFirstOfFindAll(doc[1..], q);
      assert NoMatch(doc, q) <==> NoMatch(doc[1..], q);
      if !NoMatch(doc, q) {
        var i := FindIndex(doc[1..], q).value;
        assert IsFirstMatch(doc, q, i + 1);
      }
    }
  }

  /** tag[key]: the attribute's value, or the KeyError Python raises. */
  function Attr(e: Element, key: string): (r: Result<string>)
    ensures r.Ok? <==> key in e.attrs
    ensures r.Ok? ==> r.value == e.attrs[key]
    ensures r.Err? ==> r.error == MissingAttribute(e.name, key)
  {
    if key in e.attrs then Ok(e.attrs[key]) else Err(MissingAttribute(e.name, key))
  }

  /** [x[key] for x in es]: the values in order, or the KeyError raised at the
      first element without the attribute. */
  function Values(es: seq<Element>, key: string): (r: Result<seq<string>>)
    ensures r.Ok? <==> forall i :: 0 <= i < |es| ==> key in es[i].attrs
    ensures r.Ok? ==> |r.value| == |es| && forall i :: 0 <= i < |es| ==> r.value[i] == es[i].attrs[key]
    ensures r.Err? ==> exists i :: 0 <= i < |es| && key !in es[i].attrs && r.error == MissingAttribute(es[i].name, key)
  {
    if es == [] then Ok([])
    else if key !in es[0].attrs then Err(MissingAttribute(es[0].name, key))
    else match Values(es[1..], key)
      case Err(e) => Err(e)
      case Ok(tail) => Ok([es[0].attrs[key]] + tail)
  }
}
