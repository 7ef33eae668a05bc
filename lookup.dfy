/** The lookups: the detail lookup of one item id, the title search that
    fans out into detail lookups, and identify, which picks one of the two.
    Each method is proved against a function that says which records it
    queues, which URLs it opens and how it ends. */
module Lookup {
  import opened Wrappers
  import opened Text
  import opened Soup
  import opened Records
  import opened Extractors
  import opened Identifiers
  import opened Ranking

  const ThingApiUrl := "https://boardgamegeek.com/xmlapi2/thing?id="
  const SearchApiUrl := "https://boardgamegeek.com/xmlapi/search?search="

  /** The plugin's name, recorded as the source of each record. */
  const SourceName := "BoardgameGeek"

  const ExpansionItem := Query("item", map["type" := "boardgameexpansion"])
  const PrimaryName := Query("name", map["type" := "primary"])
  const DesignerLink := Query("link", map["type" := "rpgdesigner"])
  const RpgItem := Query("item", map["type" := "rpgitem"])

  /** The host's browser: answers a URL with the parsed response (or the
      error the fetch raised) and remembers every URL it was asked to open. */
  class Browser {
    const respond: string -> Result<Document>
    var requested: seq<string>

    constructor (respond: string -> Result<Document>)
      ensures this.respond == respond && requested == []
    {
      this.respond := respond;
      requested := [];
    }

    method OpenNoVisit(url: string) returns (r: Result<Document>)
      modifies this
      ensures requested == old(requested) + [url]
      ensures r == respond(url)
    {
      requested := requested + [url];
      r := respond(url);
    }
  }

  /** The host's result queue; the plugin only ever puts records on it. */
  class ResultQueue {
    var items: seq<Metadata>

    constructor ()
      ensures items == []
    {
      items := [];
    }

    method Put(m: Metadata)
      modifies this
      ensures items == old(items) + [m]
    {
      items := items + [m];
    }
  }

  /** The effect of a lookup: the records it queues in order, the URLs it
      opens in order, and whether it ended normally or by an exception. */
  datatype Progress = Progress(records: seq<Metadata>, requests: seq<string>, outcome: Outcome)

  // ---- one detail lookup ----

  /** The record a detail response yields: none when the document has no
      boardgameexpansion item; otherwise the record built from the extracted
      fields, or the first exception raised while extracting them. */
  function ThingRecord(doc: Document, id: string, relevance: int): (r: Result<Option<Metadata>>)
    ensures r == Ok(None) <==> NoMatch(doc, ExpansionItem)
    ensures r.Ok? && r.value.Some? ==>
      var m := r.value.value;
      var designers := FindAll(doc, DesignerLink);
      && m.identifiers == map[IdType := id]
      && m.sourceRelevance == relevance
      && m.source == SourceName
      && (forall i :: IsFirstMatch(doc, PrimaryName, i) ==> "value" in doc[i].attrs && m.title == doc[i].attrs["value"])
      && |m.authors| == |designers|
      && (forall k :: 0 <= k < |designers| ==> "value" in designers[k].attrs && m.authors[k] == designers[k].attrs["value"])
      && PubDate(doc) == Ok(m.pubdate)
      && Publisher(doc) == Ok(m.publisher)
      && Series(doc) == Ok((m.series, m.seriesIndex))
      && m.comments == Comments(doc)
    ensures NoMatch(doc, PrimaryName) && !NoMatch(doc, ExpansionItem) ==> r == Err(NoPrimaryName)
    // With both an expansion item and a primary name, a record is built
    // exactly when every field extracts; otherwise the first extraction to
    // raise, in the order the fields are read, decides the error.
    ensures !NoMatch(doc, ExpansionItem) && !NoMatch(doc, PrimaryName) ==>
      (r.Ok? && r.value.Some? <==>
        && "value" in Find(doc, PrimaryName).value.attrs
        && Values(FindAll(doc, DesignerLink), "value").Ok?
        && PubDate(doc).Ok? && Publisher(doc).Ok? && Series(doc).Ok?)
    ensures !NoMatch(doc, ExpansionItem) && !NoMatch(doc, PrimaryName) && r.Err? ==>
      r.error ==
        if "value" !in Find(doc, PrimaryName).value.attrs then MissingAttribute("name", "value")
        else if Values(FindAll(doc, DesignerLink), "value").Err? then Values(FindAll(doc, DesignerLink), "value").error
        else if PubDate(doc).Err? then PubDate(doc).error
        else if Publisher(doc).Err? then Publisher(doc).error
        else Series(doc).error
  {
    if Find(doc, ExpansionItem).None? then Ok(None)
    else
      match Find(doc, PrimaryName)
      case None => Err(NoPrimaryName)
      case Some(nameTag) =>
        var title :- Attr(nameTag, "value");
        var authors :- Values(FindAll(doc, DesignerLink), "value");
        var pubDate :- PubDate(doc);
        var publisher :- Publisher(doc);
        var series :- Series(doc);
        var comments := Comments(doc);
        Ok(Some(Metadata(title, authors, map[IdType := id], pubDate, publisher,
                         series.0, series.1, comments, SourceName, relevance)))
  }

  /** _get_metadata_from_thing_api: one request for the id; at most one
      record, carrying the id and the relevance; nothing queued on failure. */
  function ThingSpec(respond: string -> Result<Document>, id: string, relevance: int): (p: Progress)
    ensures p.requests == [ThingApiUrl + id]
    ensures |p.records| <= 1
    ensures p.outcome.Fail? ==> p.records == []
    ensures forall m :: m in p.records ==>
      m.sourceRelevance == relevance && m.identifiers == map[IdType := id] && m.source == SourceName
    ensures respond(ThingApiUrl + id).Err? ==> p.outcome == Fail(respond(ThingApiUrl + id).error)
    ensures respond(ThingApiUrl + id).Ok? ==>
      (p.outcome == Pass && p.records == [] <==> NoMatch(respond(ThingApiUrl + id).value, ExpansionItem))
    ensures respond(ThingApiUrl + id).Ok? && p.records != [] ==>
      ThingRecord(respond(ThingApiUrl + id).value, id, relevance) == Ok(Some(p.records[0]))
    ensures respond(ThingApiUrl + id).Ok? ==>
      match ThingRecord(respond(ThingApiUrl + id).value, id, relevance)
      case Ok(record) => p.outcome == Pass && p.records == (if record.Some? then [record.value] else [])
      case Err(e) => p.outcome == Fail(e) && p.records == []
  {
    var url := ThingApiUrl + id;
    match respond(url)
    case Err(e) => Progress([], [url], Fail(e))
    case Ok(doc) =>
      match ThingRecord(doc, id, relevance)
      case Err(e) => Progress([], [url], Fail(e))
      case Ok(None) => Progress([], [url], Pass)
      case Ok(Some(m)) => Progress([m], [url], Pass)
  }

  /** What the fan-out relies on about a detail lookup, stated for any
      lookup of an id at a relevance: it opens the id's detail URL, queues at
      most one record, carrying that id and relevance, and none on failure. */
  ghost predicate IsDetailLookup(lookup: (string, int) -> Progress)
  {
    forall id, relevance ::
      && lookup(id, relevance).requests == [ThingApiUrl + id]
      && |lookup(id, relevance).records| <= 1
      && (lookup(id, relevance).outcome.Fail? ==> lookup(id, relevance).records == [])
      && (forall m :: m in lookup(id, relevance).records ==>
            m.sourceRelevance == relevance && m.identifiers == map[IdType := id])
  }

  /** self._get_metadata_from_thing_api, as a value the fan-out calls. */
  function DetailLookup(respond: string -> Result<Document>): (string, int) -> Progress
  {
    (id: string, relevance: int) => ThingSpec(respond, id, relevance)
  }

  lemma ThingSpecIsDetailLookup(respond: string -> Result<Document>)
    ensures IsDetailLookup(DetailLookup(respond))
  {
    forall id: string, relevance: int
      ensures DetailLookup(respond)(id, relevance) == ThingSpec(respond, id, relevance)
    {
    }
  }

  // ---- the fan-out over search results ----

  /** The loop of _search_title after n of the items: the i-th item is looked
      up with relevance i, in order, and the first exception ends the loop
      (an item without an id raises before any request). */
  function FanOut(lookup: (string, int) -> Progress, items: seq<Element>, n: nat): Progress
    requires n <= |items|
  {
    if n == 0 then Progress([], [], Pass)
    else
      var p := FanOut(lookup, items, n - 1);
      if p.outcome.Fail? then p
      else
        var item := items[n - 1];
        if "id" !in item.attrs then Progress(p.records, p.requests, Fail(MissingAttribute(item.name, "id")))
        else
          var q := lookup(item.attrs["id"], n - 1);
          Progress(p.records + q.records, p.requests + q.requests, q.outcome)
  }

  /** One more item with an id: its lookup's records and requests follow. */
  lemma FanOutNext(lookup: (string, int) -> Progress, items: seq<Element>, n: nat)
    requires n < |items| && "id" in items[n].attrs
    requires FanOut(lookup, items, n).outcome == Pass
    ensures var p, q := FanOut(lookup, items, n), lookup(items[n].attrs["id"], n);
      FanOut(lookup, items, n + 1) == Progress(p.records + q.records, p.requests + q.requests, q.outcome)
  {
  }

  /** Every record in records has a relevance in [0, n). */
  predicate RelevancesBelow(records: seq<Metadata>, n: int)
  {
    forall k :: 0 <= k < |records| ==> 0 <= records[k].sourceRelevance < n
  }

  /** Every queued record has the relevance of the item it came from, so the
      relevances lie in [0, n) and the queue is in strictly increasing key
      order, the order the host sorts the results into. */
  lemma {:induction false} FanOutSortedByKey(lookup: (string, int) -> Progress, items: seq<Element>, n: nat)
    requires IsDetailLookup(lookup)
    requires n <= |items|
    ensures RelevancesBelow(FanOut(lookup, items, n).records, n)
    ensures StrictlyIncreasing(FanOut(lookup, items, n).records)
  {
    if n > 0 {
      FanOutSortedByKey(lookup, items, n - 1);
      var p := FanOut(lookup, items, n - 1);
      if p.outcome.Pass? && "id" in items[n - 1].attrs {
        var q := lookup(items[n - 1].attrs["id"], n - 1);
        var rs := p.records + q.records;
        assert FanOut(lookup, items, n).records == rs;
        forall k | 0 <= k < |rs| ensures 0 <= rs[k].sourceRelevance < n
          && (k >= |p.records| ==> rs[k].sourceRelevance == n - 1)
        {
          if k >= |p.records| {
            assert rs[k] == q.records[k - |p.records|];
            assert rs[k] in q.records;
          }
        }
      }
    }
  }

  /** Each queued record is the one the lookup of the item at its relevance
      produced. */
  lemma {:induction false} FanOutRecordOrigin(lookup: (string, int) -> Progress, items: seq<Element>, n: nat, k: nat)
    requires IsDetailLookup(lookup)
    requires n <= |items|
    requires k < |FanOut(lookup, items, n).records|
    ensures 0 <= FanOut(lookup, items, n).records[k].sourceRelevance < n
    ensures "id" in items[FanOut(lookup, items, n).records[k].sourceRelevance].attrs
    ensures lookup(items[FanOut(lookup, items, n).records[k].sourceRelevance].attrs["id"],
                   FanOut(lookup, items, n).records[k].sourceRelevance).records
            == [FanOut(lookup, items, n).records[k]]
  {
    var p := FanOut(lookup, items, n - 1);
    if k < |p.records| {
      FanOutRecordOrigin(lookup, items, n - 1, k);
    } else {
      var q := lookup(items[n - 1].attrs["id"], n - 1);
      assert FanOut(lookup, items, n).records == p.records + q.records;
      assert FanOut(lookup, items, n).records[k] == q.records[k - |p.records|];
      assert q.records[k - |p.records|] in q.records;
    }
  }

  /** No exception is caught: once a lookup fails, later items are never
      looked up and nothing more is queued. */
  lemma {:induction false} FanOutStopsAtFailure(lookup: (string, int) -> Progress, items: seq<Element>, n: nat, m: nat)
    requires n <= m <= |items|
    requires FanOut(lookup, items, n).outcome.Fail?
    ensures FanOut(lookup, items, m) == FanOut(lookup, items, n)
  {
    if m > n {
      FanOutStopsAtFailure(lookup, items, n, m - 1);
    }
  }

  /** When the loop ends normally, every item had an id and was looked up
      once, in order, and every record a lookup produced was queued. */
  lemma {:induction false} FanOutComplete(lookup: (string, int) -> Progress, items: seq<Element>, n: nat)
    requires IsDetailLookup(lookup)
    requires n <= |items|
    requires FanOut(lookup, items, n).outcome == Pass
    ensures |FanOut(lookup, items, n).requests| == n
    ensures forall k :: 0 <= k < n ==>
      "id" in items[k].attrs &&
      FanOut(lookup, items, n).requests[k] == ThingApiUrl + items[k].attrs["id"] &&
      forall m :: m in lookup(items[k].attrs["id"], k).records ==> m in FanOut(lookup, items, n).records
  {
    if n > 0 {
      var p := FanOut(lookup, items, n - 1);
      if p.outcome.Fail? {
        assert false;
      }
      FanOutComplete(lookup, items, n - 1);
    }
  }

  /** When every lookup finds its record, the k-th queued record is the k-th
      item's, with relevance k. */
  lemma {:induction false} FanOutAllFound(lookup: (string, int) -> Progress, items: seq<Element>, n: nat)
    requires IsDetailLookup(lookup)
    requires n <= |items|
    requires forall k :: 0 <= k < n ==> "id" in items[k].attrs
    requires forall k :: 0 <= k < n ==> |lookup(items[k].attrs["id"], k).records| == 1
    ensures FanOut(lookup, items, n).outcome == Pass
    ensures |FanOut(lookup, items, n).records| == n
    ensures forall k :: 0 <= k < n ==>
      FanOut(lookup, items, n).records[k].sourceRelevance == k &&
      FanOut(lookup, items, n).records[k].identifiers == map[IdType := items[k].attrs["id"]]
  {
    if n > 0 {
      FanOutAllFound(lookup, items, n - 1);
      var q := lookup(items[n - 1].attrs["id"], n - 1);
      assert q.records[0] in q.records;
    }
  }

  // ---- search and identify ----

  /** The search URL: the API prefix and the title tokens joined by "+". */
  function SearchUrl(tokens: seq<string>): string
  {
    SearchApiUrl + Join(tokens, "+")
  }

  /** The query part of the search URL gives back the title tokens when
      none of them holds a "+". */
  lemma SearchQueryKeepsTokens(tokens: seq<string>)
    requires |tokens| >= 1
    requires forall k :: 0 <= k < |tokens| ==> '+' !in tokens[k]
    ensures var url := SearchUrl(tokens);
      |url| >= |SearchApiUrl| && url[..|SearchApiUrl|] == SearchApiUrl &&
      Split(url[|SearchApiUrl|..], '+') == tokens
  {
    SplitJoin(tokens, '+');
    var url := SearchUrl(tokens);
    assert url[|SearchApiUrl|..] == Join(tokens, "+");
  }

  /** _search_title: one search request, then the fan-out over the rpgitem
      results in the order the search returned them. */
  function SearchSpec(respond: string -> Result<Document>, tokens: seq<string>): (p: Progress)
    ensures |p.requests| >= 1 && p.requests[0] == SearchUrl(tokens)
  {
    var url := SearchUrl(tokens);
    match respond(url)
    case Err(e) => Progress([], [url], Fail(e))
    case Ok(doc) =>
      var items := FindAll(doc, RpgItem);
      var p := FanOut(DetailLookup(respond), items, |items|);
      Progress(p.records, [url] + p.requests, p.outcome)
  }

  /** The records a search queues come in strictly increasing relevance. */
  lemma SearchSortedByKey(respond: string -> Result<Document>, tokens: seq<string>)
    ensures StrictlyIncreasing(SearchSpec(respond, tokens).records)
  {
    match respond(SearchUrl(tokens))
    case Err(_) =>
    case Ok(doc) =>
      var items := FindAll(doc, RpgItem);
      ThingSpecIsDetailLookup(respond);
      FanOutSortedByKey(DetailLookup(respond), items, |items|);
  }

  /** identify: a non-empty id in the plugin's namespace means one detail
      lookup at relevance 0; otherwise the title search. */
  function IdentifySpec(respond: string -> Result<Document>, tokens: seq<string>, identifiers: map<string, string>): Progress
  {
    if IdType in identifiers && identifiers[IdType] != "" then
      ThingSpec(respond, identifiers[IdType], 0)
    else
      SearchSpec(respond, tokens)
  }

  /** With an id, identify opens exactly the detail URL of that id, so no
      search is made, and queues at most one record, with relevance 0. */
  lemma IdentifyById(respond: string -> Result<Document>, tokens: seq<string>, identifiers: map<string, string>)
    requires IdType in identifiers && identifiers[IdType] != ""
    ensures var p := IdentifySpec(respond, tokens, identifiers);
      p.requests == [ThingApiUrl + identifiers[IdType]] &&
      |p.records| <= 1 &&
      forall m :: m in p.records ==> m.sourceRelevance == 0
  {
  }

  /** Without an id, identify first opens the search URL built from the title
      tokens, and the records it queues are in strictly increasing relevance. */
  lemma IdentifyByTitle(respond: string -> Result<Document>, tokens: seq<string>, identifiers: map<string, string>)
    requires IdType !in identifiers || identifiers[IdType] == ""
    ensures var p := IdentifySpec(respond, tokens, identifiers);
      p.requests[0] == SearchUrl(tokens) && StrictlyIncreasing(p.records)
  {
    SearchSortedByKey(respond, tokens);
  }

  // ---- the plugin ----

  /** The plugin object, with the collaborators the host gives it: its
      browser and its title tokenizer (get_title_tokens). */
  class BGGeekSource {
    const browser: Browser
    const titleTokens: Option<string> -> seq<string>

    constructor (browser: Browser, titleTokens: Option<string> -> seq<string>)
      ensures this.browser == browser && this.titleTokens == titleTokens
    {
      this.browser := browser;
      this.titleTokens := titleTokens;
    }

    /** _get_metadata_from_thing_api: fetches the item, builds its record field
        by field and puts it on the queue. */
    method GetMetadataFromThingApi(id: string, queue: ResultQueue, relevance: int) returns (outcome: Outcome)
      modifies browser, queue
      ensures var p := ThingSpec(browser.respond, id, relevance);
        && queue.items == old(queue.items) + p.records
        && browser.requested == old(browser.requested) + p.requests
        && outcome == p.outcome
    {
      var response := browser.OpenNoVisit(ThingApiUrl + id);
      if response.Err? {
        return Fail(response.error);
      }
      var soup := response.value;
      if Find(soup, ExpansionItem).None? {
        return Pass;
      }
      var nameTag := Find(soup, PrimaryName);
      if nameTag.None? {
        return Fail(NoPrimaryName);
      }
      var title := Attr(nameTag.value, "value");
      if title.Err? {
        return Fail(title.error);
      }
      var authors := Values(FindAll(soup, DesignerLink), "value");
      if authors.Err? {
        return Fail(authors.error);
      }
      var pubDate := PubDate(soup);
      if pubDate.Err? {
        return Fail(pubDate.error);
      }
      var publisher := Publisher(soup);
      if publisher.Err? {
        return Fail(publisher.error);
      }
      var series := Series(soup);
      if series.Err? {
        return Fail(series.error);
      }
      var comments := Comments(soup);

      var metadata := NewMetadata(title.value, authors.value);
      metadata := metadata.(identifiers := metadata.identifiers[IdType := id]);
      metadata := metadata.(pubdate := pubDate.value);
      metadata := metadata.(publisher := publisher.value);
      metadata := metadata.(series := series.value.0);
      metadata := metadata.(comments := comments);
      metadata := metadata.(seriesIndex := series.value.1);
      metadata := metadata.(source := SourceName);
      metadata := metadata.(sourceRelevance := relevance);
      queue.Put(metadata);
      outcome := Pass;
    }

    /** _search_title: one search, then one detail lookup per rpgitem result
        with its position as relevance; the first exception ends the loop. */
    method SearchTitle(title: Option<string>, queue: ResultQueue) returns (outcome: Outcome)
      modifies browser, queue
      ensures var p := SearchSpec(browser.respond, titleTokens(title));
        && queue.items == old(queue.items) + p.records
        && browser.requested == old(browser.requested) + p.requests
        && outcome == p.outcome
    {
      var query := SearchUrl(titleTokens(title));
      var response := browser.OpenNoVisit(query);
      if response.Err? {
        return Fail(response.error);
      }
      var items := FindAll(response.value, RpgItem);
      ghost var lookup := DetailLookup(browser.respond);
      forall id: string, relevance: int
        ensures lookup(id, relevance) == ThingSpec(browser.respond, id, relevance)
      {
      }
      outcome := LookUpItems(lookup, items, queue);
      AppendAssoc(old(browser.requested), [query], FanOut(lookup, items, |items|).requests);
    }

    /** The loop of _search_title over the search results, where lookup is
        what a detail lookup does. */
    method LookUpItems(ghost lookup: (string, int) -> Progress, items: seq<Element>, queue: ResultQueue) returns (outcome: Outcome)
      requires forall id, relevance {:trigger ThingSpec(browser.respond, id, relevance)} ::
        lookup(id, relevance) == ThingSpec(browser.respond, id, relevance)
      modifies browser, queue
      ensures queue.items == old(queue.items) + FanOut(lookup, items, |items|).records
      ensures browser.requested == old(browser.requested) + FanOut(lookup, items, |items|).requests
      ensures outcome == FanOut(lookup, items, |items|).outcome
    {
      var i := 0;
      while i < |items|
        invariant 0 <= i <= |items|
        invariant FanOut(lookup, items, i).outcome == Pass
        invariant queue.items == old(queue.items) + FanOut(lookup, items, i).records
        invariant browser.requested == old(browser.requested) + FanOut(lookup, items, i).requests
      {
        outcome := LookUpItem(lookup, items, i, queue, old(queue.items), old(browser.requested));
        if outcome.Fail? {
          FanOutStopsAtFailure(lookup, items, i + 1, |items|);
          return;
        }
        i := i + 1;
      }
      outcome := Pass;
    }

    /** One pass of that loop: items[i] is looked up with relevance i, or
        raises when it has no id. */
    method LookUpItem(ghost lookup: (string, int) -> Progress, items: seq<Element>, i: nat, queue: ResultQueue,
                      ghost queued: seq<Metadata>, ghost requested: seq<string>) returns (outcome: Outcome)
      requires forall id, relevance {:trigger ThingSpec(browser.respond, id, relevance)} ::
        lookup(id, relevance) == ThingSpec(browser.respond, id, relevance)
      requires i < |items|
      requires FanOut(lookup, items, i).outcome == Pass
      requires queue.items == queued + FanOut(lookup, items, i).records
      requires browser.requested == requested + FanOut(lookup, items, i).requests
      modifies browser, queue
      ensures queue.items == queued + FanOut(lookup, items, i + 1).records
      ensures browser.requested == requested + FanOut(lookup, items, i + 1).requests
      ensures outcome == FanOut(lookup, items, i + 1).outcome
    {
      var item := items[i];
      if "id" !in item.attrs {
        return Fail(MissingAttribute(item.name, "id"));
      }
      FanOutNext(lookup, items, i);
      ghost var p, q := FanOut(lookup, items, i), lookup(item.attrs["id"], i);
      AppendAssoc(queued, p.records, q.records);
      AppendAssoc(requested, p.requests, q.requests);
      outcome := GetMetadataFromThingApi(item.attrs["id"], queue, i);
    }

    /** identify: a non-empty id in the plugin's namespace is looked up
        directly with relevance 0; otherwise the title is searched. */
    method Identify(queue: ResultQueue, title: Option<string>, identifiers: map<string, string>) returns (outcome: Outcome)
      modifies browser, queue
      ensures var p := IdentifySpec(browser.respond, titleTokens(title), identifiers);
        && queue.items == old(queue.items) + p.records
        && browser.requested == old(browser.requested) + p.requests
        && outcome == p.outcome
    {
      var id := if IdType in identifiers then Some(identifiers[IdType]) else None;
      if id.Some? && id.value != "" {
        outcome := GetMetadataFromThingApi(id.value, queue, 0);
      } else {
        outcome := SearchTitle(title, queue);
      }
    }
  }
}
