# BoardgameGeek metadata source, modelled in Dafny

This project models the metadata source plugin `BGGeekSource` for the calibre
e-book manager. The plugin identifies a book by its BoardgameGeek item id
or by a title search. It reads the fields of each item from the XML API
responses and puts one metadata record per item on the host's result queue.

The model covers these parts of the plugin:

- **Field extractors**: publish date, publisher, series name and index,
  comments and cover. Each one takes the first matching element of a parsed
  response. The series index is the last run of digits in the series code.
- **Identifiers**: `get_book_url` and `id_from_url`, between an item id and
  its catalog URL.
- **Result ordering**: the sort key `identify_results_keygen` gives the host.
  It compares records by their relevance rank alone.
- **Detail lookup**: `_get_metadata_from_thing_api`. It skips a response
  without a `boardgameexpansion` item. Otherwise it builds one record and
  queues it.
- **Orchestration**: `identify` and `_search_title`. `identify` makes a
  direct lookup at relevance 0 when it is given an id. Otherwise it runs one
  search and looks up its i-th `rpgitem` result with relevance i.

The project has these modules:

- `Wrappers`: `Option`, `Result` and `Outcome`, and the exceptions the code
  can raise. Each exception is an `Error` value.
- `Text`: Python's `int()` on strings, `str.strip`, `str.split` and
  `str.join`.
- `Soup`: a parsed response, as a sequence of elements in document order,
  with `find`, `find_all` and `tag[key]`.
- `Records`: the metadata record.
- `Extractors`: the five field extractors and the series-code regex.
- `Identifiers`: the book URL and the id read back from a URL.
- `Ranking`: the sort key and its six comparisons.
- `Lookup`: the browser and the result queue (classes), and the plugin class.
  Its methods `GetMetadataFromThingApi`, `SearchTitle` and `Identify` are each
  proved against a specification function. That function gives the records
  queued, the URLs opened and how the call ends.

The network is a parameter. The browser holds a function from a URL to the
parsed document or to the error the fetch raised, and it logs every URL it
opens. The title tokenizer the host provides (`get_title_tokens`) is also a
parameter of the plugin object.

No exception is caught anywhere in the plugin. In the model, the first error
ends the operation. A failing detail lookup during a search therefore ends
the whole loop, and later results are never looked up. A detail response
without a primary name makes the code raise (it subscripts `None`). The model
treats it as the error `NoPrimaryName`, so a caller need not rule it out.

The docstring of `id_from_url` (line 118) promises the pair ("rpggeek", id),
but line 134 returns the namespace "bggeek", the same one `get_book_url`
reads. The model follows the code. A detail response whose primary name has
an empty value still gives a record, and the record is queued (lines 179 and
198), although a metadata source is not meant to emit a record with an
empty title. The model follows the code here as well.

The detail lookup filters on a `boardgameexpansion` item, while the search
keeps `rpgitem` results. The model keeps both filters exactly as the code
writes them.

## Model

| member | source | states |
|---|---|---|
| Text.ParseInt | bggeek_source.py:21 | `int()` on a string: a string with no digit always raises; every failure is the ValueError naming the string |
| Text.ParseLiteral | bggeek_source.py:21 | the sign-and-digits step of `int()` on the stripped text: it accepts only text holding a digit, and its error names the whole string |
| Text.ParseIntReadsIntegerText | bggeek_source.py:21 | `int()` gives n for every text of n: whitespace (space, tab, line feed, carriage return, vertical tab, form feed), an optional sign ("-" only for n <= 0, "+" or none only for n >= 0), any zeros, the digits of abs(n), then such whitespace again |
| Text.ParseIntAcceptsOnlyIntegerText | bggeek_source.py:21 | whenever `int()` gives n, the string is a text of n in that sense, so "12x", "1 2" or "" all raise |
| Text.ParseIntRoundTrip | bggeek_source.py:21 | `int()` reads back exactly n from the decimal numeral of n (sign included) with any whitespace (space, tab, line feed, carriage return, vertical tab, form feed) around it |
| Text.DecimalRoundTrip | bggeek_source.py:49 | the digits `str(n)` writes denote n |
| Text.LeadingZeros | bggeek_source.py:49 | leading zeros do not change the value `int()` gives a digit run |
| Text.Strip | bggeek_source.py:131 | `str.strip(chars)`: the result neither starts nor ends with a stripped character |
| Text.StripPadded | bggeek_source.py:131 | stripping a string padded only with stripped characters gives back the inner string |
| Text.Split | bggeek_source.py:131 | `str.split(sep)`: at least one part, no part holds the separator, and joining the parts gives the string back |
| Text.Join | bggeek_source.py:203 | `sep.join(parts)`; `Text.Split` is its inverse on one-character separators (`Text.SplitJoin`) |
| Text.SplitJoin | bggeek_source.py:203 | for at least one part, splitting a `"+".join(...)` gives the parts back when no part holds the separator (an empty list joins to "", which splits to [""]) |
| Text.SplitHead | bggeek_source.py:131-132 | the first part runs up to the first separator, and a second part exists exactly when the separator occurs |
| Soup.FindIndex | bggeek_source.py:18 | no index exactly when nothing matches; otherwise the index of the first matching element |
| Soup.Find | bggeek_source.py:18 | `soup.find`: absent exactly when nothing matches, otherwise the first matching element |
| Soup.FindAll | bggeek_source.py:181 | `soup.find_all`: every element returned matches the query |
| Soup.FindAllKeepsMatches | bggeek_source.py:181 | `find_all` returns each matching element as often as the document holds it, and no other element |
| Soup.FindAllAppend | bggeek_source.py:211 | `find_all` keeps document order: the matches in a + b are those in a followed by those in b |
| Soup.FindIsFirstOfFindAll | bggeek_source.py:177-181 | `find` is the head of `find_all`, and is absent exactly when `find_all` is empty |
| Soup.Attr | bggeek_source.py:32 | `tag["value"]` gives the value when the attribute is present, and raises KeyError otherwise. Python's KeyError carries only the key; the model's `MissingAttribute` error also records the tag name |
| Soup.Values | bggeek_source.py:180-182 | the list comprehension succeeds exactly when every element has the key; then it gives the values in order and of equal length; otherwise it raises at an element lacking the key |
| Extractors.OptionalValue | bggeek_source.py:31-33 | a found tag's value, or the KeyError when it has no value |
| Extractors.PubDate | bggeek_source.py:17-24 | absent without a `yearpublished` element; a present date is January 1 of a year in 1..9999. For the first `yearpublished` element: no value raises the KeyError; a value `int()` rejects raises its ValueError; a year y read from it gives absent for y <= 0, January 1 of y up to 9999 and the datetime error past that |
| Extractors.PubDateOfYear | bggeek_source.py:17-24 | for a first `yearpublished` value holding the numeral of y: absent for y <= 0, January 1 of y for 1 <= y <= 9999, and the datetime error past 9999 |
| Extractors.Publisher | bggeek_source.py:27-33 | absent without an `rpgpublisher` link, otherwise the value of the first one |
| Extractors.Comments | bggeek_source.py:53-57 | absent without a `description` element or when the first one is empty, otherwise its first content node |
| Extractors.Cover | bggeek_source.py:59-65 | absent without an `image` element, otherwise the value of the first one |
| Extractors.LastDigitRun | bggeek_source.py:48 | no span exactly when the code has no digit; otherwise a match of `(\d+)\D*$` that no earlier digit extends |
| Extractors.LastDigitRunIsLeftmostMatch | bggeek_source.py:48 | every match of `(\d+)\D*$` ends where the found span ends and starts no earlier, so the span is the match `re.search` returns |
| Extractors.UnextendableMatchIsLastDigitRun | bggeek_source.py:48 | a match that no digit precedes is exactly the found span |
| Extractors.SeriesIndex | bggeek_source.py:48-49 | a code without digits gives index 0 |
| Extractors.SeriesIndexOfCode | bggeek_source.py:45-49 | a code made of a prefix that is empty or does not end in a digit, then n with any leading zeros, then only non-digits, has index n |
| Extractors.SeriesIndexExamples | bggeek_source.py:48-49 | "ABC-042b" gives 42 and "ABC" gives 0 |
| Extractors.SeriesName | bggeek_source.py:37-42 | "" without an `rpgseries` link, otherwise the first one's value (or its KeyError) |
| Extractors.SeriesNumber | bggeek_source.py:38-49 | 0 without a `seriescode` element, otherwise the series index of the first one's value (or its KeyError) |
| Extractors.Series | bggeek_source.py:36-50 | name and index are each read on their own; the pair succeeds exactly when both do, and the name's error comes first |
| Identifiers.GetBookUrl | bggeek_source.py:102-115 | a result exactly when the map holds a non-empty `bggeek` id, and then it is ("bggeek", id, the boardgame URL of id) |
| Identifiers.PathSegments | bggeek_source.py:131 | `path.strip("/").split("/")`: at least one segment, no segment holds "/", and joining the segments with "/" gives the stripped path back |
| Identifiers.IdFromUrl | bggeek_source.py:117-134 | an accepted URL is on one of the three domains, and its id is in the `bggeek` namespace and holds no "/" |
| Identifiers.IdFromUrlAccepts | bggeek_source.py:124-134 | accepted exactly when the host is one of the three domains and the stripped path starts with "boardgame/"; the id is what follows, up to the next "/" |
| Identifiers.FirstSegmentIsBoardgame | bggeek_source.py:131-132 | the first segment is "boardgame" with another after it exactly when the string starts with "boardgame/" |
| Identifiers.SegmentsOf | bggeek_source.py:131-134 | the split path has a second part after a first part "boardgame" exactly when the path starts with "boardgame/", and that part runs to the next "/" |
| Identifiers.BookUrlRoundTrip | bggeek_source.py:102-134 | the book URL of an id without "/" is on host boardgamegeek.com with path /boardgame/<id>, and `id_from_url` given that host and path reads back the same id |
| Identifiers.IdFromItemPath | bggeek_source.py:117-134 | on each of the three domains, `/boardgame/<id>` and any longer `/boardgame/<id>/...` (trailing slashes included) give back the id, for an id that is not empty and holds no "/" |
| Identifiers.BookUrlExamples | bggeek_source.py:108-115 | id "4098" gives https://boardgamegeek.com/boardgame/4098; an empty map gives nothing |
| Identifiers.IdFromUrlExample | bggeek_source.py:117-134 | /boardgame/4098/item-name on boardgamegeek.com, and /boardgame/4098/ on rpggeek.com, give id "4098" |
| Identifiers.IdFromUrlRejectsOtherHost | bggeek_source.py:124-129 | example: "example.com" with path /boardgame/4098/item-name is rejected. The general rule, that a host outside the three domains gives no id, is `Identifiers.IdFromUrl`'s ensures |
| Identifiers.IdFromUrlRejectsOtherPath | bggeek_source.py:131-133 | example: the path /notboardgame/4098 on boardgamegeek.com is rejected. The general rule, that an id is given only when the stripped path starts with "boardgame/", is `Identifiers.IdFromUrlAccepts` |
| Ranking.KeyGen | bggeek_source.py:144-146 | the key of a record keeps only its relevance; what that means for the comparisons is `Ranking.KeysCompareByRelevance` |
| Ranking.Eq | bggeek_source.py:148-149 | `__eq__`: equal relevances |
| Ranking.Ne | bggeek_source.py:151-152 | `__ne__`: different relevances |
| Ranking.Lt | bggeek_source.py:154-155 | `__lt__`: lower relevance |
| Ranking.Le | bggeek_source.py:157-158 | `__le__`: relevance not higher |
| Ranking.Gt | bggeek_source.py:160-161 | `__gt__`: higher relevance |
| Ranking.Ge | bggeek_source.py:163-164 | `__ge__`: relevance not lower |
| Ranking.KeysCompareByRelevance | bggeek_source.py:143-167 | each of the six key comparisons holds exactly when the same comparison holds between the two records' relevances |
| Ranking.KeyOrderIsTotalPreorder | bggeek_source.py:143-164 | `<=` on keys is reflexive, transitive and total; `==` is mutual `<=`, and `!=`, `<`, `>`, `>=` agree with it as `total_ordering` expects |
| Lookup.Browser.OpenNoVisit | bggeek_source.py:174 | appends the URL to the browser's log and returns the response for that URL |
| Lookup.ResultQueue.Put | bggeek_source.py:198 | appends the record to the queue |
| Records.NewMetadata | bggeek_source.py:188 | `Metadata(title, authors)`: a record holding the extracted title and authors as they are, whose other fields the detail lookup then assigns (calibre's defaults are not modelled, see Left out) |
| Lookup.ThingRecord | bggeek_source.py:177-196 | no record exactly when the response has no `boardgameexpansion` item. A record carries: the id; the relevance; the source name; the first primary name's value as title; every `rpgdesigner` value, in document order, as authors; and the date, publisher, series and comments the extractors give. A missing primary name is an error. With an expansion item and a primary name, a record is built exactly when the name has a value and the authors, date, publisher and series all extract; otherwise the error is that of the first of these to raise, in the order the code reads them |
| Lookup.ThingSpec | bggeek_source.py:171-198 | one request, for the item's API URL. At most one record, carrying the id, relevance and source; none on failure. A failed fetch ends in its error. The lookup passes with no record exactly when there is no expansion item; otherwise its record is the one `ThingRecord` builds. Whenever the record builds, the lookup passes and queues exactly that record (none without an expansion item); when building raises, it fails with that error and queues nothing |
| Lookup.DetailLookup | bggeek_source.py:215-217 | the detail lookup as the loop calls it, an id and a relevance to `Lookup.ThingSpec`; `Lookup.ThingSpecIsDetailLookup` states what the loop relies on |
| Lookup.ThingSpecIsDetailLookup | bggeek_source.py:171-198 | the detail lookup has every property the search loop relies on |
| Lookup.FanOut | bggeek_source.py:214-217 | the loop after n results: the i-th result's id looked up with relevance i, in order, until the first exception; its properties are the `Lookup.FanOut...` lemmas below |
| Lookup.FanOutSortedByKey | bggeek_source.py:214-217 | after n results, every queued record has a relevance in [0, n), and the records are in strictly increasing key order |
| Lookup.FanOutRecordOrigin | bggeek_source.py:214-217 | each queued record is exactly the one the lookup of the result at its relevance produced |
| Lookup.FanOutStopsAtFailure | bggeek_source.py:214-217 | once a lookup raises, no later result is looked up and nothing more is queued |
| Lookup.FanOutComplete | bggeek_source.py:214-217 | a loop that ends normally opened one detail URL per result, in result order; every record any lookup produced is queued |
| Lookup.FanOutAllFound | bggeek_source.py:214-217 | when every lookup finds its record, the loop passes and the k-th queued record is the k-th result's, with relevance k |
| Lookup.SearchUrl | bggeek_source.py:202-204 | the search API prefix followed by the title tokens joined by "+"; `Lookup.SearchQueryKeepsTokens` states that the tokens can be read back |
| Lookup.SearchQueryKeepsTokens | bggeek_source.py:202-204 | when there is at least one token and no token holds "+", the search URL is the API prefix followed by a query that splits on "+" back into the title tokens |
| Lookup.SearchSpec | bggeek_source.py:200-217 | the first request is the search URL built from the title tokens |
| Lookup.SearchSortedByKey | bggeek_source.py:200-217 | the records a search queues are in strictly increasing relevance |
| Lookup.IdentifySpec | bggeek_source.py:237-243 | a non-empty `bggeek` id means the detail lookup of that id at relevance 0, anything else the title search; `Lookup.IdentifyById` and `Lookup.IdentifyByTitle` state the consequences |
| Lookup.IdentifyById | bggeek_source.py:237-241 | with a non-empty id, the only request is that id's detail URL, so no search is made; at most one record is queued, with relevance 0 |
| Lookup.IdentifyByTitle | bggeek_source.py:237-243 | without an id, the first request is the search URL, and the queued records are in strictly increasing relevance |
| Lookup.BGGeekSource.GetMetadataFromThingApi | bggeek_source.py:171-198 | queues exactly the detail lookup's records and opens exactly its URL; returns its outcome; nothing else in the queue changes |
| Lookup.BGGeekSource.SearchTitle | bggeek_source.py:200-217 | queues exactly the search's records, opens exactly its URLs and returns its outcome |
| Lookup.BGGeekSource.LookUpItems | bggeek_source.py:214-217 | the loop queues the records of the fan-out over all results, opens its URLs and returns its outcome |
| Lookup.BGGeekSource.LookUpItem | bggeek_source.py:214-217 | one iteration advances the queue, the log and the outcome from the fan-out over i results to the fan-out over i + 1 results |
| Lookup.BGGeekSource.Identify | bggeek_source.py:237-243 | queues exactly the records `identify` specifies (direct lookup or search), opens exactly its URLs and returns its outcome |

## Left out

- HTTP fetching and HTML/XML parsing (`open_novisit`, BeautifulSoup, `prettify`) are a parameter: a function from URL to parsed document or error.
- `urlparse` is left out. `IdFromUrl` takes the URL's network location and path as inputs.
- `get_title_tokens` is a parameter of the plugin object. Its tokenization is host code.
- `clean_downloaded_metadata` and `log.debug` are left out. They are host code, and logging has no effect on the result.
- The `abort` and `timeout` parameters of `identify` are left out, because the code never reads them.
- The plugin's class constants (`name` apart, which is the records' source), `touched_fields`, `is_customizable` and `__init__.py` are left out. They are static declarations.
- calibre's `Metadata` object is a record value built field by field and then queued. The object has no aliasing that could matter, because it is fresh at each lookup.
- A `datetime` is reduced to a (year, month, day) value, with `datetime`'s year range 1..9999.
- Text.ParseInt: handles only ASCII digits, and only the six ASCII whitespace characters CPython's `int()` skips around an all-ASCII numeral (space, tab, line feed, carriage return, vertical tab, form feed). Python's `int()` also accepts other Unicode digits, and once the text holds a non-ASCII character it also skips Unicode whitespace (which then includes U+001C to U+001F and U+00A0); and underscores between digits. Its own contract states only the digit-free case and the error value; what it accepts, and the value it reads, are stated by `Text.ParseIntReadsIntegerText` and `Text.ParseIntAcceptsOnlyIntegerText`. It has no length limit: from Python 3.11 (and 3.10.7), `int()` raises ValueError on more than 4300 digits by default, a limit the interpreter lets one change (`sys.set_int_max_str_digits`), and the model reads such numerals.
- Extractors.SeriesIndex: reads a digit run of any length. Under the default digit limit of recent Python versions, a series code whose last digit run has more than 4300 digits makes line 49 raise ValueError instead of giving an index.
- Extractors.PubDate: for the same reason, a year of more than 4300 digits is read as a year (and so raises the datetime error) rather than raising ValueError from `int()`.
- Identifiers.BookUrlRoundTrip: `IdFromUrl` takes the host and path of a URL already split, so the lemma does not cover the `urlparse` step. An id holding "?", "#" or ";" is cut there by `urlparse` (query, fragment or parameters), and `id_from_url` then does not read the same id back from the book URL.
- Lookup.BGGeekSource.GetMetadataFromThingApi: queues the record as built. The host's `clean_downloaded_metadata` runs on it just before it is queued (line 197) and may rewrite fields; the title, authors and other fields stated by `Lookup.ThingRecord` are those before that call.
- Records.NewMetadata: stores the title and authors as extracted. calibre's `Metadata` constructor puts "Unknown" in place of an empty title and ["Unknown"] in place of an empty author list, and `set_identifier` may normalise or drop the id; the model does neither.
- Lookup.SearchQueryKeepsTokens: promises nothing for a token holding "+". Line 203 joins the tokens with "+" without encoding them, so a token such as "C++" does not split back into the same tokens.
- Extractors.LastDigitRun: `\d` is taken as the ASCII digits only. Python's `\d` also matches other Unicode decimal digits.
- Extractors.Cover: modelled, but no lookup calls it, as in the code.
- Soup.FindAll: its own contract states only that every returned element matches. Counts and order are stated by `Soup.FindAllKeepsMatches` and `Soup.FindAllAppend`.
- Lookup.SearchSpec: its own contract states only the first request. The records, their order and the loop's requests and failures are stated by the fan-out lemmas and `Lookup.SearchSortedByKey`.
