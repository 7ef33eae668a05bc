/** The record the plugin hands to the host: the fields of calibre's Metadata
    object that the plugin sets. */
module Records {
  import opened Wrappers

  /** A calendar date; the plugin only ever builds January 1 of a year. */
  datatype Date = Date(year: int, month: int, day: int)

  datatype Metadata = Metadata(
    title: string,
    authors: seq<string>,
    identifiers: map<string, string>,
    pubdate: Option<Date>,
    publisher: Option<string>,
    series: string,
    seriesIndex: int,
    comments: Option<string>,
    source: string,
    sourceRelevance: int)

  /** Metadata(title, authors): a record with the title and authors set and
      every other field at a placeholder that the plugin overwrites. */
  function NewMetadata(title: string, authors: seq<string>): Metadata
  {
    Metadata(title, authors, map[], None, None, "", 0, None, "", 0)
  }
}
