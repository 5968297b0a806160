/**
 * The shape of what `feedparser.parse` returns, as far as the service reads
 * it. Retrieval and XML parsing are not modelled: values of these types are
 * inputs.
 */
module Feeds {
  import opened Wrappers
  import Timestamps

  /**
   * One feed entry. A field is `None` when the entry has no such key;
   * `publishedParsed` and `updatedParsed` are the parsed time records, and
   * `published` is the raw date text.
   */
  datatype Entry = Entry(
    title: Option<string>,
    link: Option<string>,
    summary: Option<string>,
    description: Option<string>,
    published: Option<string>,
    publishedParsed: Option<Timestamps.TimeStruct>,
    updatedParsed: Option<Timestamps.TimeStruct>)

  /** A parse result: the `bozo` (malformed) flag and the entries. */
  datatype ParsedFeed = ParsedFeed(bozo: bool, entries: seq<Entry>)

  /** Python's `x or ""` on an optional str: `None` and `""` both give `""`. */
  function OrEmpty(x: Option<string>): string {
    x.GetOr("")
  }
}
