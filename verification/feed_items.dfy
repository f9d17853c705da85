/**
 * The FEED_ITEMS rows one feed contributes. The HTTP GET of the feed plus the feed parser are one
 * oracle result (`Fetched`); fetching an entry's page and rendering it as text is `pageText`.
 */
module FeedItems {
  import opened Wrappers

  /** The parts of the feed parser's model that ingestion reads. */
  datatype Text = Text(content: string)
  datatype Link = Link(href: string)
  datatype Entry = Entry(title: Option<Text>, links: seq<Link>)

  /** Outcome of fetching and parsing one feed URL. */
  datatype Fetched = ReadFailed(error: string) | ParseFailed(error: string) | Parsed(entries: seq<Entry>)

  /** One FEED_ITEMS row. The table has no key, so every insert adds a row. */
  datatype FeedItem = FeedItem(feedTitle: string, title: string, url: string, content: string)

  const NO_TITLE := "(no title)"

  /** The text's content when there is one, the fallback otherwise. */
  function TextContentOr(text: Option<Text>, orText: string): (r: string)
    ensures text.Some? ==> r == text.value.content
    ensures text.None? ==> r == orText
  {
    match text
    case Some(t) => t.content
    case None => orText
  }

  /** (page text, URL) of the entry's first link; ("", "") when it has none. Later links are
      never looked at. */
  function EntryContentAndUrl(entry: Entry, pageText: string -> string): (r: (string, string))
    ensures entry.links == [] ==> r == ("", "")
    ensures entry.links != [] ==> r == (pageText(entry.links[0].href), entry.links[0].href)
  {
    if entry.links == [] then ("", "")
    else
      var link := entry.links[0];
      (pageText(link.href), link.href)
  }

  /** The row stored for one entry of the feed titled `feedTitle`. */
  function EntryRow(feedTitle: string, entry: Entry, pageText: string -> string): (r: FeedItem)
    ensures r.feedTitle == feedTitle
    ensures entry.title.None? ==> r.title == NO_TITLE
    ensures entry.title.Some? ==> r.title == entry.title.value.content
    ensures entry.links == [] ==> r.url == "" && r.content == ""
    ensures entry.links != [] ==> r.url == entry.links[0].href && r.content == pageText(entry.links[0].href)
  {
    var (content, url) := EntryContentAndUrl(entry, pageText);
    FeedItem(feedTitle, TextContentOr(entry.title, NO_TITLE), url, content)
  }

  /** One row per entry, in entry order. */
  function ItemRows(feedTitle: string, entries: seq<Entry>, pageText: string -> string): (r: seq<FeedItem>)
    ensures |r| == |entries|
    ensures forall k :: 0 <= k < |entries| ==> r[k] == EntryRow(feedTitle, entries[k], pageText)
    decreases |entries|
  {
    if entries == [] then []
    else ItemRows(feedTitle, entries[..|entries| - 1], pageText) + [EntryRow(feedTitle, entries[|entries| - 1], pageText)]
  }

  /** The rows one feed adds: none when the GET or the parse failed. */
  function Ingested(feedTitle: string, fetched: Fetched, pageText: string -> string): (r: seq<FeedItem>)
    ensures !fetched.Parsed? ==> r == []
    ensures fetched.Parsed? ==> |r| == |fetched.entries|
  {
    match fetched
    case ReadFailed(_) => []
    case ParseFailed(_) => []
    case Parsed(entries) => ItemRows(feedTitle, entries, pageText)
  }

  /** Every row a feed adds carries that feed's title. */
  lemma IngestedFeedTitle(feedTitle: string, fetched: Fetched, pageText: string -> string, item: FeedItem)
    requires item in Ingested(feedTitle, fetched, pageText)
    ensures item.feedTitle == feedTitle
  {
    var rows := Ingested(feedTitle, fetched, pageText);
    var k :| 0 <= k < |rows| && rows[k] == item;
  }

  /** Only the first link of an entry decides its row. */
  lemma FirstLinkWins(feedTitle: string, entry: Entry, extra: seq<Link>, pageText: string -> string)
    requires entry.links != []
    ensures EntryRow(feedTitle, Entry(entry.title, entry.links[..1] + extra), pageText) == EntryRow(feedTitle, entry, pageText)
  {
  }
}
