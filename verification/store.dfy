/**
 * The SQLite connection with its two tables, and the pipeline steps that write them. Each method
 * changes the tables in place, as the prepared statements do, and is specified by the pure
 * functions of Subscriptions, FeedItems and Refresh.
 */
module Store {
  import opened Wrappers
  import opened Sequences
  import opened Subscriptions
  import opened FeedItems
  import opened Refresh

  class Database {
    /** FEEDS, in scan order. */
    var feeds: seq<Subscription>
    /** FEED_ITEMS, in insertion order. */
    var items: seq<FeedItem>

    /** The schema's constraints on FEEDS: TITLE PRIMARY KEY, URL UNIQUE. */
    ghost predicate Valid()
      reads this
    {
      KeysUnique(feeds)
    }

    /** Open the database and run setup_db: CREATE TABLE IF NOT EXISTS keeps whatever rows an
        earlier run left (none for a new file). */
    constructor Open(existingFeeds: seq<Subscription>, existingItems: seq<FeedItem>)
      requires KeysUnique(existingFeeds)
      ensures Valid()
      ensures feeds == existingFeeds && items == existingItems
    {
      feeds := existingFeeds;
      items := existingItems;
    }

    /** `INSERT OR REPLACE INTO FEEDS (TITLE, URL) VALUES (?, ?)`. */
    method InsertOrReplaceFeed(title: string, url: string)
      requires Valid()
      modifies this
      ensures Valid()
      ensures feeds == Upserted(old(feeds), title, url) && items == old(items)
    {
      UpsertKeepsKeysUnique(feeds, title, url);
      feeds := Upserted(feeds, title, url);
    }

    /** `INSERT OR REPLACE INTO FEED_ITEMS ...`: the table has no key, so this always appends. */
    method InsertItem(item: FeedItem)
      requires Valid()
      modifies this
      ensures Valid()
      ensures feeds == old(feeds) && items == old(items) + [item]
    {
      items := items + [item];
    }

    /** import_opml_into_db over the parsed document's top-level outlines. */
    method ImportOpml(outlines: seq<Outline>)
      requires Valid()
      modifies this
      ensures Valid()
      ensures feeds == ImportAll(old(feeds), outlines) && items == old(items)
    {
      for i := 0 to |outlines|
        invariant Valid()
        invariant feeds == ImportAll(old(feeds), outlines[..i]) && items == old(items)
      {
        assert outlines[..i + 1][..i] == outlines[..i];
        var outline := outlines[i];
        match outline.kind {
          case Some(kind) =>
            if kind == RSS_TYPE {
              match outline.xmlUrl {
                case Some(url) => InsertOrReplaceFeed(outline.text, url);
                case None =>
              }
            }
          case None =>
        }
      }
      assert outlines[..|outlines|] == outlines;
    }

    /** import_feed_into_db: fetch and parse the feed at `url`; on failure add nothing, otherwise
        one row per entry. */
    method ImportFeed(title: string, url: string, fetch: string -> Fetched, pageText: string -> string)
      requires Valid()
      modifies this
      ensures Valid()
      ensures feeds == old(feeds)
      ensures items == old(items) + FeedRows(Subscription(title, url), fetch, pageText)
    {
      var fetched := fetch(url);
      match fetched {
        case ReadFailed(_) => return;
        case ParseFailed(_) => return;
        case Parsed(entries) =>
          for i := 0 to |entries|
            invariant Valid()
            invariant feeds == old(feeds)
            invariant items == old(items) + ItemRows(title, entries[..i], pageText)
          {
            assert entries[..i + 1][..i] == entries[..i];
            var entry := entries[i];
            var entryTitle := TextContentOr(entry.title, NO_TITLE);
            var (entryContent, entryUrl) := EntryContentAndUrl(entry, pageText);
            InsertItem(FeedItem(title, entryTitle, entryUrl, entryContent));
          }
          assert entries[..|entries|] == entries;
      }
    }

    /** `SELECT TITLE, URL FROM FEEDS`, stepped row by row into a vector. */
    method SelectFeeds() returns (snapshot: seq<Subscription>)
      ensures snapshot == feeds
    {
      snapshot := [];
      var row := 0;
      while row < |feeds|
        invariant 0 <= row <= |feeds|
        invariant snapshot == feeds[..row]
      {
        snapshot := snapshot + [feeds[row]];
        row := row + 1;
      }
    }

    /** refresh_feeds: copy FEEDS into a vector, then ingest each copied row in order. */
    method RefreshFeeds(fetch: string -> Fetched, pageText: string -> string)
      requires Valid()
      modifies this
      ensures Valid()
      ensures feeds == old(feeds)
      ensures items == old(items) + RefreshedRows(old(feeds), fetch, pageText)
    {
      var snapshot := SelectFeeds();
      for i := 0 to |snapshot|
        invariant Valid()
        invariant feeds == old(feeds)
        invariant items == old(items) + RefreshedRows(snapshot[..i], fetch, pageText)
      {
        var feed := snapshot[i];
        ghost var done := RefreshedRows(snapshot[..i], fetch, pageText);
        ImportFeed(feed.title, feed.url, fetch, pageText);
        RefreshedRowsPrefix(snapshot, i, fetch, pageText);
        AppendAssociative(old(items), done, FeedRows(feed, fetch, pageText));
      }
      assert snapshot[..|snapshot|] == snapshot;
    }

    /** The live branch of `run`: import the OPML body, then refresh every feed. */
    method Run(outlines: seq<Outline>, fetch: string -> Fetched, pageText: string -> string)
      requires Valid()
      modifies this
      ensures Valid()
      ensures feeds == ImportAll(old(feeds), outlines)
      ensures items == old(items) + RefreshedRows(feeds, fetch, pageText)
    {
      ImportOpml(outlines);
      RefreshFeeds(fetch, pageText);
    }
  }
}
