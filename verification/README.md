# plain-rss ingestion core, modelled in Dafny

plain-rss reads an OPML subscription list into a SQLite database, then refreshes every
subscribed feed: it fetches and parses the feed and stores one row per entry, with the text of
the entry's first linked page. This project models that pipeline with every library call turned
into an input:

- **FEEDS** (`TITLE` primary key, `URL` unique) is a sequence of `Subscription` rows in scan
  order. It is written only by `INSERT OR REPLACE`. Under SQLite's REPLACE conflict resolution
  that statement deletes every row that shares the new row's TITLE *or* its URL, then appends the
  new row (`Subscriptions.Upserted`).
- **OPML import** is a fold over the document body's top-level outlines (`Subscriptions.ImportAll`).
  Only an outline whose type is exactly `"rss"` and that has an `xmlUrl` writes a row.
- **FEED_ITEMS** has no key, so every insert appends. One feed adds nothing when the HTTP GET or
  the parse fails. Otherwise it adds one row per entry (`FeedItems.Ingested`): the feed's title,
  the entry title or `"(no title)"`, and the URL and page text of the entry's first link (both
  `""` when it has no link).
- **Refresh** copies FEEDS into a snapshot and then ingests each snapshot row in order
  (`Refresh.RefreshedRows`).
- `Store.Database` is the connection. It is a class whose `feeds` and `items` fields the methods
  update in place, as the prepared statements do. Each method is proved against the functions
  above, and FEEDS' two uniqueness constraints are its invariant (`Valid`).
- `CommandLine.ParseConfig` is the binary's argument check.

External capabilities are parameters:
- `fetch: string -> Fetched` is the GET of a feed URL plus the feed parser. Its result is
  `ReadFailed`, `ParseFailed` or `Parsed(entries)`.
- `pageText: string -> string` is the GET of an entry link plus the HTML-to-text rendering.
- The OPML parser's output is the `seq<Outline>` given to `ImportOpml`.

Two consequences of the code as written, which the model keeps:
- Upserting a subscription also evicts a row with a *different* title that holds the same URL,
  because URL is UNIQUE and the statement is `INSERT OR REPLACE`. So re-importing can leave fewer
  rows than there are distinct titles.
- A refresh reads FEEDS in the table's scan order. For this schema that is rowid order, so an
  upserted row moves to the end.

## Model

| member | source | states |
|---|---|---|
| `Subscriptions.Upserted` | src/lib.rs:77-80 | after an upsert of (t, u) the row (t, u) is present; no other row has title t or URL u; every other row was there before; every prior row with neither title t nor URL u is kept |
| `Subscriptions.UpsertKeepsKeysUnique` | src/lib.rs:57 | an upsert keeps "no two rows share a TITLE, no two share a URL" |
| `Subscriptions.UpsertNewAppends` | src/lib.rs:66 | a title and URL that are both new add exactly one row, at the end, and change nothing else |
| `Subscriptions.ReimportReplacesUrl` | src/lib.rs:66 | re-importing an existing title with a URL no other title holds keeps the row count, and the title's only row has the new URL |
| `Subscriptions.ImportOutline` | src/lib.rs:72-90 | an outline with type exactly "rss" and an xmlUrl upserts (text, xmlUrl); an untyped outline, a non-"rss" type or a missing xmlUrl leaves FEEDS unchanged |
| `Subscriptions.ImportLastWins` | src/lib.rs:71-91 | a feed outline's (text, xmlUrl) is in FEEDS after the import unless a later feed outline shares its title or its URL (last write wins) |
| `Subscriptions.ImportKeepsKeysUnique` | src/lib.rs:71-91 | importing any outline sequence keeps both FEEDS constraints |
| `Subscriptions.ImportProvenance` | src/lib.rs:71 | every row after an import was there before or is the (text, xmlUrl) of a top-level "rss" outline |
| `Subscriptions.NestedOutlinesIgnored` | src/lib.rs:71-76 | two bodies whose top-level outlines agree on text, type and xmlUrl import identically, whatever their nested outlines hold |
| `Subscriptions.ImportAllSplits` | src/lib.rs:71-91 | an import yields the prior rows that no feed outline clashes with, in order, followed by what the same outlines give on an empty table |
| `Subscriptions.ImportedRowsEvicted` | src/lib.rs:71-91 | every row an import writes would be evicted by the same import |
| `Subscriptions.ImportIdempotent` | src/lib.rs:62-92 | importing the same outlines twice gives exactly the FEEDS of importing them once |
| `FeedItems.TextContentOr` | src/lib.rs:15-20 | the text's content when present, the given default when absent |
| `FeedItems.EntryContentAndUrl` | src/lib.rs:22-28 | ("", "") for an entry without links, otherwise (page text of the first link, first link's href) |
| `FeedItems.FirstLinkWins` | src/lib.rs:23-26 | links after the first never change an entry's row |
| `FeedItems.EntryRow` | src/lib.rs:107-115 | an entry's row carries the feed title, the entry title or "(no title)", and the first link's URL and page text, or "" and "" when the entry has no link |
| `FeedItems.ItemRows` | src/lib.rs:106-116 | exactly one row per entry, row k built from entry k |
| `FeedItems.Ingested` | src/lib.rs:96-116 | no rows on a failed GET or failed parse; one row per entry on success |
| `FeedItems.IngestedFeedTitle` | src/lib.rs:108 | every row a feed adds carries that feed's title |
| `Refresh.RefreshedRowsConcat` | src/lib.rs:130-132 | refreshing two parts of a snapshot adds the first part's rows, then the second's |
| `Refresh.RefreshedRowsPrefix` | src/lib.rs:130-132 | refreshing the first k+1 feeds adds the rows of the first k, then feed k's own rows |
| `Refresh.FeedContributes` | src/lib.rs:130-132 | feed k's rows sit between the rows of the feeds before it and those after it, whatever the other feeds' fetches returned |
| `Refresh.FailedFeedIsolated` | src/lib.rs:96-105 | a feed whose GET or parse fails adds nothing, and the refresh adds exactly what a refresh without that feed adds |
| `Refresh.RefreshedRowsProvenance` | src/lib.rs:130-132 | every row a refresh adds carries the title of a snapshot feed |
| `Refresh.RefreshedRowsCount` | src/lib.rs:119-133 | a refresh adds as many rows as the feeds that parsed have entries |
| `Refresh.EndToEndExample` | src/lib.rs:62-133 | one "rss" outline (Example, http://x/feed) gives FEEDS = [(Example, http://x/feed)]; a refresh whose feed has one entry "Hello" linking to http://x/a adds the single row (Example, Hello, http://x/a, text of http://x/a) |
| `Store.Database.Open` | src/lib.rs:55-60 | opening and setting up keeps the rows already stored, which satisfy both FEEDS constraints |
| `Store.Database.InsertOrReplaceFeed` | src/lib.rs:65-67 | FEEDS becomes the upsert of the old table, FEED_ITEMS is unchanged, and the constraints still hold |
| `Store.Database.InsertItem` | src/lib.rs:95 | the row is appended to FEED_ITEMS, FEEDS is unchanged, and the constraints still hold |
| `Store.Database.ImportOpml` | src/lib.rs:62-92 | the outline loop leaves FEEDS equal to the import of the old table, leaves FEED_ITEMS unchanged, and keeps the constraints |
| `Store.Database.ImportFeed` | src/lib.rs:94-117 | FEED_ITEMS gains exactly the feed's ingested rows in entry order; earlier rows and FEEDS are unchanged, and the constraints still hold |
| `Store.Database.SelectFeeds` | src/lib.rs:120-127 | the vector the select loop fills is exactly FEEDS |
| `Store.Database.RefreshFeeds` | src/lib.rs:119-133 | FEEDS is unchanged and keeps its constraints; FEED_ITEMS gains the rows of every feed of the snapshot taken at the start, in snapshot order |
| `Store.Database.Run` | src/lib.rs:147-149 | a run leaves FEEDS equal to the import of the OPML body, and FEED_ITEMS gains a refresh of exactly that table |
| `CommandLine.ParseConfig` | src/main.rs:4-13 | fails, with the message "Not enough arguments; db path and opml import path expected", exactly when there are fewer than 3 arguments; otherwise db path is args[1] and OPML path is args[2] |
| `CommandLine.ParseConfigIgnoresOthers` | src/main.rs:9-12 | args[0] and everything after args[2] do not affect the result |
| `CommandLine.ParseConfigRoundTrip` | src/main.rs:4-13 | any configuration is recovered from the command line that lists its two paths after a program name |

## Left out

- Network I/O: the GET of a feed URL, the GET of an entry link, timeouts and retries. They are the `fetch` and `pageText` parameters.
- Feed parsing, OPML XML parsing and HTML-to-text rendering with 80-column wrapping. These are foreign libraries. Their outputs are inputs here (`Fetched`, `seq<Outline>`, `pageText`).
- Panics. A failed GET of an entry link aborts the whole process in the source. The model's `pageText` is total, so it covers only runs where every entry link answers. Unreadable or malformed OPML files, storage-open failures and failed statements also panic in the source; the model starts from a parsed OPML body and a working connection.
- SQLite internals: opening the file, preparing, resetting and binding statements. Only the two tables and the REPLACE-on-conflict behaviour of the FEEDS statement are modelled.
- The declared reference from FEED_ITEMS.FEED_TITLE to FEEDS.TITLE. SQLite does not enforce foreign keys unless asked to, and this program never asks. The model keeps FEED_ITEMS independent of FEEDS, so a feed evicted from FEEDS keeps its items.
- The feed fetch is a function of the URL, so two fetches of the same URL in one model run agree. Within one refresh each URL is fetched once, because URLs are unique. `pageText` is a function of the link as well. The source makes a separate GET for every entry link, even when two entries of one feed or of different feeds link to the same page. The model gives all of those GETs the same text.
- `println!` diagnostics, the informational outline reports, and the exit codes of `main`.
- The unreachable `else` branch of `run`, and `process_outline` and `get_entry_content`, which only that branch reaches.
