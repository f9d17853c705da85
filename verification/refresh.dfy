/**
 * The FEED_ITEMS rows a whole refresh adds: every FEEDS row of the snapshot is ingested in
 * order, each on its own fetch result.
 */
module Refresh {
  import opened Sequences
  import opened Subscriptions
  import opened Wrappers
  import opened FeedItems

  /** The rows the refresh adds for one FEEDS row of the snapshot. */
  function FeedRows(feed: Subscription, fetch: string -> Fetched, pageText: string -> string): seq<FeedItem> {
    Ingested(feed.title, fetch(feed.url), pageText)
  }

  function RefreshedRows(snapshot: seq<Subscription>, fetch: string -> Fetched, pageText: string -> string): seq<FeedItem>
    decreases |snapshot|
  {
    if snapshot == [] then []
    else RefreshedRows(snapshot[..|snapshot| - 1], fetch, pageText) + FeedRows(snapshot[|snapshot| - 1], fetch, pageText)
  }

  /** A refresh over two parts of a snapshot is the refresh of the first part, then the second. */
  lemma {:induction false} RefreshedRowsConcat(a: seq<Subscription>, b: seq<Subscription>, fetch: string -> Fetched, pageText: string -> string)
    ensures RefreshedRows(a + b, fetch, pageText) == RefreshedRows(a, fetch, pageText) + RefreshedRows(b, fetch, pageText)
    decreases |b|
  {
    if b == [] {
      assert a + b == a;
    } else {
      var init, last := b[..|b| - 1], b[|b| - 1];
      DropLastOfAppend(a, b);
      RefreshedRowsConcat(a, init, fetch, pageText);
      AppendAssociative(RefreshedRows(a, fetch, pageText), RefreshedRows(init, fetch, pageText), FeedRows(last, fetch, pageText));
    }
  }

  lemma RefreshedRowsPrefix(snapshot: seq<Subscription>, k: nat, fetch: string -> Fetched, pageText: string -> string)
    requires k < |snapshot|
    ensures RefreshedRows(snapshot[..k + 1], fetch, pageText) == RefreshedRows(snapshot[..k], fetch, pageText) + FeedRows(snapshot[k], fetch, pageText)
  {
    var upTo := snapshot[..k + 1];
    assert upTo[..k] == snapshot[..k] && upTo[k] == snapshot[k];
  }

  /** Each feed of the snapshot contributes its own rows, between those of the feeds before it
      and those of the feeds after it, whatever happened to the others. */
  lemma FeedContributes(snapshot: seq<Subscription>, k: nat, fetch: string -> Fetched, pageText: string -> string)
    requires k < |snapshot|
    ensures RefreshedRows(snapshot, fetch, pageText)
         == RefreshedRows(snapshot[..k], fetch, pageText)
          + FeedRows(snapshot[k], fetch, pageText)
          + RefreshedRows(snapshot[k + 1..], fetch, pageText)
  {
    assert snapshot == snapshot[..k + 1] + snapshot[k + 1..];
    RefreshedRowsConcat(snapshot[..k + 1], snapshot[k + 1..], fetch, pageText);
    RefreshedRowsPrefix(snapshot, k, fetch, pageText);
  }

  /** A feed whose fetch or parse fails adds nothing and changes nothing for the others: the
      refresh gives what a refresh without that feed gives. */
  lemma FailedFeedIsolated(snapshot: seq<Subscription>, k: nat, fetch: string -> Fetched, pageText: string -> string)
    requires k < |snapshot| && !fetch(snapshot[k].url).Parsed?
    ensures RefreshedRows(snapshot, fetch, pageText) == RefreshedRows(snapshot[..k] + snapshot[k + 1..], fetch, pageText)
  {
    var before := RefreshedRows(snapshot[..k], fetch, pageText);
    FeedContributes(snapshot, k, fetch, pageText);
    assert FeedRows(snapshot[k], fetch, pageText) == [];
    assert before + [] == before;
    RefreshedRowsConcat(snapshot[..k], snapshot[k + 1..], fetch, pageText);
  }

  /** Every row a refresh adds carries the title of a feed in the snapshot. */
  lemma {:induction false} RefreshedRowsProvenance(snapshot: seq<Subscription>, fetch: string -> Fetched, pageText: string -> string)
    ensures forall item :: item in RefreshedRows(snapshot, fetch, pageText) ==>
      exists k :: 0 <= k < |snapshot| && item.feedTitle == snapshot[k].title
    decreases |snapshot|
  {
    if snapshot != [] {
      var init := snapshot[..|snapshot| - 1];
      RefreshedRowsProvenance(init, fetch, pageText);
      forall item | item in RefreshedRows(snapshot, fetch, pageText)
        ensures exists k :: 0 <= k < |snapshot| && item.feedTitle == snapshot[k].title
      {
        if item in RefreshedRows(init, fetch, pageText) {
          var k :| 0 <= k < |init| && item.feedTitle == init[k].title;
          assert snapshot[k] == init[k];
        } else {
          IngestedFeedTitle(snapshot[|snapshot| - 1].title, fetch(snapshot[|snapshot| - 1].url), pageText, item);
        }
      }
    }
  }

  /** Number of rows a refresh adds: the entry counts of the feeds that parsed. */
  function ParsedEntryCount(snapshot: seq<Subscription>, fetch: string -> Fetched): nat
    decreases |snapshot|
  {
    if snapshot == [] then 0
    else
      var last := snapshot[|snapshot| - 1];
      ParsedEntryCount(snapshot[..|snapshot| - 1], fetch) + (if fetch(last.url).Parsed? then |fetch(last.url).entries| else 0)
  }

  lemma {:induction false} RefreshedRowsCount(snapshot: seq<Subscription>, fetch: string -> Fetched, pageText: string -> string)
    ensures |RefreshedRows(snapshot, fetch, pageText)| == ParsedEntryCount(snapshot, fetch)
    decreases |snapshot|
  {
    if snapshot != [] {
      RefreshedRowsCount(snapshot[..|snapshot| - 1], fetch, pageText);
    }
  }

  /** The feed server of the example below: http://x/feed serves one entry, "Hello", linking to
      http://x/a; nothing else answers. */
  function ExampleFetch(url: string): Fetched {
    if url == "http://x/feed" then Parsed([Entry(Some(Text("Hello")), [Link("http://x/a")])]) else ReadFailed("unreachable")
  }

  /** One "rss" outline imported into an empty FEEDS, then one refresh against ExampleFetch. */
  lemma EndToEndExample(pageText: string -> string)
    ensures ImportAll([], [Outline("Example", Some("rss"), Some("http://x/feed"), [])]) == [Subscription("Example", "http://x/feed")]
    ensures RefreshedRows([Subscription("Example", "http://x/feed")], ExampleFetch, pageText)
         == [FeedItem("Example", "Hello", "http://x/a", pageText("http://x/a"))]
  {
    var outline := Outline("Example", Some("rss"), Some("http://x/feed"), []);
    var feed := Subscription("Example", "http://x/feed");
    assert ImportAll([], [outline]) == Upserted([], "Example", "http://x/feed") by {
      assert [outline][..0] == [];
    }
    UpsertNewAppends([], "Example", "http://x/feed");
    assert [] + [feed] == [feed];
    var entry := Entry(Some(Text("Hello")), [Link("http://x/a")]);
    var item := FeedItem("Example", "Hello", "http://x/a", pageText("http://x/a"));
    assert FeedRows(feed, ExampleFetch, pageText) == [item] by {
      assert ExampleFetch(feed.url) == Parsed([entry]);
      assert [entry][..0] == [];
      assert EntryRow("Example", entry, pageText) == item;
    }
    assert [feed][..0] == [];
    assert [] + [item] == [item];
  }
}
