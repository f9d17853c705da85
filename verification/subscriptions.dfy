/**
 * The FEEDS table and the OPML import that fills it.
 *
 * FEEDS is declared with TITLE as primary key and URL as UNIQUE, and it is written only by
 * `INSERT OR REPLACE`. Under SQLite's REPLACE resolution an insert first deletes every existing
 * row that would violate either constraint and then adds the new row with a fresh rowid, so in the
 * table's scan order the new row comes last. The table is modelled as the sequence of its rows in
 * that order.
 */
module Subscriptions {
  import opened Wrappers
  import opened Sequences

  /** One FEEDS row. */
  datatype Subscription = Subscription(title: string, url: string)

  /** An outline element as the OPML parser yields it: `text`, the optional `type` and `xmlUrl`
      attributes, and the nested child outlines. */
  datatype Outline = Outline(text: string, kind: Option<string>, xmlUrl: Option<string>, outlines: seq<Outline>)

  const RSS_TYPE := "rss"

  /** The two constraints of the FEEDS schema: no two rows share a TITLE, no two share a URL. */
  predicate KeysUnique(rows: seq<Subscription>) {
    forall i, j :: 0 <= i < j < |rows| ==> rows[i].title != rows[j].title && rows[i].url != rows[j].url
  }

  /** Whether inserting (title, url) violates a constraint against `row`. */
  predicate Clashes(row: Subscription, title: string, url: string) {
    row.title == title || row.url == url
  }

  function Avoids(title: string, url: string): Subscription -> bool {
    row => !Clashes(row, title, url)
  }

  /** `INSERT OR REPLACE INTO FEEDS (TITLE, URL) VALUES (title, url)`. */
  function Upserted(rows: seq<Subscription>, title: string, url: string): (r: seq<Subscription>)
    ensures Subscription(title, url) in r
    ensures forall row :: row in r && Clashes(row, title, url) ==> row == Subscription(title, url)
    ensures forall row :: row in r && row != Subscription(title, url) ==> row in rows
    ensures forall row :: row in rows && !Clashes(row, title, url) ==> row in r
  {
    Filter(rows, Avoids(title, url)) + [Subscription(title, url)]
  }

  /** An upsert keeps both FEEDS constraints. */
  lemma UpsertKeepsKeysUnique(rows: seq<Subscription>, title: string, url: string)
    requires KeysUnique(rows)
    ensures KeysUnique(Upserted(rows, title, url))
  {
    KeysUniqueFilter(rows, Avoids(title, url));
    KeysUniqueSnoc(Filter(rows, Avoids(title, url)), Subscription(title, url));
  }

  lemma KeysUniqueSnoc(rows: seq<Subscription>, last: Subscription)
    requires KeysUnique(rows)
    requires forall row :: row in rows ==> !Clashes(row, last.title, last.url)
    ensures KeysUnique(rows + [last])
  {
    var s := rows + [last];
    forall i, j | 0 <= i < j < |s| ensures s[i].title != s[j].title && s[i].url != s[j].url {
      if j == |rows| {
        assert s[i] in rows;
      }
    }
  }

  lemma {:induction false} KeysUniqueFilter(rows: seq<Subscription>, keep: Subscription -> bool)
    requires KeysUnique(rows)
    ensures KeysUnique(Filter(rows, keep))
  {
    if rows != [] {
      var tail := rows[1..];
      assert KeysUnique(tail) by {
        forall i, j | 0 <= i < j < |tail| ensures tail[i].title != tail[j].title && tail[i].url != tail[j].url {
          assert tail[i] == rows[i + 1] && tail[j] == rows[j + 1];
        }
      }
      KeysUniqueFilter(tail, keep);
      var rest := Filter(tail, keep);
      if keep(rows[0]) {
        var s := [rows[0]] + rest;
        forall i, j | 0 <= i < j < |s| ensures s[i].title != s[j].title && s[i].url != s[j].url {
          if i == 0 {
            assert s[j] in tail;
            var m :| 0 <= m < |tail| && tail[m] == s[j];
            assert rows[m + 1] == s[j];
          } else {
            assert s[i] == rest[i - 1] && s[j] == rest[j - 1];
          }
        }
      }
    }
  }

  /** An outline names a feed exactly when its type is "rss" and it carries an xmlUrl. */
  predicate IsFeedOutline(o: Outline) {
    o.kind == Some(RSS_TYPE) && o.xmlUrl.Some?
  }

  /** The effect on FEEDS of one top-level outline: only an "rss" outline with an xmlUrl writes;
      a non-"rss" type, a missing type or a missing xmlUrl is reported and skipped. */
  function ImportOutline(rows: seq<Subscription>, o: Outline): (r: seq<Subscription>)
    ensures IsFeedOutline(o) ==> r == Upserted(rows, o.text, o.xmlUrl.value)
    ensures !IsFeedOutline(o) ==> r == rows
  {
    match o.kind
    case None => rows
    case Some(kind) =>
      if kind == RSS_TYPE then
        match o.xmlUrl
        case Some(url) => Upserted(rows, o.text, url)
        case None => rows
      else rows
  }

  /** FEEDS after importing the top-level outlines of an OPML body in order. */
  function ImportAll(rows: seq<Subscription>, outlines: seq<Outline>): (r: seq<Subscription>)
    decreases |outlines|
  {
    if outlines == [] then rows
    else ImportOutline(ImportAll(rows, outlines[..|outlines| - 1]), outlines[|outlines| - 1])
  }

  /** An import never breaks the FEEDS constraints. */
  lemma {:induction false} ImportKeepsKeysUnique(rows: seq<Subscription>, outlines: seq<Outline>)
    requires KeysUnique(rows)
    ensures KeysUnique(ImportAll(rows, outlines))
  {
    if outlines != [] {
      var init := outlines[..|outlines| - 1];
      var o := outlines[|outlines| - 1];
      ImportKeepsKeysUnique(rows, init);
      if IsFeedOutline(o) {
        UpsertKeepsKeysUnique(ImportAll(rows, init), o.text, o.xmlUrl.value);
      }
    }
  }

  /** Some feed outline among `outlines` would evict `row`. */
  predicate ClashesWithImport(row: Subscription, outlines: seq<Outline>) {
    exists k :: 0 <= k < |outlines| && IsFeedOutline(outlines[k]) && Clashes(row, outlines[k].text, outlines[k].xmlUrl.value)
  }

  function SurvivesImport(outlines: seq<Outline>): Subscription -> bool {
    row => !ClashesWithImport(row, outlines)
  }

  /** The prior rows an import leaves in place. */
  function Survivors(rows: seq<Subscription>, outlines: seq<Outline>): seq<Subscription> {
    Filter(rows, SurvivesImport(outlines))
  }

  lemma ClashesWithImportSnoc(row: Subscription, outlines: seq<Outline>, o: Outline)
    ensures ClashesWithImport(row, outlines + [o])
        == (ClashesWithImport(row, outlines) || (IsFeedOutline(o) && Clashes(row, o.text, o.xmlUrl.value)))
  {
    var s := outlines + [o];
    if ClashesWithImport(row, s) {
      var k :| 0 <= k < |s| && IsFeedOutline(s[k]) && Clashes(row, s[k].text, s[k].xmlUrl.value);
      if k < |outlines| {
        assert s[k] == outlines[k];
      }
    }
    if ClashesWithImport(row, outlines) {
      var k :| 0 <= k < |outlines| && IsFeedOutline(outlines[k]) && Clashes(row, outlines[k].text, outlines[k].xmlUrl.value);
      assert s[k] == outlines[k];
    }
    if IsFeedOutline(o) && Clashes(row, o.text, o.xmlUrl.value) {
      assert s[|outlines|] == o;
    }
  }

  /** Every row an import leaves is a prior row or the pair of a top-level feed outline; the
      children of an outline never contribute. */
  lemma {:induction false} ImportProvenance(rows: seq<Subscription>, outlines: seq<Outline>)
    ensures forall row :: row in ImportAll(rows, outlines) ==>
      row in rows || exists k :: 0 <= k < |outlines| && IsFeedOutline(outlines[k]) && row == Subscription(outlines[k].text, outlines[k].xmlUrl.value)
  {
    if outlines != [] {
      var init := outlines[..|outlines| - 1];
      var o := outlines[|outlines| - 1];
      ImportProvenance(rows, init);
      forall row | row in ImportAll(rows, outlines)
        ensures row in rows || exists k :: 0 <= k < |outlines| && IsFeedOutline(outlines[k]) && row == Subscription(outlines[k].text, outlines[k].xmlUrl.value)
      {
        if row in ImportAll(rows, init) && !(row in rows) {
          var k :| 0 <= k < |init| && IsFeedOutline(init[k]) && row == Subscription(init[k].text, init[k].xmlUrl.value);
          assert outlines[k] == init[k];
        } else if row !in ImportAll(rows, init) {
          assert row == Subscription(o.text, o.xmlUrl.value);
        }
      }
    }
  }

  /** Last write wins: a feed outline's pair is in FEEDS after the import unless a later feed
      outline shares its title or its URL. */
  lemma {:induction false} ImportLastWins(rows: seq<Subscription>, outlines: seq<Outline>, k: nat)
    requires k < |outlines| && IsFeedOutline(outlines[k])
    requires forall j :: k < j < |outlines| && IsFeedOutline(outlines[j]) ==>
      !Clashes(Subscription(outlines[k].text, outlines[k].xmlUrl.value), outlines[j].text, outlines[j].xmlUrl.value)
    ensures Subscription(outlines[k].text, outlines[k].xmlUrl.value) in ImportAll(rows, outlines)
  {
    var init := outlines[..|outlines| - 1];
    var o := outlines[|outlines| - 1];
    if k < |outlines| - 1 {
      assert init[k] == outlines[k];
      forall j | k < j < |init| && IsFeedOutline(init[j])
        ensures !Clashes(Subscription(init[k].text, init[k].xmlUrl.value), init[j].text, init[j].xmlUrl.value)
      {
        assert init[j] == outlines[j];
      }
      ImportLastWins(rows, init, k);
    }
  }

  /** Closed form of an import: the prior rows no feed outline clashes with, followed by what
      the same outlines give on an empty table. */
  lemma {:induction false} ImportAllSplits(rows: seq<Subscription>, outlines: seq<Outline>)
    ensures ImportAll(rows, outlines) == Survivors(rows, outlines) + ImportAll([], outlines)
  {
    if outlines == [] {
      FilterKeepsAll(rows, SurvivesImport(outlines));
    } else {
      var init := outlines[..|outlines| - 1];
      var o := outlines[|outlines| - 1];
      assert outlines == init + [o];
      ImportAllSplits(rows, init);
      forall row ensures ClashesWithImport(row, outlines)
        == (ClashesWithImport(row, init) || (IsFeedOutline(o) && Clashes(row, o.text, o.xmlUrl.value)))
      {
        ClashesWithImportSnoc(row, init, o);
      }
      if IsFeedOutline(o) {
        var t, u := o.text, o.xmlUrl.value;
        FilterConcat(Survivors(rows, init), ImportAll([], init), Avoids(t, u));
        FilterFilter(rows, SurvivesImport(init), Avoids(t, u), SurvivesImport(outlines));
      } else {
        FilterFilter(rows, SurvivesImport(init), SurvivesImport(init), SurvivesImport(outlines));
        FilterFilter(rows, SurvivesImport(init), SurvivesImport(init), SurvivesImport(init));
      }
    }
  }

  /** Every row an import writes clashes with the import, so a second pass evicts it. */
  lemma ImportedRowsEvicted(outlines: seq<Outline>)
    ensures Survivors(ImportAll([], outlines), outlines) == []
  {
    var onEmpty := ImportAll([], outlines);
    ImportProvenance([], outlines);
    forall row | row in onEmpty ensures !SurvivesImport(outlines)(row) {
      var k :| 0 <= k < |outlines| && IsFeedOutline(outlines[k]) && row == Subscription(outlines[k].text, outlines[k].xmlUrl.value);
      assert Clashes(row, outlines[k].text, outlines[k].xmlUrl.value);
    }
    FilterDropsAll(onEmpty, SurvivesImport(outlines));
  }

  /** Importing the same OPML body twice leaves FEEDS exactly as importing it once. */
  lemma ImportIdempotent(rows: seq<Subscription>, outlines: seq<Outline>)
    ensures ImportAll(ImportAll(rows, outlines), outlines) == ImportAll(rows, outlines)
  {
    var onEmpty := ImportAll([], outlines);
    var kept := Survivors(rows, outlines);
    var once := ImportAll(rows, outlines);
    assert once == kept + onEmpty by {
      ImportAllSplits(rows, outlines);
    }
    assert ImportAll(once, outlines) == Survivors(once, outlines) + onEmpty by {
      ImportAllSplits(once, outlines);
    }
    assert Survivors(once, outlines) == Survivors(kept, outlines) + Survivors(onEmpty, outlines) by {
      FilterConcat(kept, onEmpty, SurvivesImport(outlines));
    }
    assert Survivors(kept, outlines) == kept by {
      FilterFilter(rows, SurvivesImport(outlines), SurvivesImport(outlines), SurvivesImport(outlines));
    }
    assert Survivors(onEmpty, outlines) == [] by {
      ImportedRowsEvicted(outlines);
    }
    assert Survivors(once, outlines) == kept;
  }

  /** The import reads only the `text`, `type` and `xmlUrl` of the top-level outlines: two bodies
      that differ only in their nested outlines import identically. */
  lemma {:induction false} NestedOutlinesIgnored(rows: seq<Subscription>, a: seq<Outline>, b: seq<Outline>)
    requires |a| == |b|
    requires forall k :: 0 <= k < |a| ==> a[k].text == b[k].text && a[k].kind == b[k].kind && a[k].xmlUrl == b[k].xmlUrl
    ensures ImportAll(rows, a) == ImportAll(rows, b)
  {
    if a != [] {
      NestedOutlinesIgnored(rows, a[..|a| - 1], b[..|b| - 1]);
    }
  }

  /** Re-importing a title with a URL no other title holds replaces that title's URL and keeps
      the row count. */
  lemma ReimportReplacesUrl(rows: seq<Subscription>, k: nat, url: string)
    requires KeysUnique(rows) && k < |rows|
    requires forall j :: 0 <= j < |rows| && j != k ==> rows[j].url != url
    ensures |Upserted(rows, rows[k].title, url)| == |rows|
    ensures forall row :: row in Upserted(rows, rows[k].title, url) && row.title == rows[k].title ==> row.url == url
  {
    var t := rows[k].title;
    FilterDropsOne(rows, Avoids(t, url), k);
  }

  /** A title and URL that are both new add exactly one row, at the end. */
  lemma UpsertNewAppends(rows: seq<Subscription>, title: string, url: string)
    requires forall row :: row in rows ==> row.title != title && row.url != url
    ensures Upserted(rows, title, url) == rows + [Subscription(title, url)]
  {
    FilterKeepsAll(rows, Avoids(title, url));
  }
}
