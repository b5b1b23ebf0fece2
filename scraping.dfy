/** What the three scrapers share: how a link found in a page becomes the
    record's URL, and how the records of a page's items are collected. */
module Scraping {
  import opened Text
  import opened Records

  /** The record URL for an anchor's `href` ("" when the container has no
      anchor or the anchor no `href`): a relative link is prefixed with the
      site's base URL, and an empty one becomes the base URL itself. */
  function RecordUrl(base: string, href: string): (r: string)
    ensures href == "" ==> r == base
    ensures href != "" && !StartsWith(href, "http") ==> r == base + href
    ensures StartsWith(href, "http") ==> r == href
  {
    var url := if href != "" && !StartsWith(href, "http") then base + href else href;
    if url == "" then base else url
  }

  /** With an absolute base URL every record URL is absolute, and resolving
      it again changes nothing. */
  lemma RecordUrlAbsolute(base: string, href: string)
    requires StartsWith(base, "http")
    ensures StartsWith(RecordUrl(base, href), "http")
    ensures RecordUrl(base, RecordUrl(base, href)) == RecordUrl(base, href)
  {
    var r := RecordUrl(base, href);
    if href != "" && !StartsWith(href, "http") {
      assert r[..4] == base[..4];
    }
  }

  // ---------------------------------------------------------------------------
  // Collecting

  /** The records collected from a page's parsed items, in order: what
      `record` makes of each item (nothing, or the item's record),
      concatenated. */
  function Collect<C>(items: seq<C>, record: C -> seq<Idea>): seq<Idea> {
    if items == [] then []
    else Collect(items[..|items| - 1], record) + record(items[|items| - 1])
  }

  /** One more item adds what `record` makes of it at the end. */
  lemma CollectStep<C>(items: seq<C>, i: nat, record: C -> seq<Idea>)
    requires i < |items|
    ensures Collect(items[..i + 1], record) == Collect(items[..i], record) + record(items[i])
  {
    assert items[..i + 1][..i] == items[..i];
  }

  /** When each item yields at most one record, there are at most as many
      records as items. */
  lemma {:induction false} CollectLength<C>(items: seq<C>, record: C -> seq<Idea>)
    requires forall c :: |record(c)| <= 1
    ensures |Collect(items, record)| <= |items|
  {
    if items != [] {
      CollectLength(items[..|items| - 1], record);
    }
  }

  /** A property of every record any item yields holds of every collected
      record. */
  lemma {:induction false} CollectAll<C>(items: seq<C>, record: C -> seq<Idea>, p: Idea -> bool)
    requires forall c, x :: x in record(c) ==> p(x)
    ensures forall x :: x in Collect(items, record) ==> p(x)
  {
    if items != [] {
      CollectAll(items[..|items| - 1], record, p);
    }
  }

  /** The step of the per-page quota bounds: one more page of `q`. */
  lemma MulStep(n: nat, q: nat)
    ensures (n + 1) * q == n * q + q
  {
  }
}
