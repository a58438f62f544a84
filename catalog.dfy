/**
 * The catalog side of a conversion: playlist items, the pages the catalog
 * returns, and the loop that follows `next` links until none is left.
 */
module Catalog {
  import opened Wrappers

  /**
   * One playlist item. `EmptyItem` is an item whose `track` is absent, null or
   * an empty object; `TrackItem` is a non-empty track object whose `name` and
   * `artists` keys may be absent. An artist is given by its `name`.
   */
  datatype Item = EmptyItem | TrackItem(name: Option<string>, artists: Option<seq<string>>)

  /** One page of a paged response: its `items` and whether `next` is set. */
  datatype Page = Page(items: seq<Item>, hasNext: bool)

  /** What the catalog answers when asked for a playlist's metadata. */
  datatype Lookup =
    | Found(name: Option<string>)
    | HttpError(status: int)   // the client raised its API exception with this HTTP status
    | Unreachable              // any other exception

  /** The items of `pages`, page after page, in page order. */
  function ItemsOf(pages: seq<Page>): seq<Item> {
    if pages == [] then [] else ItemsOf(pages[..|pages| - 1]) + pages[|pages| - 1].items
  }

  lemma {:induction false} ItemsOfConcat(a: seq<Page>, b: seq<Page>)
    ensures ItemsOf(a + b) == ItemsOf(a) + ItemsOf(b)
    decreases |b|
  {
    if b == [] {
      assert a + b == a;
    } else {
      var last := |b| - 1;
      assert (a + b)[..|a + b| - 1] == a + b[..last];
      ItemsOfConcat(a, b[..last]);
    }
  }

  /** The number of items collected is the sum of the page sizes. */
  function TotalItems(pages: seq<Page>): nat {
    if pages == [] then 0 else |pages[0].items| + TotalItems(pages[1..])
  }

  lemma {:induction false} ItemsOfLength(pages: seq<Page>)
    ensures |ItemsOf(pages)| == TotalItems(pages)
    decreases |pages|
  {
    if pages != [] {
      ItemsOfConcat([pages[0]], pages[1..]);
      assert [pages[0]] + pages[1..] == pages;
      assert ItemsOf([pages[0]]) == pages[0].items by {
        assert [pages[0]][..0] == [];
      }
      ItemsOfLength(pages[1..]);
    }
  }

  /**
   * Collects a playlist's items. `pages[0]` is the answer to the first request and
   * `pages[k + 1]` the answer to following the `next` of `pages[k]`; a request past
   * the end of `pages` raises. `fetched` is the number of pages received. On
   * success the pages received are exactly those up to the first without `next`,
   * and the result is their items in order; `None` means a request raised.
   */
  method CollectTracks(pages: seq<Page>) returns (tracks: Option<seq<Item>>, fetched: nat)
    ensures fetched <= |pages|
    ensures forall j :: 0 <= j < fetched - 1 ==> pages[j].hasNext
    ensures tracks.Some? <==> 0 < fetched && !pages[fetched - 1].hasNext
    ensures tracks.Some? ==> tracks.value == ItemsOf(pages[..fetched])
    ensures tracks.None? ==> fetched == |pages| && forall j :: 0 <= j < |pages| ==> pages[j].hasNext
  {
    if |pages| == 0 {
      return None, 0;
    }
    var results := pages[0];
    var acc := results.items;
    fetched := 1;
    assert pages[..1][..0] == [];
    while results.hasNext
      invariant 1 <= fetched <= |pages|
      invariant results == pages[fetched - 1]
      invariant forall j :: 0 <= j < fetched - 1 ==> pages[j].hasNext
      invariant acc == ItemsOf(pages[..fetched])
      decreases |pages| - fetched
    {
      if fetched == |pages| {
        return None, fetched;
      }
      results := pages[fetched];
      acc := acc + results.items;
      fetched := fetched + 1;
      assert pages[..fetched][..fetched - 1] == pages[..fetched - 1];
    }
    tracks := Some(acc);
  }

  /** The first `k` pages are what a successful collection receives: all but the last have `next`. */
  predicate Collects(pages: seq<Page>, k: nat) {
    0 < k <= |pages| && !pages[k - 1].hasNext && forall j :: 0 <= j < k - 1 ==> pages[j].hasNext
  }
}
