/** The feed hook: pages of ten rows requested by offset, appended on "load
    more", replaced on refresh and on a change of sort, and the `hasMore` rule
    that stops the infinite scroll. */
module Feed {
  import opened Base
  import Seqs
  import FeedTypes

  /** A row of the feed view; only its identity matters here. */
  datatype FeedItem = FeedItem(id: string)

  const LOAD_ERROR: string := "Error al cargar el feed"
  const PAGE_SIZE: nat := FeedTypes.FEED_PAGE_SIZE

  /** One request: the ordering (sort column, then `created_at` as the tie
      break) and the inclusive row range. */
  datatype Query = Query(column: string, ascending: bool, tieBreak: string, tieAscending: bool, from: nat, to: nat)

  /** The request for page `pageNum` under `sort`. */
  function Request(sort: FeedTypes.SortOption, pageNum: nat): (q: Query)
    ensures q.from == pageNum * PAGE_SIZE && q.to - q.from + 1 == PAGE_SIZE
    ensures q.column == FeedTypes.ConfigOf(sort).column && !q.ascending
    ensures q.tieBreak == "created_at" && !q.tieAscending
  {
    var config := FeedTypes.ConfigOf(sort);
    var from := pageNum * PAGE_SIZE;
    Query(config.column, config.ascending, "created_at", false, from, from + PAGE_SIZE - 1)
  }

  /** The pages tile the listing: each starts right after the previous one and
      every row offset falls on exactly one page. */
  lemma PagesTile(sort: FeedTypes.SortOption, p: nat, k: nat)
    ensures Request(sort, p).to + 1 == Request(sort, p + 1).from
    ensures Request(sort, p).from <= k <= Request(sort, p).to <==> p == k / PAGE_SIZE
  {
    var q := Request(sort, p);
    if q.from <= k <= q.to {
      assert PAGE_SIZE * p <= k < PAGE_SIZE * p + PAGE_SIZE;
    }
  }

  /** What a fetch yields: the rows (an absent result reads as none), or a
      thrown query error. */
  datatype Outcome = Rows(data: Option<seq<FeedItem>>) | Failed(thrown: Thrown)

  function Min(a: nat, b: nat): nat {
    if a < b then a else b
  }

  /** The rows page `p` of a fixed server listing holds: those of offsets
      `10p` to `10p + 9` that exist. */
  function PageOf(listing: seq<FeedItem>, p: nat): (r: seq<FeedItem>)
    ensures |r| <= PAGE_SIZE
    ensures |r| == PAGE_SIZE <==> |listing| >= PAGE_SIZE * (p + 1)
  {
    listing[Min(PAGE_SIZE * p, |listing|)..Min(PAGE_SIZE * p + PAGE_SIZE, |listing|)]
  }

  /** Appending page `p + 1` to the first `p + 1` pages gives the first
      `p + 2` pages, also when the listing runs out. */
  lemma AppendNextPage(listing: seq<FeedItem>, p: nat)
    ensures Seqs.Take(listing, PAGE_SIZE * (p + 1)) + PageOf(listing, p + 1)
      == Seqs.Take(listing, PAGE_SIZE * (p + 2))
  {
    var a := Min(PAGE_SIZE * (p + 1), |listing|);
    var b := Min(PAGE_SIZE * (p + 1) + PAGE_SIZE, |listing|);
    assert Seqs.Take(listing, PAGE_SIZE * (p + 1)) == listing[..a];
    assert PageOf(listing, p + 1) == listing[a..b];
    assert Seqs.Take(listing, PAGE_SIZE * (p + 2)) == listing[..b];
    assert listing[..b] == listing[..a] + listing[a..b];
  }

  /** Appending page `p + 2` instead, when the listing has a full page `p + 1`
      and its rows are distinct, leaves the first row of page `p + 1` out. */
  lemma AppendSkippedPage(listing: seq<FeedItem>, p: nat)
    requires |listing| >= PAGE_SIZE * (p + 2) && Seqs.NoDuplicates(listing)
    ensures listing[PAGE_SIZE * (p + 1)] !in Seqs.Take(listing, PAGE_SIZE * (p + 1)) + PageOf(listing, p + 2)
  {
    var k := PAGE_SIZE * (p + 1);
    var s := Seqs.Take(listing, k) + PageOf(listing, p + 2);
    var lo := Min(PAGE_SIZE * (p + 2), |listing|);
    assert lo == PAGE_SIZE * (p + 2);
    forall j | 0 <= j < |s| ensures s[j] != listing[k] {
      if j < k {
        assert s[j] == listing[j];
      } else {
        assert s[j] == listing[lo + (j - k)];
      }
    }
  }

  class Feed {
    var items: seq<FeedItem>
    var loading: bool
    var loadingMore: bool
    var error: Option<string>
    var hasMore: bool
    var sortBy: FeedTypes.SortOption
    var page: nat

    constructor ()
      ensures items == [] && loading && !loadingMore && error == None && hasMore
      ensures sortBy == FeedTypes.Popular && page == 0
    {
      items, loading, loadingMore, error, hasMore := [], true, false, None, true;
      sortBy, page := FeedTypes.Popular, 0;
    }

    /** The items are the first `page + 1` pages of `listing`. */
    ghost predicate Shows(listing: seq<FeedItem>)
      reads this
    {
      items == Seqs.Take(listing, PAGE_SIZE * (page + 1))
    }

    /** `fetchFeed(pageNum, sort, append)`: the rows are appended or replace
        the list, and `hasMore` says whether a full page came back; a failure
        sets the error and keeps items and `hasMore`. Both loading flags end
        false. */
    method FetchFeed(pageNum: nat, sort: FeedTypes.SortOption, append: bool, outcome: Outcome) returns (q: Query)
      modifies this`items, this`hasMore, this`error, this`loading, this`loadingMore
      ensures q == Request(sort, pageNum)
      ensures !loading && !loadingMore
      ensures outcome.Rows? ==>
        var results := outcome.data.GetOr([]);
        && items == (if append then old(items) + results else results)
        && (hasMore <==> |results| == PAGE_SIZE)
        && error == None
      ensures outcome.Failed? ==>
        items == old(items) && hasMore == old(hasMore) && error == Some(MessageOr(outcome.thrown, LOAD_ERROR))
    {
      if append {
        loadingMore := true;
      } else {
        loading := true;
      }
      error := None;
      q := Request(sort, pageNum);
      match outcome {
        case Rows(data) =>
          var results := data.GetOr([]);
          items := if append then items + results else results;
          hasMore := |results| == PAGE_SIZE;
        case Failed(thrown) =>
          error := Some(MessageOr(thrown, LOAD_ERROR));
      }
      loading, loadingMore := false, false;
    }

    /** The effect on `[sortBy]` and `refresh()`: back to page 0, replacing
        the items. */
    method Reload(outcome: Outcome, ghost listing: seq<FeedItem>) returns (q: Query)
      modifies this`items, this`hasMore, this`error, this`loading, this`loadingMore, this`page
      ensures page == 0 && q == Request(sortBy, 0) && !loading && !loadingMore
      ensures outcome.Rows? ==>
        items == outcome.data.GetOr([]) && (hasMore <==> |items| == PAGE_SIZE) && error == None
      ensures outcome.Failed? ==>
        items == old(items) && hasMore == old(hasMore) && error == Some(MessageOr(outcome.thrown, LOAD_ERROR))
      ensures outcome == Rows(Some(PageOf(listing, 0))) ==> Shows(listing)
    {
      page := 0;
      q := FetchFeed(0, sortBy, false, outcome);
    }

    /** `setSortBy(sort)`: a new sort reloads from page 0; choosing the
        current sort changes no state, so the effect does not run. */
    method SetSortBy(sort: FeedTypes.SortOption, outcome: Outcome) returns (q: Option<Query>)
      modifies this`items, this`hasMore, this`error, this`loading, this`loadingMore, this`page, this`sortBy
      ensures sortBy == sort
      ensures sort == old(sortBy) ==> q.None? && unchanged(this)
      ensures sort != old(sortBy) ==>
        q == Some(Request(sort, 0)) && page == 0 && !loading && !loadingMore
      ensures sort != old(sortBy) && outcome.Rows? ==>
        items == outcome.data.GetOr([]) && (hasMore <==> |items| == PAGE_SIZE) && error == None
      ensures sort != old(sortBy) && outcome.Failed? ==>
        items == old(items) && hasMore == old(hasMore) && error == Some(MessageOr(outcome.thrown, LOAD_ERROR))
    {
      q := None;
      if sort != sortBy {
        sortBy := sort;
        var r := Reload(outcome, []);
        q := Some(r);
      }
    }

    /** `loadMore()` as written: ignored while loading or when no more rows
        are expected; otherwise the page number is advanced and the next page
        appended. The page is advanced before the fetch, also when it fails. */
    method LoadMore(outcome: Outcome, ghost listing: seq<FeedItem>) returns (q: Option<Query>)
      modifies this`items, this`hasMore, this`error, this`loading, this`loadingMore, this`page
      ensures old(loading || loadingMore || !hasMore) ==> q.None? && unchanged(this)
      ensures !old(loading || loadingMore || !hasMore) ==>
        q == Some(Request(sortBy, old(page) + 1)) && page == old(page) + 1 && !loading && !loadingMore
        && (outcome.Rows? ==>
              items == old(items) + outcome.data.GetOr([])
              && (hasMore <==> |outcome.data.GetOr([])| == PAGE_SIZE) && error == None)
        && (outcome.Failed? ==>
              items == old(items) && hasMore && error == Some(MessageOr(outcome.thrown, LOAD_ERROR)))
      ensures old(Shows(listing)) && outcome == Rows(Some(PageOf(listing, old(page) + 1))) ==> Shows(listing)
    {
      q := None;
      if loading || loadingMore || !hasMore {
        return;
      }
      AppendNextPage(listing, page);
      var next := page + 1;
      page := next;
      var r := FetchFeed(next, sortBy, true, outcome);
      q := Some(r);
    }

    /** `loadMore()` with the page advanced only once its rows have arrived: a
        failed fetch leaves the page where it was, so a retry asks for the same
        page, and the items stay the leading pages of the listing. */
    method LoadMoreCorrected(outcome: Outcome, ghost listing: seq<FeedItem>) returns (q: Option<Query>)
      modifies this`items, this`hasMore, this`error, this`loading, this`loadingMore, this`page
      ensures old(loading || loadingMore || !hasMore) ==> q.None? && unchanged(this)
      ensures !old(loading || loadingMore || !hasMore) ==>
        q == Some(Request(sortBy, old(page) + 1)) && !loading && !loadingMore
        && (outcome.Rows? ==>
              items == old(items) + outcome.data.GetOr([]) && page == old(page) + 1
              && (hasMore <==> |outcome.data.GetOr([])| == PAGE_SIZE) && error == None)
        && (outcome.Failed? ==>
              items == old(items) && page == old(page) && hasMore
              && error == Some(MessageOr(outcome.thrown, LOAD_ERROR)))
      ensures old(Shows(listing)) && (outcome.Failed? || outcome == Rows(Some(PageOf(listing, old(page) + 1))))
        ==> Shows(listing)
    {
      q := None;
      if loading || loadingMore || !hasMore {
        return;
      }
      AppendNextPage(listing, page);
      var next := page + 1;
      var r := FetchFeed(next, sortBy, true, outcome);
      if outcome.Rows? {
        page := next;
      }
      q := Some(r);
    }
  }

  /** A failed "load more" followed by a successful one skips a page: the
      second call asks for page `p + 2`, so the first row of page `p + 1`
      never reaches the list. */
  method FailedLoadMoreSkipsPage(f: Feed, listing: seq<FeedItem>, thrown: Thrown)
    requires f.Shows(listing) && !f.loading && !f.loadingMore && f.hasMore
    requires |listing| >= PAGE_SIZE * (f.page + 2) && Seqs.NoDuplicates(listing)
    modifies f
    ensures listing[PAGE_SIZE * (old(f.page) + 1)] !in f.items
    ensures !f.Shows(listing)
  {
    var p := f.page;
    var q1 := f.LoadMore(Failed(thrown), listing);
    var q2 := f.LoadMore(Rows(Some(PageOf(listing, p + 2))), listing);
    AppendSkippedPage(listing, p);
    assert listing[PAGE_SIZE * (p + 1)] in Seqs.Take(listing, PAGE_SIZE * (f.page + 1));
  }
}
