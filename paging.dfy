/**
 * The paginator: GET the list-membership listing, append each page's
 * `results`, and follow `paging.next.link` until a page has no next link or
 * answers with a status other than 200.
 */
module Paging {
  import opened Basics
  import opened Slicing

  const ListingUrl: string := "https://api.hubapi.com/crm/v3/lists/9705/memberships"

  /**
   * What `data.get('paging', {}).get('next')` finds: nothing truthy (Absent),
   * a non-empty object without a 'link' key (LinkMissing), or a link. A null
   * or empty link is written Link("").
   */
  datatype NextField = Absent | LinkMissing | Link(url: string)

  /** One response of the listing endpoint; `results` may be missing from the body. */
  datatype Page = Page(status: int, results: Option<seq<int>>, next: NextField)

  /** What the loop does after a page: request url next, stop, or raise. */
  datatype Cursor = Follow(url: string) | Halt | Broken

  /** The IDs a page adds to all_results: `data.get('results', [])` on a 200, nothing otherwise. */
  function Contribution(p: Page): seq<int>
  {
    if p.status == StatusOk then p.results.GetOr([]) else []
  }

  function CursorOf(p: Page): Cursor
  {
    if p.status != StatusOk then Halt
    else match p.next
      case Absent => Halt
      case LinkMissing => Broken
      case Link(url) => if url == "" then Halt else Follow(url)
  }

  /** The responses end the walk: some page before the end of pages does not send the loop on. */
  predicate EndsWithin(pages: seq<Page>)
  {
    |pages| > 0 && (CursorOf(pages[0]).Follow? ==> EndsWithin(pages[1..]))
  }

  /**
   * The IDs the walk gathers, or the error that ends the run: the only
   * error the walk raises is the missing link, and the IDs of the first
   * page come first.
   */
  function Walk(pages: seq<Page>): (r: Result<seq<int>, RunError>)
    requires EndsWithin(pages)
    ensures r.Failure? ==> r.error == MissingNextLink
    ensures r.Success? ==> Contribution(pages[0]) <= r.value
  {
    match CursorOf(pages[0])
    case Follow(_) => Prefixed(Contribution(pages[0]), Walk(pages[1..]))
    case Halt => Success(Contribution(pages[0]))
    case Broken => Failure(MissingNextLink)
  }

  /** The URLs requested, the first being url. */
  function Urls(url: string, pages: seq<Page>): (u: seq<string>)
    requires EndsWithin(pages)
    ensures 1 <= |u| <= |pages| && u[0] == url
    decreases |pages|
  {
    match CursorOf(pages[0])
    case Follow(next) => [url] + Urls(next, pages[1..])
    case _ => [url]
  }

  function Contributions(pages: seq<Page>): seq<seq<int>>
  {
    seq(|pages|, i requires 0 <= i < |pages| => Contribution(pages[i]))
  }

  /**
   * The walk requests n pages: the first at url, each next one at the link
   * of the page before, every page but the last sending it on and the last
   * not. It gathers the in-order concatenation of those n pages'
   * contributions, unless the last one has a next object without a link.
   */
  lemma {:induction false} WalkShape(url: string, pages: seq<Page>)
    requires EndsWithin(pages)
    ensures var n := |Urls(url, pages)|;
      && 1 <= n <= |pages|
      && Urls(url, pages)[0] == url
      && (forall j :: 0 <= j < n - 1 ==>
            CursorOf(pages[j]).Follow? && Urls(url, pages)[j + 1] == CursorOf(pages[j]).url)
      && !CursorOf(pages[n - 1]).Follow?
      && Walk(pages) == if CursorOf(pages[n - 1]).Broken? then Failure(MissingNextLink)
                        else Success(Flatten(Contributions(pages[..n])))
    decreases |pages|
  {
    var n := |Urls(url, pages)|;
    match CursorOf(pages[0])
    case Follow(next) =>
      WalkShape(next, pages[1..]);
      var tail := pages[1..];
      var m := |Urls(next, tail)|;
      assert n == m + 1;
      assert Contributions(pages[..n]) == [Contribution(pages[0])] + Contributions(tail[..m]);
      forall j | 0 <= j < n - 1
        ensures CursorOf(pages[j]).Follow? && Urls(url, pages)[j + 1] == CursorOf(pages[j]).url
      {
        if j > 0 {
          assert pages[j] == tail[j - 1];
        }
      }
    case Halt =>
      assert Contributions(pages[..1]) == [Contribution(pages[0])];
      assert n == 1 && [Contribution(pages[0])][1..] == [];
      assert Flatten([Contribution(pages[0])]) == Contribution(pages[0]) + [] == Contribution(pages[0]);
      assert Walk(pages) == Success(Flatten(Contributions(pages[..n])));
    case Broken =>
  }

  /**
   * A non-200 page ends the walk and adds nothing, and the IDs of the pages
   * before it are kept.
   */
  lemma ErrorPageKeepsEarlierIds(pages: seq<Page>)
    requires EndsWithin(pages)
    requires pages[|Urls(ListingUrl, pages)| - 1].status != StatusOk
    ensures Walk(pages) == Success(Flatten(Contributions(pages[..|Urls(ListingUrl, pages)| - 1])))
  {
    var n := |Urls(ListingUrl, pages)|;
    WalkShape(ListingUrl, pages);
    assert pages[..n] == pages[..n - 1] + [pages[n - 1]];
    assert Contributions(pages[..n]) == Contributions(pages[..n - 1]) + [[]];
    FlattenAppend(Contributions(pages[..n - 1]), []);
    assert Flatten(Contributions(pages[..n - 1])) + [] == Flatten(Contributions(pages[..n - 1]));
  }

  /**
   * A 200 page without a `results` key adds nothing, and whether the walk
   * goes on depends on its next link alone.
   */
  lemma MissingResultsDoNotStop(p: Page, ids: seq<int>)
    requires p.status == StatusOk && p.results == None
    ensures Contribution(p) == []
    ensures CursorOf(p) == CursorOf(p.(results := Some(ids)))
    ensures p.next.Link? && p.next.url != "" ==> CursorOf(p) == Follow(p.next.url)
  {
  }

  /**
   * The pagination loop: all_results grows by each page's contribution and
   * next_url follows the links; a next object without a link raises.
   */
  method Paginate(pages: seq<Page>) returns (r: Result<seq<int>, RunError>, urls: seq<string>)
    requires EndsWithin(pages)
    ensures r == Walk(pages)
    ensures urls == Urls(ListingUrl, pages)
  {
    var allResults: seq<int> := [];
    var nextUrl := ListingUrl;
    var i := 0;
    urls := [];
    assert pages[0..] == pages;
    while nextUrl != ""
      invariant 0 <= i <= |pages|
      invariant nextUrl != "" ==>
        && EndsWithin(pages[i..])
        && Walk(pages) == Prefixed(allResults, Walk(pages[i..]))
        && Urls(ListingUrl, pages) == urls + Urls(nextUrl, pages[i..])
      invariant nextUrl == "" ==>
        && Walk(pages) == Success(allResults)
        && Urls(ListingUrl, pages) == urls
      decreases |pages| - i
    {
      var response := pages[i];
      ghost var before, rest := allResults, pages[i..];
      assert rest[0] == response && rest[1..] == pages[i + 1..];
      urls := urls + [nextUrl];
      i := i + 1;
      if response.status == StatusOk {
        allResults := allResults + response.results.GetOr([]);
        match response.next
        case Absent =>
          assert Walk(rest) == Success(response.results.GetOr([]));
          nextUrl := "";
        case LinkMissing =>
          r := Failure(MissingNextLink);
          return;
        case Link(url) =>
          nextUrl := url;
          if url != "" {
            PrefixedTwice(before, response.results.GetOr([]), Walk(pages[i..]));
          } else {
            assert Walk(rest) == Success(response.results.GetOr([]));
          }
      } else {
        assert Walk(rest) == Success([]) && before + [] == before;
        nextUrl := "";
      }
    }
    r := Success(allResults);
  }
}
