/**
 * `CharacterSearchPagingSource` (data/remote/paging/CharacterSearchPagingSource.kt):
 * the uncached stream of search results, one remote page per load.
 */
module SearchPaging {
  import opened Wrappers
  import opened Errors
  import opened Models
  import opened Paging

  /** `STARTING_PAGE_INDEX`. */
  const STARTING_PAGE_INDEX := 1

  /**
   * `load`: fetches the page under `key` (page 1 without a key) for `name`.
   * A response becomes a page of its results with a next key when the
   * response has a `next` and a previous key past the first page; an HTTP 404
   * becomes an empty page without keys; any other exception an error carrying
   * it.
   */
  function Load(key: Option<int>, name: string, api: (int, string) -> Outcome<CharacterResponseDto>)
    : (r: LoadResult<CharacterDto>)
    ensures var page := key.GetOr(STARTING_PAGE_INDEX);
      match api(page, name)
      case Ok(response) =>
        r.LoadPage? && r.page.data == response.results &&
        (r.page.nextKey.Some? <==> response.info.next.Some?) &&
        (r.page.nextKey.Some? ==> r.page.nextKey.value == page + 1) &&
        (r.page.prevKey.Some? <==> page > STARTING_PAGE_INDEX) &&
        (r.page.prevKey.Some? ==> r.page.prevKey.value == page - 1)
      case Threw(e) =>
        if e.HttpException? && e.code == 404 then r == LoadPage(Page([], None, None))
        else r == LoadError(e)
  {
    var page := key.GetOr(STARTING_PAGE_INDEX);
    match api(page, name)
    case Ok(response) =>
      var nextKey := if response.info.next.Some? then Some(page + 1) else None;
      var prevKey := if page > STARTING_PAGE_INDEX then Some(page - 1) else None;
      LoadPage(Page(response.results, prevKey, nextKey))
    case Threw(e) =>
      if e.HttpException? && e.code == 404 then LoadPage(Page([], None, None))
      else LoadError(e)
  }

  /**
   * `getRefreshKey`: without an anchor position, or without a loaded page
   * closest to it, none; otherwise that page's `prevKey + 1`, else its
   * `nextKey - 1`.
   */
  function GetRefreshKey(anchorPosition: Option<int>, closestPage: Option<Page<CharacterDto>>): (key: Option<int>)
    ensures anchorPosition.None? || closestPage.None? ==> key.None?
    ensures anchorPosition.Some? && closestPage.Some? ==>
      (key.Some? <==> closestPage.value.prevKey.Some? || closestPage.value.nextKey.Some?)
    ensures anchorPosition.Some? && closestPage.Some? && closestPage.value.prevKey.Some? ==>
      key == Some(closestPage.value.prevKey.value + 1)
    ensures (anchorPosition.Some? && closestPage.Some? && closestPage.value.prevKey.None?
             && closestPage.value.nextKey.Some?) ==>
      key == Some(closestPage.value.nextKey.value - 1)
  {
    match anchorPosition
    case None => None
    case Some(_) =>
      match closestPage
      case None => None
      case Some(p) =>
        if p.prevKey.Some? then Some(p.prevKey.value + 1)
        else if p.nextKey.Some? then Some(p.nextKey.value - 1)
        else None
  }

  /**
   * Refreshing at a page this source loaded reloads that page: whenever the
   * loaded page has a key at all, the refresh key is the page it was loaded
   * from.
   */
  lemma RefreshKeyReloadsLoadedPage(key: Option<int>, name: string,
                                    api: (int, string) -> Outcome<CharacterResponseDto>, anchor: int)
    requires Load(key, name, api).LoadPage?
    requires var p := Load(key, name, api).page; p.prevKey.Some? || p.nextKey.Some?
    ensures GetRefreshKey(Some(anchor), Some(Load(key, name, api).page)) == Some(key.GetOr(STARTING_PAGE_INDEX))
  {
  }

  /** The page loaded first never has a previous key, so the stream cannot run before page 1. */
  lemma FirstPageHasNoPrevKey(name: string, api: (int, string) -> Outcome<CharacterResponseDto>)
    ensures Load(None, name, api).LoadPage? ==> Load(None, name, api).page.prevKey.None?
  {
  }

  /**
   * The empty last page stands exactly for the failures `toApiException`
   * classifies as not found; every other failure stays an error.
   */
  lemma EmptyPageIsNotFound(key: Option<int>, name: string, api: (int, string) -> Outcome<CharacterResponseDto>)
    requires api(key.GetOr(STARTING_PAGE_INDEX), name).Threw?
    ensures var e := api(key.GetOr(STARTING_PAGE_INDEX), name).exception;
      Load(key, name, api).LoadPage? <==> ToApiException(e).NotFoundException?
    ensures var e := api(key.GetOr(STARTING_PAGE_INDEX), name).exception;
      Load(key, name, api).LoadError? ==> Load(key, name, api).throwable == e
  {
    NotFoundOnlyFrom404(api(key.GetOr(STARTING_PAGE_INDEX), name).exception);
  }
}
