/** The paging-library types the data layer produces and consumes. */
module Paging {
  import opened Wrappers
  import opened Errors

  /** Why the paging engine asks the mediator to load. */
  datatype LoadType = REFRESH | PREPEND | APPEND

  /** `PagingSource.LoadResult.Page`: loaded items and the keys of the neighbouring pages. */
  datatype Page<T> = Page(data: seq<T>, prevKey: Option<int>, nextKey: Option<int>)

  /** `PagingSource.LoadResult`. */
  datatype LoadResult<T> = LoadPage(page: Page<T>) | LoadError(throwable: Exception) | LoadInvalid

  /** `RemoteMediator.MediatorResult`. */
  datatype MediatorResult = Success(endOfPaginationReached: bool) | Error(throwable: Exception)

  /** `RemoteMediator.InitializeAction`. */
  datatype InitializeAction = LAUNCH_INITIAL_REFRESH | SKIP_INITIAL_REFRESH
}
