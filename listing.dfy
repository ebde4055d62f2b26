/** The paged listings shared by products and categories: the sort direction chosen from the
    request's sortOrder, the page request handed to the repository, and the response that copies
    the page's content and metadata. The repository's paging and sorting themselves are not
    modelled: a query is a function from page request to page. */
module Listing {
  import opened Text
  import opened Domain

  datatype SortDirection = Ascending | Descending

  /** PageRequest.of(pageNumber, pageSize, Sort.by(sortBy) in the chosen direction). */
  datatype PageRequest = PageRequest(pageNumber: int, pageSize: int, sortBy: string, direction: SortDirection)

  /** What a repository returns for a page request. */
  datatype Page<T> = Page(content: seq<T>, number: int, size: int, totalElements: int, totalPages: int, last: bool)

  /** ProductResponse and CategoryResponse: the content and the page's metadata. */
  datatype PageResponse<T> = PageResponse(
    content: seq<T>,
    pageNumber: int,
    pageSize: int,
    totalElements: int,
    totalPages: int,
    lastPage: bool)

  /** A paged repository query. */
  type Query<T> = PageRequest -> Page<T>

  /** The sort direction for a sortOrder: ascending for "asc" in any letter case, descending for
      everything else. */
  function SortFor(sortOrder: string): (d: SortDirection)
    ensures d == Ascending <==> EqualsIgnoreCase(sortOrder, "asc")
  {
    if EqualsIgnoreCase(sortOrder, "asc") then Ascending else Descending
  }

  function RequestFor(pageNumber: int, pageSize: int, sortBy: string, sortOrder: string): PageRequest {
    PageRequest(pageNumber, pageSize, sortBy, SortFor(sortOrder))
  }

  /** The response for a page: the page's content in order and its number, size, element and page
      counts and last-page flag. */
  function Respond<T>(page: Page<T>): (r: PageResponse<T>)
    ensures r.content == page.content && r.pageNumber == page.number && r.pageSize == page.size
    ensures r.totalElements == page.totalElements && r.totalPages == page.totalPages && r.lastPage == page.last
  {
    PageResponse(page.content, page.number, page.size, page.totalElements, page.totalPages, page.last)
  }

  /** The listing rule every paged service follows: query the page in the requested direction, fail
      with the given error when its content is empty, otherwise answer with the page. */
  function ListPage<T>(query: Query<T>, pageNumber: int, pageSize: int, sortBy: string, sortOrder: string,
                       whenEmpty: Error): (r: Result<PageResponse<T>>)
    ensures var page := query(PageRequest(pageNumber, pageSize, sortBy, SortFor(sortOrder)));
            && (r.Err? <==> page.content == [])
            && (r.Err? ==> r.error == whenEmpty)
            && (r.Ok? ==> r.value.content == page.content && r.value.pageNumber == page.number
                          && r.value.pageSize == page.size && r.value.totalElements == page.totalElements
                          && r.value.totalPages == page.totalPages && r.value.lastPage == page.last)
  {
    var page := query(RequestFor(pageNumber, pageSize, sortBy, sortOrder));
    if page.content == [] then Err(whenEmpty) else Ok(Respond(page))
  }

  /** "asc" in any case gives ascending order; "desc", "ascending" and the empty string, like every
      other value, give descending order. */
  lemma SortForExamples()
    ensures SortFor("asc") == Ascending && SortFor("ASC") == Ascending && SortFor("aSc") == Ascending
    ensures SortFor("desc") == Descending && SortFor("ascending") == Descending && SortFor("") == Descending
    ensures SortFor("as") == Descending
  {
    assert EqualsIgnoreCase("ASC", "asc") by {
      assert ToLowerAscii('A') == 'a' && ToLowerAscii('S') == 's' && ToLowerAscii('C') == 'c';
    }
    assert EqualsIgnoreCase("aSc", "asc") by {
      assert ToLowerAscii('S') == 's';
    }
    assert !EqualsIgnoreCase("desc", "asc") by {
      assert ToLowerAscii('d') != ToLowerAscii('a');
    }
  }
}
