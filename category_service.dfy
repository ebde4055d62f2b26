/** The category service: create, delete and update on the category table, and the paged listing
    of all categories. */
module CategoryService {
  import opened Domain
  import opened Store
  import opened Listing

  /** findByCategoryName finds a category: some stored category has exactly this name. */
  function NameInUse(categories: map<int, Category>, name: string): (r: bool)
    ensures forall k :: k in categories && categories[k].categoryName == name ==> r
    ensures categories == map[] ==> !r
  {
    exists k :: k in categories && categories[k].categoryName == name
  }

  /** No two stored categories share a name. */
  ghost predicate UniqueCategoryNames(categories: map<int, Category>) {
    forall j, k :: j in categories && k in categories && categories[j].categoryName == categories[k].categoryName ==> j == k
  }

  /** createCategory: a name that is already in use is refused with an APIException and nothing is
      saved; otherwise the category is saved under the next identity value. */
  method CreateCategory(catalog: Catalog, name: string) returns (r: Result<Category>)
    requires catalog.Valid()
    modifies catalog`categories, catalog`nextId
    ensures catalog.Valid() && catalog.products == old(catalog.products)
    ensures r.Err? <==> NameInUse(old(catalog.categories), name)
    ensures r.Err? ==>
      && r.error == APIException("category with the name " + name + " already exist ! ")
      && catalog.categories == old(catalog.categories) && catalog.nextId == old(catalog.nextId)
    ensures r.Ok? ==>
      && r.value == Category(old(catalog.nextId), name)
      && r.value.categoryId !in old(catalog.categories)
      && catalog.categories == old(catalog.categories)[r.value.categoryId := r.value]
  {
    if NameInUse(catalog.categories, name) {
      var found :| found in catalog.categories && catalog.categories[found].categoryName == name;
      return Err(APIException("category with the name " + catalog.categories[found].categoryName + " already exist ! "));
    }
    var id := catalog.NewId();
    var category := Category(id, name);
    catalog.categories := catalog.categories[id := category];
    r := Ok(category);
  }

  /** deleteCategory: an unknown id is a ResourceNotFoundException; otherwise exactly that category
      is deleted and returned. */
  method DeleteCategory(catalog: Catalog, categoryId: int) returns (r: Result<Category>)
    requires catalog.Valid()
    modifies catalog`categories
    ensures catalog.Valid()
    ensures r.Err? <==> categoryId !in old(catalog.categories)
    ensures r.Err? ==>
      && r.error == ResourceNotFound("category", "categoryId", IdValue(categoryId))
      && catalog.categories == old(catalog.categories)
    ensures r.Ok? ==>
      && r.value == old(catalog.categories)[categoryId]
      && catalog.categories == old(catalog.categories) - {categoryId}
  {
    if categoryId !in catalog.categories {
      return Err(ResourceNotFound("category", "categoryId", IdValue(categoryId)));
    }
    var category := catalog.categories[categoryId];
    catalog.categories := catalog.categories - {categoryId};
    r := Ok(category);
  }

  /** updateCategory: an unknown id is a ResourceNotFoundException; otherwise the request's name is
      saved under the given id. The name is not checked against the other categories. */
  method UpdateCategory(catalog: Catalog, categoryId: int, name: string) returns (r: Result<Category>)
    requires catalog.Valid()
    modifies catalog`categories
    ensures catalog.Valid()
    ensures r.Err? <==> categoryId !in old(catalog.categories)
    ensures r.Err? ==>
      && r.error == ResourceNotFound("category", "categoryId", IdValue(categoryId))
      && catalog.categories == old(catalog.categories)
    ensures r.Ok? ==>
      && r.value == Category(categoryId, name)
      && catalog.categories == old(catalog.categories)[categoryId := r.value]
  {
    if categoryId !in catalog.categories {
      return Err(ResourceNotFound("category", "categoryId", IdValue(categoryId)));
    }
    var category := Category(categoryId, name);
    catalog.categories := catalog.categories[categoryId := category];
    r := Ok(category);
  }

  /** getAllCategories: the requested page in the direction sortOrder selects, or EmptyReturnList
      when the page is empty. */
  function GetAllCategories(findAll: Query<Category>, pageNumber: int, pageSize: int, sortBy: string, sortOrder: string)
    : (r: Result<PageResponse<Category>>)
    ensures var page := findAll(PageRequest(pageNumber, pageSize, sortBy, SortFor(sortOrder)));
            && (r.Err? <==> page.content == [])
            && (r.Err? ==> r.error == EmptyReturnList("Category List is Empty"))
            && (r.Ok? ==> r.value == PageResponse(page.content, page.number, page.size, page.totalElements,
                                                  page.totalPages, page.last))
  {
    ListPage(findAll, pageNumber, pageSize, sortBy, sortOrder, EmptyReturnList("Category List is Empty"))
  }

  /** A category saved under a name nobody uses keeps the names unique. */
  lemma CreateKeepsNamesUnique(categories: map<int, Category>, categoryId: int, name: string)
    requires UniqueCategoryNames(categories) && !NameInUse(categories, name)
    ensures UniqueCategoryNames(categories[categoryId := Category(categoryId, name)])
  {
    var after := categories[categoryId := Category(categoryId, name)];
    forall j, k | j in after && k in after && after[j].categoryName == after[k].categoryName
      ensures j == k
    {
      if j != categoryId && k != categoryId {
        assert categories[j].categoryName == categories[k].categoryName;
      }
    }
  }

  /** Deleting a category keeps the names unique. */
  lemma DeleteKeepsNamesUnique(categories: map<int, Category>, categoryId: int)
    requires UniqueCategoryNames(categories)
    ensures UniqueCategoryNames(categories - {categoryId})
  {
  }

  /** updateCategory does not check names: renaming a stored category to the name of another stored
      category, which is the state UpdateCategory leaves, makes the names no longer unique. */
  lemma UpdateCanDuplicateCategoryName(categories: map<int, Category>, i: int, j: int)
    requires i in categories && j in categories && i != j
    ensures !UniqueCategoryNames(categories[j := Category(j, categories[i].categoryName)])
  {
    var after := categories[j := Category(j, categories[i].categoryName)];
    assert after[i].categoryName == after[j].categoryName;
  }
}
