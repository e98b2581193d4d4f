/** `CategoryServiceImplementation` over the shared catalog tables. A
    thrown `RuntimeException` or `CategoryNotEmptyException` is a `Failure`
    carrying the exception and its message; the `@Transactional` rollback means a failing
    call leaves the tables as they were. */
module CategoryService {
  import opened Common
  import opened Catalog

  /** `CategoryRequest`: every field may be `null`. */
  datatype CategoryRequest = CategoryRequest(name: Option<string>, description: Option<string>, bgColor: Option<string>)

  /** `CategoryResponse` without the timestamps. */
  datatype CategoryResponse = CategoryResponse(
    categoryId: string, name: Option<string>, description: Option<string>, bgColor: Option<string>, itemsCount: nat)

  const NotEmptyMessage: string := "Cannot delete category with existing items. Please remove all items first."

  function NotFoundMessage(categoryId: string): string {
    "Category not found with id: " + categoryId
  }

  /** `convertToResponse`: the row's public fields, and as `itemsCount` the
      number of items that point at the row. */
  function ToResponse(c: CategoryRecord, items: seq<ItemRecord>): (r: CategoryResponse)
    ensures r.categoryId == c.categoryId && r.name == c.name && r.description == c.description && r.bgColor == c.bgColor
    ensures r.itemsCount == |ItemsOf(items, c.id)|
  {
    CountIsListLength(items, c.id);
    CategoryResponse(c.categoryId, c.name, c.description, c.bgColor, CountByCategory(items, c.id))
  }

  /** `createCategory`: one row with a fresh identity key, the random UUID
      `newCategoryId` and the request's fields is appended. No item points
      at a fresh key, so the response counts zero items. */
  method CreateCategory(store: Store, req: CategoryRequest, newCategoryId: string) returns (r: CategoryResponse)
    requires store.Valid()
    modifies store
    ensures store.Valid()
    ensures store.categories
         == old(store.categories) + [CategoryRecord(old(store.nextCategoryKey), newCategoryId, req.name, req.description, req.bgColor)]
    ensures store.items == old(store.items) && store.nextItemKey == old(store.nextItemKey)
    ensures store.nextCategoryKey == old(store.nextCategoryKey) + 1
    ensures r == CategoryResponse(newCategoryId, req.name, req.description, req.bgColor, 0)
  {
    var entity := CategoryRecord(store.nextCategoryKey, newCategoryId, req.name, req.description, req.bgColor);
    ZeroCountIff(store.items, entity.id);
    store.categories := store.categories + [entity];
    store.nextCategoryKey := store.nextCategoryKey + 1;
    forall i | 0 <= i < |store.items|
      ensures HasCategoryKey(store.categories, store.items[i].category)
    {
      var j :| 0 <= j < |old(store.categories)| && old(store.categories)[j].id == store.items[i].category;
      assert store.categories[j] == old(store.categories)[j];
    }
    r := ToResponse(entity, store.items);
  }

  /** `getAllCategories`: one response per row, in table order. */
  function GetAllCategories(store: Store): (r: seq<CategoryResponse>)
    reads store
    ensures |r| == |store.categories|
    ensures forall i :: 0 <= i < |r| ==> r[i] == ToResponse(store.categories[i], store.items)
  {
    seq(|store.categories|, i requires 0 <= i < |store.categories| reads store => ToResponse(store.categories[i], store.items))
  }

  /** `getCategoryById`: empty exactly when no row has that public id. */
  function GetCategoryById(store: Store, categoryId: string): (r: Option<CategoryResponse>)
    reads store
    ensures r.None? <==> forall j :: 0 <= j < |store.categories| ==> store.categories[j].categoryId != categoryId
    ensures r.Some? ==>
      exists j :: (0 <= j < |store.categories| && store.categories[j].categoryId == categoryId
                   && r.value == ToResponse(store.categories[j], store.items))
  {
    match FindCategory(store.categories, categoryId)
    case None => None
    case Some(j) => Some(ToResponse(store.categories[j], store.items))
  }

  /** The checks of `deleteCategory`: the row to remove, or the message of
      the exception thrown. */
  function CheckDeleteCategory(categories: seq<CategoryRecord>, items: seq<ItemRecord>, categoryId: string)
    : (r: Result<nat, CatalogError>)
    ensures r.Success? ==> r.value < |categories| && categories[r.value].categoryId == categoryId
    ensures r.Success? ==> forall i :: 0 <= i < |items| ==> items[i].category != categories[r.value].id
    ensures r == Failure(Runtime(NotFoundMessage(categoryId)))
        <==> forall j :: 0 <= j < |categories| ==> categories[j].categoryId != categoryId
    ensures r.Success? <==>
      (FindCategory(categories, categoryId).Some?
       && forall i :: 0 <= i < |items| ==> items[i].category != categories[FindCategory(categories, categoryId).value].id)
    ensures r == Failure(CategoryNotEmpty(NotEmptyMessage)) <==>
      (FindCategory(categories, categoryId).Some?
       && exists i :: 0 <= i < |items| && items[i].category == categories[FindCategory(categories, categoryId).value].id)
  {
    match FindCategory(categories, categoryId)
    case None => Failure(Runtime(NotFoundMessage(categoryId)))
    case Some(k) =>
      ZeroCountIff(items, categories[k].id);
      if CountByCategory(items, categories[k].id) > 0 then Failure(CategoryNotEmpty(NotEmptyMessage)) else Success(k)
  }

  /** `deleteCategory`: exactly the named row leaves the table when no item
      points at it; otherwise nothing changes. */
  method DeleteCategory(store: Store, categoryId: string) returns (r: Result<(), CatalogError>)
    requires store.Valid()
    modifies store
    ensures store.Valid()
    ensures store.items == old(store.items)
    ensures store.nextCategoryKey == old(store.nextCategoryKey) && store.nextItemKey == old(store.nextItemKey)
    ensures match CheckDeleteCategory(old(store.categories), old(store.items), categoryId)
      case Failure(e) => r == Failure(e) && store.categories == old(store.categories)
      case Success(k) => r == Success(()) && store.categories == RemoveAt(old(store.categories), k)
  {
    var found := FindCategory(store.categories, categoryId);
    if found.None? {
      return Failure(Runtime(NotFoundMessage(categoryId)));
    }
    var k := found.value;
    var itemCount := CountByCategory(store.items, store.categories[k].id);
    if itemCount > 0 {
      return Failure(CategoryNotEmpty(NotEmptyMessage));
    }
    ZeroCountIff(store.items, store.categories[k].id);
    RemoveUnreferencedCategory(store.categories, store.items, store.nextCategoryKey, store.nextItemKey, k);
    store.categories := RemoveAt(store.categories, k);
    r := Success(());
  }

  /** The row after `updateCategory`'s setters: each non-null request
      field overwrites its column, a null field keeps it; the keys never
      change. */
  function PatchCategory(c: CategoryRecord, req: CategoryRequest): (u: CategoryRecord)
    ensures u.id == c.id && u.categoryId == c.categoryId
    ensures req.name.Some? ==> u.name == req.name
    ensures req.name.None? ==> u.name == c.name
    ensures req.description.Some? ==> u.description == req.description
    ensures req.description.None? ==> u.description == c.description
    ensures req.bgColor.Some? ==> u.bgColor == req.bgColor
    ensures req.bgColor.None? ==> u.bgColor == c.bgColor
  {
    CategoryRecord(c.id, c.categoryId,
                   if req.name.Some? then req.name else c.name,
                   if req.description.Some? then req.description else c.description,
                   if req.bgColor.Some? then req.bgColor else c.bgColor)
  }

  /** `updateCategory`: the named row is patched in place and saved; an
      unknown id throws before anything is saved. */
  method UpdateCategory(store: Store, categoryId: string, req: CategoryRequest) returns (r: Result<CategoryResponse, CatalogError>)
    requires store.Valid()
    modifies store
    ensures store.Valid()
    ensures store.items == old(store.items)
    ensures store.nextCategoryKey == old(store.nextCategoryKey) && store.nextItemKey == old(store.nextItemKey)
    ensures match FindCategory(old(store.categories), categoryId)
      case None => r == Failure(Runtime(NotFoundMessage(categoryId))) && store.categories == old(store.categories)
      case Some(k) =>
        var row := PatchCategory(old(store.categories)[k], req);
        store.categories == old(store.categories)[k := row] && r == Success(ToResponse(row, store.items))
  {
    var found := FindCategory(store.categories, categoryId);
    if found.None? {
      return Failure(Runtime(NotFoundMessage(categoryId)));
    }
    var k := found.value;
    var entity := store.categories[k];
    if req.name.Some? {
      entity := entity.(name := req.name);
    }
    if req.description.Some? {
      entity := entity.(description := req.description);
    }
    if req.bgColor.Some? {
      entity := entity.(bgColor := req.bgColor);
    }
    store.categories := store.categories[k := entity];
    forall i | 0 <= i < |store.items|
      ensures HasCategoryKey(store.categories, store.items[i].category)
    {
      var j :| 0 <= j < |old(store.categories)| && old(store.categories)[j].id == store.items[i].category;
      assert store.categories[j].id == old(store.categories)[j].id;
    }
    r := Success(ToResponse(entity, store.items));
  }

  // ---------------------------------------------------------------------
  // Properties
  // ---------------------------------------------------------------------

  /** Patching with the same request twice is patching once. */
  lemma PatchIdempotent(c: CategoryRecord, req: CategoryRequest)
    ensures PatchCategory(PatchCategory(c, req), req) == PatchCategory(c, req)
  {
  }

  /** `updateCategory` is idempotent on the table: the second call finds the
      same row and writes what is already there. */
  lemma UpdateIdempotent(categories: seq<CategoryRecord>, categoryId: string, req: CategoryRequest)
    requires FindCategory(categories, categoryId).Some?
    ensures var k := FindCategory(categories, categoryId).value;
      var once := categories[k := PatchCategory(categories[k], req)];
      && FindCategory(once, categoryId) == Some(k)
      && once[k := PatchCategory(once[k], req)] == once
  {
    var k := FindCategory(categories, categoryId).value;
    var once := categories[k := PatchCategory(categories[k], req)];
    assert once[k].categoryId == categoryId;
    assert forall j :: 0 <= j < k ==> once[j] == categories[j];
    match FindCategory(once, categoryId)
    case None =>
    case Some(k') =>
      assert k' == k;
  }

  /** A created category can be looked up by its fresh UUID and reports
      zero items. */
  lemma CreatedCategoryFound(categories: seq<CategoryRecord>, items: seq<ItemRecord>, req: CategoryRequest,
                             key: nat, newCategoryId: string)
    requires forall j :: 0 <= j < |categories| ==> categories[j].categoryId != newCategoryId
    requires forall i :: 0 <= i < |items| ==> items[i].category != key
    ensures var after := categories + [CategoryRecord(key, newCategoryId, req.name, req.description, req.bgColor)];
      FindCategory(after, newCategoryId) == Some(|categories|)
      && ToResponse(after[|categories|], items).itemsCount == 0
  {
    var after := categories + [CategoryRecord(key, newCategoryId, req.name, req.description, req.bgColor)];
    assert after[|categories|].categoryId == newCategoryId;
    ZeroCountIff(items, key);
    CountIsListLength(items, key);
  }
}
