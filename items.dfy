/** `ItemServiceImplementation` over the shared catalog tables. Thrown
    exceptions are `Failure`s; a failing call leaves the tables as they
    were. */
module ItemService {
  import opened Common
  import opened Catalog

  /** `ItemRequest`: every field may be `null`. */
  datatype ItemRequest = ItemRequest(name: Option<string>, description: Option<string>, price: Option<Price>, categoryId: Option<string>)

  /** `ItemResponse` without the timestamps: the item's public fields and
      its category's public id and name. */
  datatype ItemResponse = ItemResponse(
    itemId: string, name: Option<string>, description: Option<string>, price: Option<Price>,
    categoryId: string, categoryName: Option<string>)

  const InvalidCategory: CatalogError := IllegalArgument("Invalid category ID")

  function ItemNotFound(itemId: string): CatalogError {
    Runtime("Item not found with id: " + itemId)
  }

  /** `findByCategoryId(request.getCategoryId())`; a `null` id matches no
      row. */
  function ResolveCategory(categories: seq<CategoryRecord>, categoryId: Option<string>): (r: Option<nat>)
    ensures r.Some? ==> categoryId.Some? && r.value < |categories| && categories[r.value].categoryId == categoryId.value
    ensures r.None? <==>
      (categoryId.None? || forall j :: 0 <= j < |categories| ==> categories[j].categoryId != categoryId.value)
  {
    if categoryId.None? then None else FindCategory(categories, categoryId.value)
  }

  /** `convertToResponse`: the item's category is read through its key. */
  function ToResponse(it: ItemRecord, categories: seq<CategoryRecord>): (r: ItemResponse)
    requires HasCategoryKey(categories, it.category)
    ensures r.itemId == it.itemId && r.name == it.name && r.description == it.description && r.price == it.price
    ensures exists j :: (0 <= j < |categories| && categories[j].id == it.category
                         && r.categoryId == categories[j].categoryId && r.categoryName == categories[j].name)
  {
    var c := categories[CategoryByKey(categories, it.category).value];
    ItemResponse(it.itemId, it.name, it.description, it.price, c.categoryId, c.name)
  }

  /** `createItem`: an unresolvable category id throws before anything is
      saved; otherwise one row with a fresh key, the random UUID
      `newItemId`, the request's fields and the resolved category is
      appended. */
  method CreateItem(store: Store, req: ItemRequest, newItemId: string) returns (r: Result<ItemResponse, CatalogError>)
    requires store.Valid()
    modifies store
    ensures store.Valid()
    ensures store.categories == old(store.categories) && store.nextCategoryKey == old(store.nextCategoryKey)
    ensures match ResolveCategory(old(store.categories), req.categoryId)
      case None =>
        r == Failure(InvalidCategory) && store.items == old(store.items) && store.nextItemKey == old(store.nextItemKey)
      case Some(k) =>
        var row := ItemRecord(old(store.nextItemKey), newItemId, req.name, req.description, req.price,
                              old(store.categories)[k].id);
        && store.items == old(store.items) + [row]
        && store.nextItemKey == old(store.nextItemKey) + 1
        && r.Success? && r.value.categoryId == req.categoryId.value
        && r.value == ToResponse(row, store.categories)
  {
    var category := ResolveCategory(store.categories, req.categoryId);
    if category.None? {
      return Failure(InvalidCategory);
    }
    var k := category.value;
    var entity := ItemRecord(store.nextItemKey, newItemId, req.name, req.description, req.price, store.categories[k].id);
    assert HasCategoryKey(store.categories, entity.category);
    store.items := store.items + [entity];
    store.nextItemKey := store.nextItemKey + 1;
    var resp := ToResponse(entity, store.categories);
    assert CategoryByKey(store.categories, entity.category) == Some(k);
    r := Success(resp);
  }

  /** `getItemsByCategory`: an unknown category throws; otherwise the
      items that point at its key, in table order. */
  function GetItemsByCategory(store: Store, categoryId: string): (r: Result<seq<ItemResponse>, CatalogError>)
    reads store
    requires store.Valid()
    ensures r.Failure? <==> forall j :: 0 <= j < |store.categories| ==> store.categories[j].categoryId != categoryId
    ensures r.Failure? ==> r.error == InvalidCategory
    ensures r.Success? ==>
      var k := FindCategory(store.categories, categoryId).value;
      |r.value| == |ItemsOf(store.items, store.categories[k].id)|
      && forall i :: 0 <= i < |r.value| ==> r.value[i] == ToResponse(ItemsOf(store.items, store.categories[k].id)[i], store.categories)
  {
    match FindCategory(store.categories, categoryId)
    case None => Failure(InvalidCategory)
    case Some(k) =>
      var list := ItemsOf(store.items, store.categories[k].id);
      var categories := store.categories;
      assert forall i :: 0 <= i < |list| ==> HasCategoryKey(categories, list[i].category) by {
        assert forall i :: 0 <= i < |list| ==> list[i] in store.items;
      }
      Success(seq(|list|, i requires 0 <= i < |list| && HasCategoryKey(categories, list[i].category)
                            => ToResponse(list[i], categories)))
  }

  /** `countItemsByCategory`: an unknown category throws; otherwise the
      count query for its key. */
  function CountItemsByCategory(store: Store, categoryId: string): (r: Result<nat, CatalogError>)
    reads store
    ensures r.Failure? <==> forall j :: 0 <= j < |store.categories| ==> store.categories[j].categoryId != categoryId
    ensures r.Failure? ==> r.error == InvalidCategory
  {
    match FindCategory(store.categories, categoryId)
    case None => Failure(InvalidCategory)
    case Some(k) => Success(CountByCategory(store.items, store.categories[k].id))
  }

  /** `deleteItem`: exactly the named row leaves the table; an unknown id
      throws and nothing changes. */
  method DeleteItem(store: Store, itemId: string) returns (r: Result<(), CatalogError>)
    requires store.Valid()
    modifies store
    ensures store.Valid()
    ensures store.categories == old(store.categories)
    ensures store.nextCategoryKey == old(store.nextCategoryKey) && store.nextItemKey == old(store.nextItemKey)
    ensures match FindItem(old(store.items), itemId)
      case None => r == Failure(ItemNotFound(itemId)) && store.items == old(store.items)
      case Some(k) => r == Success(()) && store.items == RemoveAt(old(store.items), k)
  {
    var found := FindItem(store.items, itemId);
    if found.None? {
      return Failure(ItemNotFound(itemId));
    }
    RemoveItem(store.categories, store.items, store.nextCategoryKey, store.nextItemKey, found.value);
    store.items := RemoveAt(store.items, found.value);
    r := Success(());
  }

  /** The checks and setters of `updateItem`: the row to overwrite and its
      new value, or the exception. Each non-null field overwrites, a null
      one keeps; a non-null category id must resolve. */
  function PlanItemUpdate(categories: seq<CategoryRecord>, items: seq<ItemRecord>, itemId: string, req: ItemRequest)
    : (r: Result<(nat, ItemRecord), CatalogError>)
    ensures r == Failure(ItemNotFound(itemId)) <==> forall j :: 0 <= j < |items| ==> items[j].itemId != itemId
    ensures r == Failure(InvalidCategory) <==>
      (FindItem(items, itemId).Some? && req.categoryId.Some? && ResolveCategory(categories, req.categoryId).None?)
    ensures r.Success? <==>
      FindItem(items, itemId).Some? && (req.categoryId.None? || ResolveCategory(categories, req.categoryId).Some?)
    ensures r.Success? ==>
      var (k, u) := r.value;
      && FindItem(items, itemId) == Some(k)
      && u.id == items[k].id && u.itemId == items[k].itemId
      && u.name == (if req.name.Some? then req.name else items[k].name)
      && u.description == (if req.description.Some? then req.description else items[k].description)
      && u.price == (if req.price.Some? then req.price else items[k].price)
      && (req.categoryId.None? ==> u.category == items[k].category)
      && (req.categoryId.Some? ==>
            exists j :: 0 <= j < |categories| && categories[j].categoryId == req.categoryId.value && u.category == categories[j].id)
  {
    match FindItem(items, itemId)
    case None => Failure(ItemNotFound(itemId))
    case Some(k) =>
      var t := items[k];
      var t := if req.name.Some? then t.(name := req.name) else t;
      var t := if req.description.Some? then t.(description := req.description) else t;
      var t := if req.price.Some? then t.(price := req.price) else t;
      if req.categoryId.None? then Success((k, t))
      else
        match ResolveCategory(categories, req.categoryId)
        case None => Failure(InvalidCategory)
        case Some(c) => Success((k, t.(category := categories[c].id)))
  }

  /** `updateItem`: the found row is changed setter by setter, the category
      resolved last, and only then saved in place. */
  method UpdateItem(store: Store, itemId: string, req: ItemRequest) returns (r: Result<ItemResponse, CatalogError>)
    requires store.Valid()
    modifies store
    ensures store.Valid()
    ensures store.categories == old(store.categories)
    ensures store.nextCategoryKey == old(store.nextCategoryKey) && store.nextItemKey == old(store.nextItemKey)
    ensures match PlanItemUpdate(old(store.categories), old(store.items), itemId, req)
      case Failure(e) => r == Failure(e) && store.items == old(store.items)
      case Success(p) =>
        && p.0 < |old(store.items)| && store.items == old(store.items)[p.0 := p.1]
        && HasCategoryKey(store.categories, p.1.category)
        && r == Success(ToResponse(p.1, store.categories))
  {
    var found := FindItem(store.items, itemId);
    if found.None? {
      return Failure(ItemNotFound(itemId));
    }
    var k := found.value;
    var entity := store.items[k];
    if req.name.Some? {
      entity := entity.(name := req.name);
    }
    if req.description.Some? {
      entity := entity.(description := req.description);
    }
    if req.price.Some? {
      entity := entity.(price := req.price);
    }
    if req.categoryId.Some? {
      var category := ResolveCategory(store.categories, req.categoryId);
      if category.None? {
        return Failure(InvalidCategory);
      }
      entity := entity.(category := store.categories[category.value].id);
    }
    assert HasCategoryKey(store.categories, entity.category) by {
      if req.categoryId.None? {
        assert entity.category == store.items[k].category;
      }
    }
    assert PlanItemUpdate(store.categories, store.items, itemId, req) == Success((k, entity));
    ReplaceItem(store.categories, store.items, store.nextCategoryKey, store.nextItemKey, k, entity);
    store.items := store.items[k := entity];
    r := Success(ToResponse(entity, store.categories));
  }

  /** `getItemById`: empty exactly when no row has that public id. */
  function GetItemById(store: Store, itemId: string): (r: Option<ItemResponse>)
    reads store
    requires store.Valid()
    ensures r.None? <==> forall j :: 0 <= j < |store.items| ==> store.items[j].itemId != itemId
    ensures r.Some? ==> exists j :: (0 <= j < |store.items| && store.items[j].itemId == itemId
                                     && r.value == ToResponse(store.items[j], store.categories))
  {
    match FindItem(store.items, itemId)
    case None => None
    case Some(k) => Some(ToResponse(store.items[k], store.categories))
  }

  /** `getAllItems`: one response per row, in table order. */
  function GetAllItems(store: Store): (r: seq<ItemResponse>)
    reads store
    requires store.Valid()
    ensures |r| == |store.items|
    ensures forall i :: 0 <= i < |r| ==> r[i] == ToResponse(store.items[i], store.categories)
  {
    var items := store.items;
    var categories := store.categories;
    seq(|items|, i requires 0 <= i < |items| && HasCategoryKey(categories, items[i].category)
                   => ToResponse(items[i], categories))
  }

  // ---------------------------------------------------------------------
  // Properties
  // ---------------------------------------------------------------------

  /** For every known category the count is the length of the list. */
  lemma CountMatchesList(store: Store, categoryId: string)
    requires store.Valid()
    ensures CountItemsByCategory(store, categoryId).Success? <==> GetItemsByCategory(store, categoryId).Success?
    ensures CountItemsByCategory(store, categoryId).Success? ==>
      CountItemsByCategory(store, categoryId).value == |GetItemsByCategory(store, categoryId).value|
  {
    match FindCategory(store.categories, categoryId)
    case None =>
    case Some(k) => CountIsListLength(store.items, store.categories[k].id);
  }

  /** A category with items cannot be left behind by any item operation:
      every stored item keeps pointing at an existing category, so every
      item has a category to report. */
  lemma EveryItemHasCategory(store: Store)
    requires store.Valid()
    ensures forall i :: 0 <= i < |store.items| ==> CategoryByKey(store.categories, store.items[i].category).Some?
  {
  }
}
