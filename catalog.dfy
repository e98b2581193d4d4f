/** The two catalog tables the category and item services share: the
    `categories` and `items` repositories, an item pointing at its
    category by the category's internal (database identity) key. */
module Catalog {
  import opened Common

  /** A `BigDecimal` price, carried around and never computed with. */
  datatype Price = Price(unscaled: int, scale: nat)

  /** The exceptions the services throw, each with its message: a plain
      `RuntimeException`, a `CategoryNotEmptyException`, an
      `IllegalArgumentException`. */
  datatype CatalogError = Runtime(message: string) | CategoryNotEmpty(message: string) | IllegalArgument(message: string)

  /** A `CategoryEntity` row; `id` is the identity key, `categoryId` the
      public UUID. Timestamps are not modelled. */
  datatype CategoryRecord = CategoryRecord(
    id: nat, categoryId: string, name: Option<string>, description: Option<string>, bgColor: Option<string>)

  /** An `ItemEntity` row; `category` is the identity key of its category. */
  datatype ItemRecord = ItemRecord(
    id: nat, itemId: string, name: Option<string>, description: Option<string>, price: Option<Price>, category: nat)

  /** `findByCategoryId`: first row with that public id. */
  function FindCategory(categories: seq<CategoryRecord>, categoryId: string): (r: Option<nat>)
    ensures r.Some? ==> r.value < |categories| && categories[r.value].categoryId == categoryId
    ensures r.Some? ==> forall j :: 0 <= j < r.value ==> categories[j].categoryId != categoryId
    ensures r.None? ==> forall j :: 0 <= j < |categories| ==> categories[j].categoryId != categoryId
  {
    IndexWhere(categories, (c: CategoryRecord) => c.categoryId == categoryId, 0)
  }

  /** The row an item's category key points at. */
  function CategoryByKey(categories: seq<CategoryRecord>, key: nat): (r: Option<nat>)
    ensures r.Some? ==> r.value < |categories| && categories[r.value].id == key
    ensures r.None? ==> forall j :: 0 <= j < |categories| ==> categories[j].id != key
  {
    IndexWhere(categories, (c: CategoryRecord) => c.id == key, 0)
  }

  /** `findByItemId`: first row with that public id. */
  function FindItem(items: seq<ItemRecord>, itemId: string): (r: Option<nat>)
    ensures r.Some? ==> r.value < |items| && items[r.value].itemId == itemId
    ensures r.Some? ==> forall j :: 0 <= j < r.value ==> items[j].itemId != itemId
    ensures r.None? ==> forall j :: 0 <= j < |items| ==> items[j].itemId != itemId
  {
    IndexWhere(items, (i: ItemRecord) => i.itemId == itemId, 0)
  }

  /** `findAllByCategoryId(key)`: the items of that category, in table order. */
  function ItemsOf(items: seq<ItemRecord>, key: nat): (r: seq<ItemRecord>)
    ensures |r| <= |items|
    ensures forall x :: x in r ==> x in items && x.category == key
    ensures forall x :: x in items && x.category == key ==> x in r
    ensures forall x :: multiset(r)[x] == if x.category == key then multiset(items)[x] else 0
  {
    if items == [] then []
    else
      var rest := ItemsOf(items[1..], key);
      assert items == [items[0]] + items[1..];
      assert forall x :: x in items ==> x == items[0] || x in items[1..];
      if items[0].category == key then [items[0]] + rest else rest
  }

  /** The list query keeps table order: the items of two consecutive
      stretches of the table are the first stretch's followed by the
      second's. */
  lemma {:induction false} ItemsOfAppend(a: seq<ItemRecord>, b: seq<ItemRecord>, key: nat)
    ensures ItemsOf(a + b, key) == ItemsOf(a, key) + ItemsOf(b, key)
  {
    if a != [] {
      assert (a + b)[1..] == a[1..] + b;
      ItemsOfAppend(a[1..], b, key);
    } else {
      assert a + b == b;
    }
  }

  /** `countByCategory(key)`: `SELECT COUNT(i) ... WHERE i.category.id = key`. */
  function CountByCategory(items: seq<ItemRecord>, key: nat): (n: nat)
    ensures n <= |items|
  {
    if items == [] then 0
    else (if items[0].category == key then 1 else 0) + CountByCategory(items[1..], key)
  }

  /** The count query and the list query agree: the count is the length
      of the list. */
  lemma {:induction false} CountIsListLength(items: seq<ItemRecord>, key: nat)
    ensures CountByCategory(items, key) == |ItemsOf(items, key)|
  {
    if items != [] {
      CountIsListLength(items[1..], key);
    }
  }

  /** A zero count means no item points at the key. */
  lemma {:induction false} ZeroCountIff(items: seq<ItemRecord>, key: nat)
    ensures CountByCategory(items, key) == 0 <==> forall i :: 0 <= i < |items| ==> items[i].category != key
  {
    if items != [] {
      ZeroCountIff(items[1..], key);
      assert forall i :: 1 <= i < |items| ==> items[i] == items[1..][i - 1];
    }
  }

  /** Some category row has identity key `key`. */
  predicate HasCategoryKey(categories: seq<CategoryRecord>, key: nat) {
    exists j :: 0 <= j < |categories| && categories[j].id == key
  }

  /** The tables' integrity: identity keys are unique and below their
      generator, and every item points at an existing category (the
      non-null foreign key). */
  ghost predicate TablesValid(categories: seq<CategoryRecord>, items: seq<ItemRecord>, nextCategoryKey: nat, nextItemKey: nat) {
    && (forall i :: 0 <= i < |categories| ==> categories[i].id < nextCategoryKey)
    && (forall i, j :: 0 <= i < j < |categories| ==> categories[i].id != categories[j].id)
    && (forall i :: 0 <= i < |items| ==> items[i].id < nextItemKey)
    && (forall i, j :: 0 <= i < j < |items| ==> items[i].id != items[j].id)
    && (forall i :: 0 <= i < |items| ==> HasCategoryKey(categories, items[i].category))
  }

  /** Taking out a category that no item points at keeps the tables valid. */
  lemma RemoveUnreferencedCategory(categories: seq<CategoryRecord>, items: seq<ItemRecord>, nc: nat, ni: nat, k: nat)
    requires TablesValid(categories, items, nc, ni)
    requires k < |categories|
    requires forall i :: 0 <= i < |items| ==> items[i].category != categories[k].id
    ensures TablesValid(RemoveAt(categories, k), items, nc, ni)
  {
    var rest := RemoveAt(categories, k);
    forall i | 0 <= i < |items|
      ensures HasCategoryKey(rest, items[i].category)
    {
      var j :| 0 <= j < |categories| && categories[j].id == items[i].category;
      if j < k {
        assert rest[j] == categories[j];
      } else {
        assert j != k;
        assert rest[j - 1] == categories[j];
      }
    }
    forall a, b | 0 <= a < b < |rest|
      ensures rest[a].id != rest[b].id
    {
      var a' := if a < k then a else a + 1;
      var b' := if b < k then b else b + 1;
      assert rest[a] == categories[a'] && rest[b] == categories[b'] && a' < b';
    }
  }

  /** Taking out any item keeps the tables valid. */
  lemma RemoveItem(categories: seq<CategoryRecord>, items: seq<ItemRecord>, nc: nat, ni: nat, k: nat)
    requires TablesValid(categories, items, nc, ni)
    requires k < |items|
    ensures TablesValid(categories, RemoveAt(items, k), nc, ni)
  {
    var rest := RemoveAt(items, k);
    forall a, b | 0 <= a < b < |rest|
      ensures rest[a].id != rest[b].id
    {
      var a' := if a < k then a else a + 1;
      var b' := if b < k then b else b + 1;
      assert rest[a] == items[a'] && rest[b] == items[b'] && a' < b';
    }
  }

  /** Overwriting an item in place with a row that keeps its key and points
      at an existing category keeps the tables valid. */
  lemma ReplaceItem(categories: seq<CategoryRecord>, items: seq<ItemRecord>, nc: nat, ni: nat, k: nat, row: ItemRecord)
    requires TablesValid(categories, items, nc, ni)
    requires k < |items| && row.id == items[k].id && HasCategoryKey(categories, row.category)
    ensures TablesValid(categories, items[k := row], nc, ni)
  {
  }

  /** The two repositories. `nextCategoryKey` and `nextItemKey` stand for
      the identity generators. */
  class Store {
    var categories: seq<CategoryRecord>
    var items: seq<ItemRecord>
    var nextCategoryKey: nat
    var nextItemKey: nat

    ghost predicate Valid()
      reads this
    {
      TablesValid(categories, items, nextCategoryKey, nextItemKey)
    }

    constructor ()
      ensures Valid() && categories == [] && items == []
    {
      categories := [];
      items := [];
      nextCategoryKey := 0;
      nextItemKey := 0;
    }
  }
}
