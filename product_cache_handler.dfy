/** `ProductCacheHandler`: on a product event it deletes the product's cache entry and the
    first pages of its category and seller listings; on an inventory event it caches the
    serialized event under the product's inventory key. The cache is a map from key to
    entry. */
module ProductCacheHandler {
  import opened Base
  import opened JavaInt
  import opened CacheKeys

  /** Listing pages cleared per category and per seller: 0 to 4. */
  const PagesCleared := 5
  /** The inventory entry's time to live: five minutes. */
  const InventoryTtlSeconds := 300

  datatype CacheEntry = CacheEntry(value: string, ttlSeconds: nat)

  /** The fields of a product lifecycle event the handler reads; a UUID is its text. A
      null list of category ids is `None`. */
  datatype ProductLifecycleEvent = ProductLifecycleEvent(
    productId: Option<UuidText>,
    sellerId: Option<UuidText>,
    categoryIds: Option<seq<UuidText>>)

  datatype InventoryEvent = InventoryEvent(productId: Option<UuidText>)

  /** The keys of the first `n` pages of a category listing. */
  function CategoryPageKeys(categoryId: string, n: nat): set<string> {
    set page: Int32 | 0 <= page < n && page <= 4 :: CategoryProductsKey(categoryId, page)
  }

  /** The keys of the first `n` pages of a seller listing. */
  function SellerPageKeys(sellerId: string, n: nat): set<string> {
    set page: Int32 | 0 <= page < n && page <= 4 :: SellerProductsKey(sellerId, page)
  }

  /** The category page keys of every category in `ids`. */
  function CategoryPages(ids: seq<UuidText>): set<string> {
    if ids == [] then {}
    else CategoryPages(ids[..|ids| - 1]) + CategoryPageKeys(ids[|ids| - 1], PagesCleared)
  }

  /** Everything a product event removes. */
  function InvalidatedKeys(e: ProductLifecycleEvent): set<string> {
    match e.productId
    case None => {}
    case Some(p) =>
      {ProductKey(p)}
      + (if e.categoryIds.Some? then CategoryPages(e.categoryIds.value) else {})
      + (if e.sellerId.Some? then SellerPageKeys(e.sellerId.value, PagesCleared) else {})
  }

  lemma CategoryPagesMembers(ids: seq<UuidText>, k: string)
    ensures k in CategoryPages(ids) <==>
      exists c, page: Int32 :: c in ids && 0 <= page < PagesCleared && k == CategoryProductsKey(c, page)
  {
    if k in CategoryPages(ids) {
      CategoryPagesSound(ids, k);
    }
    if exists c, page: Int32 :: c in ids && 0 <= page < PagesCleared && k == CategoryProductsKey(c, page) {
      var c, page: Int32 :| c in ids && 0 <= page < PagesCleared && k == CategoryProductsKey(c, page);
      CategoryPagesComplete(ids, c, page);
    }
  }

  /** Each listed category's first pages are cleared. */
  lemma {:induction false} CategoryPagesComplete(ids: seq<UuidText>, c: UuidText, page: Int32)
    requires c in ids && 0 <= page < PagesCleared
    ensures CategoryProductsKey(c, page) in CategoryPages(ids)
  {
    var last := ids[|ids| - 1];
    if c == last {
      assert CategoryProductsKey(c, page) in CategoryPageKeys(last, PagesCleared);
    } else {
      assert c in ids[..|ids| - 1];
      CategoryPagesComplete(ids[..|ids| - 1], c, page);
    }
  }

  /** Only listed categories' first pages are cleared. */
  lemma {:induction false} CategoryPagesSound(ids: seq<UuidText>, k: string)
    requires k in CategoryPages(ids)
    ensures exists c, page: Int32 :: c in ids && 0 <= page < PagesCleared && k == CategoryProductsKey(c, page)
  {
    assert ids != [];
    var init, last := ids[..|ids| - 1], ids[|ids| - 1];
    if k in CategoryPageKeys(last, PagesCleared) {
      var page: Int32 :| 0 <= page < PagesCleared && k == CategoryProductsKey(last, page);
      assert last in ids && 0 <= page < PagesCleared && k == CategoryProductsKey(last, page);
    } else {
      assert k in CategoryPages(init);
      CategoryPagesSound(init, k);
      var c, page: Int32 :| c in init && 0 <= page < PagesCleared && k == CategoryProductsKey(c, page);
      assert c in ids && 0 <= page < PagesCleared && k == CategoryProductsKey(c, page);
    }
  }

  /** A product event with an id removes the product's entry, pages 0 to 4 of each of its
      categories' listings and, when it names a seller, pages 0 to 4 of the seller's listing. */
  lemma ProductUpdateClears(e: ProductLifecycleEvent, c: UuidText, page: Int32)
    requires e.productId.Some? && 0 <= page < PagesCleared
    ensures ProductKey(e.productId.value) in InvalidatedKeys(e)
    ensures e.categoryIds.Some? && c in e.categoryIds.value ==> CategoryProductsKey(c, page) in InvalidatedKeys(e)
    ensures e.sellerId.Some? ==> SellerProductsKey(e.sellerId.value, page) in InvalidatedKeys(e)
  {
    if e.categoryIds.Some? && c in e.categoryIds.value {
      CategoryPagesMembers(e.categoryIds.value, CategoryProductsKey(c, page));
    }
  }

  lemma {:induction false} CategoryPagesAreCategoryKeys(ids: seq<UuidText>)
    ensures forall k :: k in CategoryPages(ids) ==> |k| > 0 && k[0] == 'c'
  {
    if ids != [] {
      CategoryPagesAreCategoryKeys(ids[..|ids| - 1]);
    }
  }

  lemma SellerPagesAreSellerKeys(sellerId: string, n: nat)
    ensures forall k :: k in SellerPageKeys(sellerId, n) ==> |k| > 0 && k[0] == 's'
  {
  }

  /** A category's first pages never include a page from 5 on of a (possibly different)
      category. */
  lemma LaterPageNotAmongFirst(c: UuidText, id: UuidText, page: Int32)
    requires page >= PagesCleared
    ensures CategoryProductsKey(id, page) !in CategoryPageKeys(c, PagesCleared)
  {
    var k := CategoryProductsKey(id, page);
    if k in CategoryPageKeys(c, PagesCleared) {
      var p: Int32 :| 0 <= p < PagesCleared && k == CategoryProductsKey(c, p);
      CanonicalUuidHasNoColon(id);
      CanonicalUuidHasNoColon(c);
      CategoryProductsKeyInjective(id, page, c, p);
      assert false;
    }
  }

  /** No category page from 5 on is among the pages cleared for a list of categories. */
  lemma {:induction false} LaterPageNotInCategoryPages(ids: seq<UuidText>, id: UuidText, page: Int32)
    requires page >= PagesCleared
    ensures CategoryProductsKey(id, page) !in CategoryPages(ids)
  {
    if ids != [] {
      LaterPageNotInCategoryPages(ids[..|ids| - 1], id, page);
      LaterPageNotAmongFirst(ids[|ids| - 1], id, page);
    }
  }

  /** Pages from 5 on of any category's listing are never removed by a product event. */
  lemma LaterCategoryPagesUntouched(e: ProductLifecycleEvent, id: UuidText, page: Int32)
    requires page >= PagesCleared
    ensures CategoryProductsKey(id, page) !in InvalidatedKeys(e)
  {
    if e.productId.Some? {
      KeyFamiliesDiffer(e.productId.value, id, 0, page);
    }
    if e.productId.Some? && e.categoryIds.Some? {
      LaterPageNotInCategoryPages(e.categoryIds.value, id, page);
    }
    if e.productId.Some? && e.sellerId.Some? {
      SellerPagesAreSellerKeys(e.sellerId.value, PagesCleared);
    }
  }

  /** A seller's first pages never include a page from 5 on of a (possibly different)
      seller. */
  lemma LaterSellerPageNotAmongFirst(s: UuidText, id: UuidText, page: Int32)
    requires page >= PagesCleared
    ensures SellerProductsKey(id, page) !in SellerPageKeys(s, PagesCleared)
  {
    var k := SellerProductsKey(id, page);
    if k in SellerPageKeys(s, PagesCleared) {
      var p: Int32 :| 0 <= p < PagesCleared && k == SellerProductsKey(s, p);
      CanonicalUuidHasNoColon(id);
      CanonicalUuidHasNoColon(s);
      SellerProductsKeyInjective(id, page, s, p);
      assert false;
    }
  }

  /** Pages from 5 on of any seller's listing are never removed by a product event. */
  lemma LaterSellerPagesUntouched(e: ProductLifecycleEvent, id: UuidText, page: Int32)
    requires page >= PagesCleared
    ensures SellerProductsKey(id, page) !in InvalidatedKeys(e)
  {
    if e.productId.Some? {
      KeyFamiliesDiffer(e.productId.value, id, 0, page);
    }
    if e.productId.Some? && e.sellerId.Some? {
      LaterSellerPageNotAmongFirst(e.sellerId.value, id, page);
    }
    if e.productId.Some? && e.categoryIds.Some? {
      CategoryPagesAreCategoryKeys(e.categoryIds.value);
    }
  }

  /** A product event never removes an inventory entry. */
  lemma InventoryEntriesUntouched(e: ProductLifecycleEvent, id: string)
    ensures InventoryKey(id) !in InvalidatedKeys(e)
  {
    if e.productId.Some? && e.categoryIds.Some? {
      CategoryPagesAreCategoryKeys(e.categoryIds.value);
    }
    if e.productId.Some? && e.sellerId.Some? {
      SellerPagesAreSellerKeys(e.sellerId.value, PagesCleared);
    }
  }

  /** One more category page, removed. */
  lemma CategoryPageKeysStep(id: string, n: nat)
    requires n < PagesCleared
    ensures CategoryPageKeys(id, n + 1) == CategoryPageKeys(id, n) + {CategoryProductsKey(id, n)}
  {
  }

  /** One more seller page, removed. */
  lemma SellerPageKeysStep(id: string, n: nat)
    requires n < PagesCleared
    ensures SellerPageKeys(id, n + 1) == SellerPageKeys(id, n) + {SellerProductsKey(id, n)}
  {
  }

  /** Removing two sets of keys one after the other removes their union. */
  lemma RemoveInTurn<K, V>(m: map<K, V>, a: set<K>, b: set<K>)
    ensures (m - a) - b == m - (a + b)
  {
  }

  class ProductCacheHandler {
    var cache: map<string, CacheEntry>

    constructor (initial: map<string, CacheEntry>)
      ensures cache == initial
    {
      cache := initial;
    }

    /** `handleProductUpdate`: deletes exactly the invalidated keys; with no product id it
        returns at once. */
    method HandleProductUpdate(e: ProductLifecycleEvent)
      modifies this
      ensures cache == old(cache) - InvalidatedKeys(e)
    {
      if e.productId.None? {
        RemoveInTurn(cache, {}, {});
        return;
      }
      var productKey := ProductKey(e.productId.value);
      cache := cache - {productKey};
      ghost var categoryKeys: set<string> := {};
      if e.categoryIds.Some? {
        categoryKeys := CategoryPages(e.categoryIds.value);
        EvictAllCategoryPages(e.categoryIds.value);
        RemoveInTurn(old(cache), {productKey}, categoryKeys);
      }
      ghost var sellerKeys: set<string> := {};
      if e.sellerId.Some? {
        sellerKeys := SellerPageKeys(e.sellerId.value, PagesCleared);
        EvictSellerPages(e.sellerId.value);
        RemoveInTurn(old(cache), {productKey} + categoryKeys, sellerKeys);
      }
      assert InvalidatedKeys(e) == {productKey} + categoryKeys + sellerKeys;
    }

    /** The loop over the event's category ids: pages 0 to 4 of each listed category. */
    method EvictAllCategoryPages(ids: seq<UuidText>)
      modifies this
      ensures cache == old(cache) - CategoryPages(ids)
    {
      var i := 0;
      RemoveInTurn(cache, {}, {});
      while i < |ids|
        invariant 0 <= i <= |ids|
        invariant cache == old(cache) - CategoryPages(ids[..i])
      {
        EvictCategoryPages(ids[i]);
        RemoveInTurn(old(cache), CategoryPages(ids[..i]), CategoryPageKeys(ids[i], PagesCleared));
        assert ids[..i + 1][..i] == ids[..i];
        i := i + 1;
      }
      assert ids[..i] == ids;
    }

    /** The step applied to each category id of a product event: pages 0 to 4 of the
        category's listing are deleted. */
    method EvictCategoryPages(categoryId: UuidText)
      modifies this
      ensures cache == old(cache) - CategoryPageKeys(categoryId, PagesCleared)
    {
      var page: Int32 := 0;
      while page < PagesCleared
        invariant 0 <= page <= PagesCleared
        invariant cache == old(cache) - CategoryPageKeys(categoryId, page)
      {
        var key := CategoryProductsKey(categoryId, page);
        CategoryPageKeysStep(categoryId, page);
        RemoveInTurn(old(cache), CategoryPageKeys(categoryId, page), {key});
        cache := cache - {key};
        page := page + 1;
      }
    }

    /** Pages 0 to 4 of the seller's listing are deleted. */
    method EvictSellerPages(sellerId: UuidText)
      modifies this
      ensures cache == old(cache) - SellerPageKeys(sellerId, PagesCleared)
    {
      var page: Int32 := 0;
      while page < PagesCleared
        invariant 0 <= page <= PagesCleared
        invariant cache == old(cache) - SellerPageKeys(sellerId, page)
      {
        var key := SellerProductsKey(sellerId, page);
        SellerPageKeysStep(sellerId, page);
        RemoveInTurn(old(cache), SellerPageKeys(sellerId, page), {key});
        cache := cache - {key};
        page := page + 1;
      }
    }

    /** `handleInventoryUpdate`: caches the serialized event (`None` when serialization
        fails) under the product's inventory key for five minutes; nothing else changes. */
    method HandleInventoryUpdate(e: InventoryEvent, serialized: Option<string>)
      modifies this
      ensures e.productId.None? || serialized.None? ==> cache == old(cache)
      ensures e.productId.Some? && serialized.Some? ==>
        cache == old(cache)[InventoryKey(e.productId.value) := CacheEntry(serialized.value, InventoryTtlSeconds)]
    {
      if e.productId.None? {
        return;
      }
      var key := InventoryKey(e.productId.value);
      if serialized.Some? {
        cache := cache[key := CacheEntry(serialized.value, InventoryTtlSeconds)];
      }
    }
  }
}
