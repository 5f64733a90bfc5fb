# Marketplace services: verified model of the core rules

This project models the rule-bearing core of a multi-service marketplace backend written
in Java and Spring, and proves what those rules guarantee. The model covers:

- the product service's **inventory ledger** (`InventoryServiceImpl` over the `Inventory`
  entity and its `@PrePersist`/`@PreUpdate` hook): create, update, reserve, release,
  restock, the level setters, delete, bulk update, and the stock aggregates;
- the **category store** (`CategoryServiceImpl`): hierarchy path and level derived from the
  parent, soft delete, and the listings;
- **slug generation** (`SlugUtil`, `SlugService`);
- **cache keys** and **cache invalidation** (`CacheKeys`, `ProductCacheHandler`), over a cache
  that is a map from key to entry;
- the **product change diff** (`KafkaEventPublisher.diffProducts`);
- **ownership and view authorisation** (`ProductOwnershipValidator`);
- **order creation** with its exact total (`OrderServiceImpl`, `Order.setItems`);
- the **user registry** (`UserServiceImpl`).

Code that changes state in place is modelled as classes with `modifies` frames. Each such
class keeps its store in a field (`rows`, `cache`, `users`, `orders`). Each of its methods
is proved equal to a pure store transition (`AfterCreate`, `AfterReserve`, …), and the
lemmas about those transitions state the properties. Pure code is modelled as functions
and lemmas.

Modelling choices:

- Java `int` arithmetic wraps explicitly (`JavaInt.Wrap`).
- `BigDecimal` is exact `real` arithmetic.
- A nullable value is an `Option`.
- A thrown exception is an error value (`Failure`, `Fail`).
- The clock, the random UUID, the password encoder, the current user id and the
  serialiser's success are parameters.

The files:

- `base.dfy`: `Option`, `Result`, `Outcome` and canonical UUID text.
- `java_int.dfy`: 32-bit wrap-around and `Integer.toString`.
- `inventory_entity.dfy`: the `Inventory` entity and its hook.
- `inventory_service.dfy`: the ledger.
- `category_service.dfy`: the category store.
- `slug_text.dfy`: the string operations of the slug builders.
- `slug_util.dfy`: `SlugUtil`.
- `slug_service.dfy`: `SlugService`.
- `cache_keys.dfy`: `CacheKeys`.
- `product_cache_handler.dfy`: `ProductCacheHandler`.
- `kafka_event_publisher.dfy`: the diff.
- `ownership.dfy`: `ProductOwnershipValidator`.
- `order_service.dfy`: orders.
- `user_service.dfy`: users.

Where the source and its surrounding description disagree, the model follows the source:

- `deleteInventory` removes the row even when units are reserved.
- No operation checks a version or a lock.
- `bulkUpdateInventory` validates nothing, so it can store a second row with an existing
  natural key (`BulkCanDuplicateKeys`).
- `User.builder().username(...)` names a field that neither `User` nor `UserRequestDto`
  declares. The model keeps the fields the entity declares: id, email, password, role,
  enabled. `generateJwtForUser` reads `user.getUuid()`, which does not exist either; it is
  not part of this model.

## Model

| member | source | states |
|---|---|---|
| InventoryEntity.Touched | services/product-service/src/main/java/com/sj/product_service/entity/Inventory.java:68-76 | after the hook, `lastUpdatedAt` is the given instant and the available count equals quantity − reserved (as an `int` subtraction) when both are non-null; no other field changes |
| InventoryEntity.AvailableNonNegativeIff | services/product-service/src/main/java/com/sj/product_service/entity/Inventory.java:38-45 | for counters within their declared bounds, the available count after the hook is ≥ 0 exactly when reserved ≤ quantity |
| InventoryEntity.TouchedIdempotent | services/product-service/src/main/java/com/sj/product_service/entity/Inventory.java:68-76 | running the hook twice at one instant equals running it once |
| InventoryEntity.Inventory.FromRecord | services/product-service/src/main/java/com/sj/product_service/entity/Inventory.java:21-66 | the entity object holds exactly the fields of the given row |
| InventoryEntity.Inventory.OnUpdate | services/product-service/src/main/java/com/sj/product_service/entity/Inventory.java:68-76 | the entity's new state is the hook applied to its old state |
| InventoryService.Lookup | services/product-service/src/main/java/com/sj/product_service/service/impl/InventoryServiceImpl.java:56-59 | the natural-key finder: success names the single row with that key; `NotFound` exactly when no row has it; several rows give `NonUniqueResult` |
| InventoryService.UniqueKeysLookup | services/product-service/src/main/java/com/sj/product_service/service/impl/InventoryServiceImpl.java:56-59 | while natural keys are unique, the finder never reports several rows |
| InventoryService.InventoryLedger.FindByKey | services/product-service/src/main/java/com/sj/product_service/service/impl/InventoryServiceImpl.java:56-59 | the finder as a method: its result equals `Lookup` |
| InventoryService.InventoryLedger.Save | services/product-service/src/main/java/com/sj/product_service/service/impl/InventoryServiceImpl.java:72 | a save runs the entity hook and writes the row; the ledger invariant is kept |
| InventoryService.InventoryLedger.CreateInventory | services/product-service/src/main/java/com/sj/product_service/service/impl/InventoryServiceImpl.java:40-80 | the ledger changes exactly as `AfterCreate` says: one new row under the next id, or an error and no change |
| InventoryService.NewRecordFields | services/product-service/src/main/java/com/sj/product_service/service/impl/InventoryServiceImpl.java:61-70 | a new row holds the given stock, reserved 0, reorder level 5, no maximum, available = stock, and is within bounds and balanced for a stock ≥ 0 |
| InventoryService.CreateOutcome | services/product-service/src/main/java/com/sj/product_service/service/impl/InventoryServiceImpl.java:45-72 | create fails on an unknown product, then on an unknown variant when one is given, then on a natural key already stored; otherwise it adds exactly one row |
| InventoryService.CreateKeepsKeysUnique | services/product-service/src/main/java/com/sj/product_service/service/impl/InventoryServiceImpl.java:55-72 | a successful create keeps natural keys unique |
| InventoryService.InventoryLedger.UpdateInventory | services/product-service/src/main/java/com/sj/product_service/service/impl/InventoryServiceImpl.java:82-101 | an unknown id fails and changes nothing; otherwise only that row changes: its stock is set as given, then the hook runs |
| InventoryService.InventoryLedger.UpdateReservedQuantity | services/product-service/src/main/java/com/sj/product_service/service/impl/InventoryServiceImpl.java:221-235 | the same for the reservation |
| InventoryService.InventoryLedger.UpdateReorderLevel | services/product-service/src/main/java/com/sj/product_service/service/impl/InventoryServiceImpl.java:259-273 | the same for the reorder level |
| InventoryService.InventoryLedger.UpdateMaxLevel | services/product-service/src/main/java/com/sj/product_service/service/impl/InventoryServiceImpl.java:275-289 | the same for the maximum level |
| InventoryService.InventoryLedger.Assign | services/product-service/src/main/java/com/sj/product_service/service/impl/InventoryServiceImpl.java:86-93 | the shared load, set one field, stamp and save; the store changes as `AfterAssign` says |
| InventoryService.UncheckedSettersBreakBalance | services/product-service/src/main/java/com/sj/product_service/service/impl/InventoryServiceImpl.java:90 | the setters check nothing: a stock below the reservation, or a reservation above the stock, is stored and leaves a negative available count |
| InventoryService.LevelSettersKeepCounters | services/product-service/src/main/java/com/sj/product_service/service/impl/InventoryServiceImpl.java:266 | the level setters leave stock, reservation and available count unchanged |
| InventoryService.InventoryLedger.ReserveStock | services/product-service/src/main/java/com/sj/product_service/service/impl/InventoryServiceImpl.java:172-195 | the ledger changes exactly as `AfterReserve` says; a failure leaves it unchanged |
| InventoryService.ReserveRowEffect | services/product-service/src/main/java/com/sj/product_service/service/impl/InventoryServiceImpl.java:177-188 | reserve fails exactly on a null value or a stored available count below the request; success adds exactly the request to the reservation, keeps the stock and records the actor |
| InventoryService.ReserveKeepsBalanced | services/product-service/src/main/java/com/sj/product_service/service/impl/InventoryServiceImpl.java:180-184 | a successful reservation of a non-negative amount keeps 0 ≤ reserved ≤ quantity |
| InventoryService.ReserveKeepsAllBalanced | services/product-service/src/main/java/com/sj/product_service/service/impl/InventoryServiceImpl.java:172-195 | over the whole store: when every row is balanced and its available count current, a successful reservation of a non-negative amount leaves every row with 0 ≤ reserved ≤ quantity |
| InventoryService.ReserveMovesUnits | services/product-service/src/main/java/com/sj/product_service/service/impl/InventoryServiceImpl.java:184 | a reservation raises the product's reserved total by exactly the request and leaves its stock total unchanged |
| InventoryService.InventoryLedger.ReleaseStock | services/product-service/src/main/java/com/sj/product_service/service/impl/InventoryServiceImpl.java:197-219 | the ledger changes exactly as `AfterRelease` says; a failure leaves it unchanged |
| InventoryService.ReleaseRowEffect | services/product-service/src/main/java/com/sj/product_service/service/impl/InventoryServiceImpl.java:205-209 | release fails exactly on a null value or a request above the reservation; success subtracts exactly the request, without clamping, and keeps the stock |
| InventoryService.ReleaseKeepsBalanced | services/product-service/src/main/java/com/sj/product_service/service/impl/InventoryServiceImpl.java:205-209 | a successful release of a non-negative amount keeps 0 ≤ reserved ≤ quantity |
| InventoryService.ReleaseKeepsAllBalanced | services/product-service/src/main/java/com/sj/product_service/service/impl/InventoryServiceImpl.java:197-219 | over the whole store: when every row is balanced, a successful release of a non-negative amount leaves every row with 0 ≤ reserved ≤ quantity |
| InventoryService.NegativeReleaseOverReserves | services/product-service/src/main/java/com/sj/product_service/service/impl/InventoryServiceImpl.java:205-209 | the sign of the request is not checked: releasing −11 from a balanced row reserves more than its stock |
| InventoryService.ReserveThenRelease | services/product-service/src/main/java/com/sj/product_service/service/impl/InventoryServiceImpl.java:172-219 | reserving and then releasing the same amount restores the row, apart from the timestamp and the actor |
| InventoryService.SameKeyCommit | services/product-service/src/main/java/com/sj/product_service/service/impl/InventoryServiceImpl.java:184-188 | rewriting a row without changing its natural key keeps natural keys unique |
| InventoryService.KeyPreservingOperations | services/product-service/src/main/java/com/sj/product_service/service/impl/InventoryServiceImpl.java:172-305 | reserve, release, restock, the setters and delete keep natural keys unique |
| InventoryService.InventoryLedger.RestockInventory | services/product-service/src/main/java/com/sj/product_service/service/impl/InventoryServiceImpl.java:237-257 | the ledger changes exactly as `AfterRestock` says |
| InventoryService.RestockRowEffect | services/product-service/src/main/java/com/sj/product_service/service/impl/InventoryServiceImpl.java:241-250 | restock adds the request to the stock (wrapping negative past 2^31 − 1), keeps the reservation, stamps the restock time and actor, and keeps a row balanced for a non-negative request |
| InventoryService.InventoryLedger.DeleteInventory | services/product-service/src/main/java/com/sj/product_service/service/impl/InventoryServiceImpl.java:291-305 | an unknown id fails; otherwise exactly that row is removed, whatever it has reserved |
| InventoryService.InventoryLedger.BulkUpdateInventory | services/product-service/src/main/java/com/sj/product_service/service/impl/InventoryServiceImpl.java:359-372 | the ledger after the loop equals `AfterBulk`: each entity is merged into its stored row (written only when it differs) or is inserted under a new id |
| InventoryService.BulkKeepsIdsAndSync | services/product-service/src/main/java/com/sj/product_service/service/impl/InventoryServiceImpl.java:359-363 | a bulk save keeps every id below the next free id and every available count current |
| InventoryService.BulkCanDuplicateKeys | services/product-service/src/main/java/com/sj/product_service/service/impl/InventoryServiceImpl.java:359-363 | a bulk save checks nothing: it can store a second row with an existing natural key |
| InventoryService.BulkMergeWritesOnlyChanges | services/product-service/src/main/java/com/sj/product_service/service/impl/InventoryServiceImpl.java:359-363 | merging an entity equal to its stored row writes nothing and runs no hook; an entity that differs replaces the row, with the hook applied |
| InventoryService.SelectExactly | services/product-service/src/main/java/com/sj/product_service/service/impl/InventoryServiceImpl.java:115 | the list finders return exactly the stored rows their filter selects |
| InventoryService.RunningSum | services/product-service/src/main/java/com/sj/product_service/service/impl/InventoryServiceImpl.java:146-148 | an `int` stream sum throws on a null counter; otherwise it is the exact sum wrapped to 32 bits |
| InventoryService.SqlSum | services/product-service/src/main/java/com/sj/product_service/service/impl/InventoryServiceImpl.java:137 | a SQL `SUM` skips nulls and is null when no value is present; read as 0, it is the exact sum |
| InventoryService.NullsSumToZero | services/product-service/src/main/java/com/sj/product_service/service/impl/InventoryServiceImpl.java:137-138 | a list of null counters sums to 0 |
| InventoryService.ExactSumAppend | services/product-service/src/main/java/com/sj/product_service/service/impl/InventoryServiceImpl.java:146-148 | the exact sum distributes over concatenation |
| InventoryService.SelectSumAfterUpdate | services/product-service/src/main/java/com/sj/product_service/service/impl/InventoryServiceImpl.java:336-349 | rewriting one row changes the selected total by the difference of its counters |
| InventoryService.AvailableTotal | services/product-service/src/main/java/com/sj/product_service/service/impl/InventoryServiceImpl.java:134-148 | over sound rows, the available total equals the stock total minus the reserved total |
| InventoryService.InventoryLedger.GetAvailableQuantity | services/product-service/src/main/java/com/sj/product_service/service/impl/InventoryServiceImpl.java:133-139 | the product's available total, with a null sum read as 0, equals the exact sum of its rows' available counts |
| InventoryService.InventoryLedger.GetAvailableQuantityByLocation | services/product-service/src/main/java/com/sj/product_service/service/impl/InventoryServiceImpl.java:141-149 | fails with a null-pointer error exactly when an available count in the product's rows at that location is null; otherwise the `int` sum of those counts |
| InventoryService.InventoryLedger.GetTotalQuantity | services/product-service/src/main/java/com/sj/product_service/service/impl/InventoryServiceImpl.java:332-340 | fails with a null-pointer error exactly when a stock count of the product's rows is null; otherwise the `int` sum of the product's stock |
| InventoryService.InventoryLedger.GetTotalReservedQuantity | services/product-service/src/main/java/com/sj/product_service/service/impl/InventoryServiceImpl.java:342-350 | fails with a null-pointer error exactly when a reservation count of the product's rows is null; otherwise the `int` sum of the product's reservations |
| InventoryService.InventoryLedger.HasAvailableStock | services/product-service/src/main/java/com/sj/product_service/service/impl/InventoryServiceImpl.java:307-313 | a null request throws; otherwise true exactly when the product's exact available total covers the request |
| InventoryService.InventoryLedger.HasAvailableStockByLocation | services/product-service/src/main/java/com/sj/product_service/service/impl/InventoryServiceImpl.java:315-321 | true exactly when the wrapped available total at the location covers the request; a null request or counter throws |
| CategoryService.Placement | services/product-service/src/main/java/com/sj/product_service/service/impl/CategoryServiceImpl.java:45-51 | a root's path is its slug at level 0; a child's path is the parent's path, "/" and its slug, one level below the parent (wrapping at the `int` maximum) |
| CategoryService.Saved | services/product-service/src/main/java/com/sj/product_service/service/impl/CategoryServiceImpl.java:53 | saving an unchanged entity writes nothing new; a changed one gets a new `updatedAt` |
| CategoryService.CategoryStore.CreateCategory | services/product-service/src/main/java/com/sj/product_service/service/impl/CategoryServiceImpl.java:27-55 | the store changes exactly as `AfterCreate` says: a new category under the next id, or `ParentNotFound` and no change |
| CategoryService.CreateOutcome | services/product-service/src/main/java/com/sj/product_service/service/impl/CategoryServiceImpl.java:29-53 | an unknown parent fails and stores nothing; otherwise exactly one category is added, with the request's fields, the slug, path and level from its parent, and active unless the request says otherwise |
| CategoryService.CreateKeepsLevelsNonNegative | services/product-service/src/main/java/com/sj/product_service/service/impl/CategoryServiceImpl.java:45-51 | while the parent's level is below the `int` maximum, levels stay ≥ 0 |
| CategoryService.LevelCanWrap | services/product-service/src/main/java/com/sj/product_service/service/impl/CategoryServiceImpl.java:50 | a child of a category at level 2^31 − 1 gets level −2^31 |
| CategoryService.CategoryStore.UpdateCategory | services/product-service/src/main/java/com/sj/product_service/service/impl/CategoryServiceImpl.java:57-86 | the store changes exactly as `AfterUpdate` says; the saved category is returned |
| CategoryService.UpdateOutcome | services/product-service/src/main/java/com/sj/product_service/service/impl/CategoryServiceImpl.java:59-84 | an unknown id fails, then an unknown parent; otherwise only that category changes, placement is recomputed, the active flag is kept when none is given, and children keep their old paths |
| CategoryService.UpdateCanMakeCycle | services/product-service/src/main/java/com/sj/product_service/service/impl/CategoryServiceImpl.java:62-81 | a category can be made its own parent; its path and level then build on its old ones |
| CategoryService.CategoryStore.DeleteCategory | services/product-service/src/main/java/com/sj/product_service/service/impl/CategoryServiceImpl.java:88-94 | the store changes exactly as `AfterDelete` says |
| CategoryService.DeleteIsSoftAndIdempotent | services/product-service/src/main/java/com/sj/product_service/service/impl/CategoryServiceImpl.java:88-94 | delete only clears the active flag, touches no other category, and a second delete stores nothing new |
| CategoryService.DeleteHidesFromActive | services/product-service/src/main/java/com/sj/product_service/service/impl/CategoryServiceImpl.java:88-94 | a deleted category leaves the active listing and stays in the store |
| CategoryService.CategoryStore.FindById | services/product-service/src/main/java/com/sj/product_service/service/impl/CategoryServiceImpl.java:96-101 | the stored category, or `CategoryNotFound` exactly when the id is unknown |
| CategoryService.CategoryStore.GetAllCategories | services/product-service/src/main/java/com/sj/product_service/service/impl/CategoryServiceImpl.java:103-114 | with inactive ones included, every category; otherwise exactly the active ones |
| CategoryService.CategoryStore.GetChildCategories | services/product-service/src/main/java/com/sj/product_service/service/impl/CategoryServiceImpl.java:116-121 | exactly the categories whose parent is the given id |
| CategoryService.CategoryStore.GetActiveCategories | services/product-service/src/main/java/com/sj/product_service/service/impl/CategoryServiceImpl.java:123-128 | exactly the active categories, the same listing as `getAllCategories(false)` |
| CategoryService.CategoryStore.FetchCategoryTree | services/product-service/src/main/java/com/sj/product_service/service/impl/CategoryServiceImpl.java:130-144 | one entry per root category, listing exactly the ids of its direct children |
| SlugText.Lower | services/product-service/src/main/java/com/sj/product_service/util/SlugUtil.java:10 | lower-cases each ASCII letter and keeps every other character, so no upper-case ASCII letter remains |
| SlugText.Retain | services/product-service/src/main/java/com/sj/product_service/util/SlugUtil.java:13 | every remaining character is in the class, and the result is no longer than the input |
| SlugText.RetainMembers | services/product-service/src/main/java/com/sj/product_service/util/SlugUtil.java:13 | every remaining character comes from the input, and every input character in the class remains |
| SlugText.RetainAppend | services/product-service/src/main/java/com/sj/product_service/util/SlugUtil.java:13 | deletion works character by character in order: an empty text keeps nothing, one character is kept exactly when the class accepts it, and a concatenation keeps the kept characters of its first part followed by those of its second |
| SlugText.Trim | services/product-service/src/main/java/com/sj/product_service/util/SlugUtil.java:14 | `trim`: the result is a slice of the input, every character outside it is at most U+0020, and neither end of the result is |
| SlugText.TrimUnique | services/product-service/src/main/java/com/sj/product_service/util/SlugUtil.java:14 | any slice of the input with only characters up to U+0020 outside it and none at its ends is the trimmed text, so `Trim` computes exactly `String.trim` |
| SlugText.TrimKeeps | services/product-service/src/main/java/com/sj/product_service/util/SlugUtil.java:14 | trimming only removes characters: whatever holds of every input character holds of every remaining one |
| SlugText.CollapseShape | services/product-service/src/main/java/com/sj/product_service/util/SlugUtil.java:14 | after separator runs collapse to one hyphen, no two hyphens are adjacent, no hyphen leads when the input continues a run, and the text gets no longer |
| SlugText.CollapseKeeps | services/product-service/src/main/java/com/sj/product_service/util/SlugUtil.java:14 | collapsing adds only hyphens: every other character is a non-separator of the input, so any property of the input characters carries over |
| SlugText.CollapseLeading | services/product-service/src/main/java/com/sj/product_service/service/SlugService.java:20 | a leading separator run leaves a leading hyphen |
| SlugText.CollapseTrailing | services/product-service/src/main/java/com/sj/product_service/service/SlugService.java:20 | a trailing separator run leaves a trailing hyphen |
| SlugText.PrefixKeepsShape | services/product-service/src/main/java/com/sj/product_service/util/SlugUtil.java:17-18 | a prefix of a slug body keeps its character class and has no double hyphen |
| SlugText.RetainEnds | services/product-service/src/main/java/com/sj/product_service/util/SlugUtil.java:13-14 | deleting characters does not create whitespace at the ends |
| SlugUtil.Body | services/product-service/src/main/java/com/sj/product_service/util/SlugUtil.java:10-19 | the body has at most 40 characters, only `a`-`z`, `0`-`9` and `-`, and never two adjacent hyphens |
| SlugUtil.ToSlug | services/product-service/src/main/java/com/sj/product_service/util/SlugUtil.java:6-22 | null gives ""; otherwise the body, a hyphen and the first 8 characters of the UUID text, at most 49 characters |
| SlugUtil.SuffixDistinguishes | services/product-service/src/main/java/com/sj/product_service/util/SlugUtil.java:20-21 | the same name with UUIDs that differ in their first 8 characters gives different slugs |
| SlugUtil.SlugCharacters | services/product-service/src/main/java/com/sj/product_service/util/SlugUtil.java:13-21 | every character of a slug is a lower-case letter, a digit or a hyphen |
| SlugService.SanitizeShape | services/product-service/src/main/java/com/sj/product_service/service/SlugService.java:19-21 | a sanitised name holds only `a`-`z`, `0`-`9` and `-`, never two adjacent hyphens; leading or trailing whitespace leaves a hyphen there |
| SlugService.GenerateProductSlug | services/product-service/src/main/java/com/sj/product_service/service/SlugService.java:8-12 | the sanitised name cut to 50 characters, a hyphen, then the first 8 characters of the id when it has at least 8 |
| SlugService.ProductSlugBase | services/product-service/src/main/java/com/sj/product_service/service/SlugService.java:9-11 | the part before the joining hyphen is a prefix of the sanitised name of at most 50 characters |
| SlugService.ProductSlugCanDoubleHyphen | services/product-service/src/main/java/com/sj/product_service/service/SlugService.java:11 | the join can produce "--" ("a " gives "a--"), and an id shorter than 8 gives a trailing hyphen |
| SlugService.GenerateCategorySlug | services/product-service/src/main/java/com/sj/product_service/service/SlugService.java:14-17 | with a non-blank parent slug, the parent, "/" and the sanitised name; otherwise the sanitised name |
| SlugService.CategorySlugLastSegment | services/product-service/src/main/java/com/sj/product_service/service/SlugService.java:15-16 | the text after the last "/" of a category slug is the sanitised name |
| CacheKeys.ProductKey | services/product-service/src/main/java/com/sj/product_service/cache/CacheKeys.java:6-8 | "product:" followed by the id |
| CacheKeys.CategoryProductsKey | services/product-service/src/main/java/com/sj/product_service/cache/CacheKeys.java:10-12 | "category:", the slug, then ":products:page:" and the page as `Integer.toString` writes it |
| CacheKeys.SellerProductsKey | services/product-service/src/main/java/com/sj/product_service/cache/CacheKeys.java:14-16 | "seller:", the id, then ":products:page:" and the page |
| CacheKeys.InventoryKey | services/product-service/src/main/java/com/sj/product_service/cache/CacheKeys.java:18-20 | "inventory:" followed by the id |
| CacheKeys.SearchKey | services/product-service/src/main/java/com/sj/product_service/cache/CacheKeys.java:22-24 | "search:" followed by the hash |
| CacheKeys.CategoryFiltersKey | services/product-service/src/main/java/com/sj/product_service/cache/CacheKeys.java:26-28 | "category:", the id, then ":filters" |
| CacheKeys.ProductKeyInjective | services/product-service/src/main/java/com/sj/product_service/cache/CacheKeys.java:6-8 | equal product keys name the same product |
| CacheKeys.InventoryKeyInjective | services/product-service/src/main/java/com/sj/product_service/cache/CacheKeys.java:18-20 | equal inventory keys name the same product |
| CacheKeys.CategoryProductsKeyInjective | services/product-service/src/main/java/com/sj/product_service/cache/CacheKeys.java:10-12 | for colon-free slugs, equal category page keys name the same slug and page |
| CacheKeys.SellerProductsKeyInjective | services/product-service/src/main/java/com/sj/product_service/cache/CacheKeys.java:14-16 | for colon-free ids, equal seller page keys name the same seller and page |
| CacheKeys.KeyFamiliesDiffer | services/product-service/src/main/java/com/sj/product_service/cache/CacheKeys.java:6-20 | product, inventory, category page and seller page keys never coincide |
| CacheKeys.SearchKeysDiffer | services/product-service/src/main/java/com/sj/product_service/cache/CacheKeys.java:14-24 | a search key never equals a product, inventory or seller page key |
| CacheKeys.PageKeyIsNotFiltersKey | services/product-service/src/main/java/com/sj/product_service/cache/CacheKeys.java:10-12 | a category page key never equals a category filters key, whatever the slug, the id and the page: the one ends in a digit, the other in `s` |
| JavaInt.DecimalInjective | services/product-service/src/main/java/com/sj/product_service/cache/CacheKeys.java:11 | different `int`s print differently, so page numbers in keys are unambiguous |
| ProductCacheHandler.ProductCacheHandler.HandleProductUpdate | services/product-service/src/main/java/com/sj/product_service/service/ProductCacheHandler.java:23-44 | the new cache is the old one minus exactly `InvalidatedKeys(event)`; with a null product id, the old cache |
| ProductCacheHandler.ProductCacheHandler.EvictAllCategoryPages | services/product-service/src/main/java/com/sj/product_service/service/ProductCacheHandler.java:30-37 | the loop over the event's categories removes exactly the first pages of every listed category |
| ProductCacheHandler.ProductCacheHandler.EvictCategoryPages | services/product-service/src/main/java/com/sj/product_service/service/ProductCacheHandler.java:31-36 | exactly pages 0 to 4 of the category's listing are removed |
| ProductCacheHandler.ProductCacheHandler.EvictSellerPages | services/product-service/src/main/java/com/sj/product_service/service/ProductCacheHandler.java:39-43 | exactly pages 0 to 4 of the seller's listing are removed |
| ProductCacheHandler.CategoryPagesMembers | services/product-service/src/main/java/com/sj/product_service/service/ProductCacheHandler.java:30-37 | a key is removed for the categories exactly when it is page 0 to 4 of a listed category |
| ProductCacheHandler.ProductUpdateClears | services/product-service/src/main/java/com/sj/product_service/service/ProductCacheHandler.java:25-43 | the product key, pages 0 to 4 of every listed category, and pages 0 to 4 of the seller when given, are among the removed keys |
| ProductCacheHandler.LaterCategoryPagesUntouched | services/product-service/src/main/java/com/sj/product_service/service/ProductCacheHandler.java:33 | no category page from 5 on is removed |
| ProductCacheHandler.LaterSellerPagesUntouched | services/product-service/src/main/java/com/sj/product_service/service/ProductCacheHandler.java:40 | no seller page from 5 on is removed |
| ProductCacheHandler.InventoryEntriesUntouched | services/product-service/src/main/java/com/sj/product_service/service/ProductCacheHandler.java:23-44 | a product event never removes an inventory entry |
| ProductCacheHandler.ProductCacheHandler.HandleInventoryUpdate | services/product-service/src/main/java/com/sj/product_service/service/ProductCacheHandler.java:46-56 | with a product id and a serialised event, only the inventory key is written, with a 300-second time to live; otherwise the cache is unchanged |
| KafkaEventPublisher.Diff | services/product-service/src/main/java/com/sj/product_service/service/impl/KafkaEventPublisher.java:98-109 | the diff's keys are keys of the after map whose value changed (null to non-null, or non-null to something different), each mapped to its after value |
| KafkaEventPublisher.DiffProducts | services/product-service/src/main/java/com/sj/product_service/service/impl/KafkaEventPublisher.java:98-109 | the loop over the after map returns exactly `Diff(before, after)` |
| KafkaEventPublisher.DiffWithSelfIsEmpty | services/product-service/src/main/java/com/sj/product_service/service/impl/KafkaEventPublisher.java:104 | a map diffed against itself gives no changes |
| KafkaEventPublisher.DiffReportsSetsAndChangesOnly | services/product-service/src/main/java/com/sj/product_service/service/impl/KafkaEventPublisher.java:102-105 | removals and null-to-null are never reported; null-to-value and value changes are, with the after value |
| KafkaEventPublisher.DiffRestoresAfter | services/product-service/src/main/java/com/sj/product_service/service/impl/KafkaEventPublisher.java:102-106 | the before map overwritten with the diff agrees with the after map on every after key, except a new key whose value is null |
| Ownership.HasRole | services/product-service/src/main/java/com/sj/product_service/security/ProductOwnershipValidator.java:77-81 | true exactly when some authority equals "ROLE_" + role |
| Ownership.IsOwnerOrAdmin | services/product-service/src/main/java/com/sj/product_service/security/ProductOwnershipValidator.java:20-47 | granted exactly to an admin, or to the seller of an existing product; it throws only for a non-admin, a known user and an existing product without a seller |
| Ownership.CanViewProduct | services/product-service/src/main/java/com/sj/product_service/security/ProductOwnershipValidator.java:49-75 | granted exactly to an admin, for an active product, or to its seller; it throws only for a non-admin, a non-active product, a known user and no seller |
| Ownership.OwnerCanView | services/product-service/src/main/java/com/sj/product_service/security/ProductOwnershipValidator.java:20-75 | whoever may change an existing product may view it |
| Ownership.AdminIsAlwaysGranted | services/product-service/src/main/java/com/sj/product_service/security/ProductOwnershipValidator.java:24-27 | an admin is granted both rights, even for a product that does not exist |
| Ownership.RoleNamesMatchExactly | services/product-service/src/main/java/com/sj/product_service/security/ProductOwnershipValidator.java:80 | role names match exactly: "ADMIN", "role_admin" and "ROLE_ADMINS" grant nothing |
| Ownership.NonCanonicalUserIdNeverOwns | services/product-service/src/main/java/com/sj/product_service/security/ProductOwnershipValidator.java:43 | a user id that is not canonical lower-case UUID text never matches a seller |
| OrderService.Total | services/order-service/src/main/java/com/sj/order_service/service/impl/OrderServiceImpl.java:33-35 | the reduce from zero: null exactly when some price is null |
| OrderService.TotalIsSum | services/order-service/src/main/java/com/sj/order_service/service/impl/OrderServiceImpl.java:33-35 | with every price known, the total is Σ price × quantity |
| OrderService.TotalAppend | services/order-service/src/main/java/com/sj/order_service/service/impl/OrderServiceImpl.java:35 | no items give 0; appending an item adds exactly its price × quantity |
| OrderService.TotalNullAt | services/order-service/src/main/java/com/sj/order_service/service/impl/OrderServiceImpl.java:34 | one null price makes the whole total null |
| OrderService.OrderItem.constructor | services/order-service/src/main/java/com/sj/order_service/service/impl/OrderServiceImpl.java:63-69 | the item copies product id, quantity and price, with no order yet |
| OrderService.Order.constructor | services/order-service/src/main/java/com/sj/order_service/service/impl/OrderServiceImpl.java:46-54 | the built order holds the given fields and no items |
| OrderService.Order.SetItems | services/order-service/src/main/java/com/sj/order_service/entity/Order.java:39-44 | the order holds the list, every item points back at it, and nothing else changes |
| OrderService.MapToOrderItems | services/order-service/src/main/java/com/sj/order_service/service/impl/OrderServiceImpl.java:29-31 | fails exactly when the list holds a null element; otherwise one new, distinct item per requested item, in order, each a copy of its request |
| OrderService.TotalOf | services/order-service/src/main/java/com/sj/order_service/service/impl/OrderServiceImpl.java:33-35 | the loop over the mapped items yields null exactly when `Total` is null, and otherwise the same total |
| OrderService.OrderStore.CreateOrder | services/order-service/src/main/java/com/sj/order_service/service/impl/OrderServiceImpl.java:26-60 | a null item list, a null element or a null price fails and saves nothing; otherwise one new order is saved, status "NEW", fields copied, one fresh item per requested item in order, every item pointing back at it, total = `Total` |
| UserService.FindByEmail | services/user-service/src/main/java/com/sj/user_service/service/impl/UserServiceImpl.java:24 | the user with that address, or none exactly when no user has it |
| UserService.FindById | services/user-service/src/main/java/com/sj/user_service/service/impl/UserServiceImpl.java:40 | the user with that id, or none exactly when no user has it |
| UserService.ToDto | services/user-service/src/main/java/com/sj/user_service/service/impl/UserServiceImpl.java:75-82 | the response copies id, e-mail, role and enabled |
| UserService.ToDtoHidesPassword | services/user-service/src/main/java/com/sj/user_service/service/impl/UserServiceImpl.java:75-82 | the response does not depend on the stored password |
| UserService.GetUser | services/user-service/src/main/java/com/sj/user_service/service/impl/UserServiceImpl.java:38-43 | the user's response, or "User not found" exactly when no user has the id, in particular for every id below 1 |
| UserService.Login | services/user-service/src/main/java/com/sj/user_service/service/impl/UserServiceImpl.java:45-52 | succeeds exactly when the address is registered and the encoder matches the password; both failures carry "Invalid credentials" |
| UserService.UserStore.RegisterUser | services/user-service/src/main/java/com/sj/user_service/service/impl/UserServiceImpl.java:22-36 | a registered address fails with "Email already registered" and changes nothing; otherwise exactly one user is appended, with the encoded password, the role or "SELLER", enabled |
| UserService.AppendKeepsWellFormed | services/user-service/src/main/java/com/sj/user_service/service/impl/UserServiceImpl.java:24-34 | a new address keeps addresses unique and ids in sequence |
| UserService.FindAfterAppend | services/user-service/src/main/java/com/sj/user_service/service/impl/UserServiceImpl.java:24-34 | after registration, the lookup by the new address finds the new user |
| UserService.RegisteredUserCanLogIn | services/user-service/src/main/java/com/sj/user_service/service/impl/UserServiceImpl.java:22-52 | a freshly registered user logs in with the raw password whenever the encoder accepts its own encoding |

## Left out

- Logging, Kafka sends, `ApplicationEventPublisher` events and `updateInventoryCache`/`clearInventoryCache` (Redis): output only, no effect on the stored state modelled here.
- `adjustStock`, `fulfillOrder`, `releaseReservedStock` and `createInventoryForProductWithStock`: the interface declares them, but no implementation exists.
- Repository methods the services call but the repository interfaces do not declare. `InventoryRepository` declares only `findByProduct`, and `CategoryRepository` declares neither of the two category finders below. The model gives each the meaning its derived-query name states:
  - `findByProductIdAndVariantIdAndLocationId` (InventoryServiceImpl.java:56, :177, :202): a single-result finder over the natural key, where a null variant or location matches a null column, and two matching rows are a non-unique-result error (`Matching`, `Lookup`).
  - `findByProductId` (:115, :336, :346) and `findByProductIdAndLocationId` (:122, :145): filters that return the matching rows in id order (`Select`, `FindByProductId`).
  - `getTotalAvailableQuantity` (:137): an SQL `SUM` of `available_quantity` over the product's rows, null when no row is non-null and read as 0 by the service (`SqlSum`, `GetAvailableQuantity`).
  - `findByProductIdAndVariantId` (:129): only used by `getInventoryByProductAndVariant`, which is left out below.
  - `findByIsActiveTrueOrderByNameAsc` (CategoryServiceImpl.java:109, :125): the active categories (`Active`); the name order is not modelled.
  - `findByParent` (CategoryServiceImpl.java:140): the direct children of the category (`ChildrenOf`).
- Low-stock, out-of-stock and restock-needed queries: the repository methods they call (`findLowStockInventoryByThreshold`, `findLowStockInventory`) are not declared either, and their names fix no threshold semantics, so the model gives them no meaning.
- `getInventoryByLocation` and `syncInventoryWithProduct`: stubs that return an empty list and do nothing.
- `getInventoryById`, `getInventoryByProduct(AndLocation)`, `getInventoryByProductAndVariant` and `getAllInventory`: plain lookups. `FindByProductId` and `Select` cover the filters they use.
- Pagination and listing order (`OrderByNameAsc`): listings are maps or are kept in id order.
- Concurrency: each operation is one atomic step. The source has no version column.
- Bean Validation and database constraints (`@Min`, `@NotNull`, unique columns): the model does not enforce them at run time. They become predicates (`WithinBounds`, `Balanced`, `KeysUnique`, `WellFormed`), and lemmas state which operations keep them.
- The variant's membership in its product: `createInventory` checks only that the variant exists, and so does the model.
- InventoryService.InventoryLedger.BulkUpdateInventory: an entity whose id names no stored row is inserted under a new generated id. That is the merge of persistence providers that persist a detached entity with an unknown id anew; providers that reject such a merge with an optimistic-lock error are not modelled.
- `Integer`/`Long` typing of the database `SUM`: `GetAvailableQuantity` returns the exact sum, without narrowing to `int`.
- The clock: each operation reads one instant `now`. Two successive `LocalDateTime.now()` calls in the same operation are modelled as the same instant.
- SlugText.Lower, SlugUtil.Body, SlugUtil.ToSlug, SlugService.Sanitize: lower-casing and NFD normalisation are modelled for ASCII only, so results differ from the source on non-ASCII input. The source decomposes accented letters and deletes the combining marks, so "Café" gives the body "cafe"; the model deletes the "é" and gives "caf". `toLowerCase` also maps U+212A KELVIN SIGN to "k" and U+0130 to "i" followed by U+0307, which the model deletes instead. The model assumes a default locale that is not Turkish or Azeri: under those locales `toLowerCase` turns "I" into a dotless "ı", which the character class then deletes ("IPHONE" gives "phone"), and the model does not capture that.
- SlugService.GenerateProductSlug: takes a non-null name. The source throws on a null name; the model does not represent that case.
- SlugService.GenerateCategorySlug: takes a non-null name, for the same reason.
- CategoryService.CreateOutcome, CategoryService.CategoryStore.CreateCategory: the success branch holds only where the `@NotNull` and `nullable = false` constraints on `Category.leftBound`/`rightBound` (Category.java:62-68) are not enforced. `createCategory` (CategoryServiceImpl.java:35-53) never sets these fields, so with Bean Validation on persist or a generated schema every save it makes would be rejected. The model leaves the two fields out and lets the save succeed. The category mapper and the response DTOs are plain field copies.
- CategoryService.CreateKeepsLevelsNonNegative: only for a parent below the `int` maximum. Past it the level wraps (`LevelCanWrap`).
- Null elements inside `categoryIds` are not modelled. The source would throw there after partly clearing the cache.
- The authentication object: only its authority names and the current user id are modelled. `extractUserIdFromAuth` returns a constant; the model takes the user id as a parameter. A null authority string is not modelled.
- The unused `token` parameter of `createOrder`, and the commented-out stock check.
- Order and user ids generated by the database: the model stores orders in a sequence and numbers users 1, 2, … in insertion order.
- A null id passed to `getUser`: the repository rejects it before any lookup; the model's ids are plain integers. User ids are unbounded, so the 64-bit range of `Long` is not modelled.
- The password encoder's internals and JWT generation: `encode` and `matches` are parameters.
- `getUserByEmail` and `getUserEntityByEmail`: the same lookup as `FindByEmail` with different messages.
- A null e-mail or password in a registration or login request: the model does not represent it. The encoder and the `NOT NULL` columns would reject it.
- A product map value's `equals`: modelled as value equality, which is reflexive. Jackson's conversion of a product to a map is not modelled; the diff takes the two maps.
