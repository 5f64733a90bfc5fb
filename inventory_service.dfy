/** The stock ledger of the product service (`InventoryServiceImpl`): a store of inventory
    rows keyed by a generated id, the operations that create and change rows, and the
    aggregate queries over them. Row lookups by natural key, by product and by product and
    location are filters over the store. */
module InventoryService {
  import opened Base
  import opened JavaInt
  import opened InventoryEntity

  /** A generated row id. */
  type Id = nat

  /** The stored rows, by id. */
  type Rows = map<Id, InventoryRecord>

  /** Why an operation throws. */
  datatype InventoryError =
    | ProductNotFound    // no such product
    | VariantNotFound    // a variant id was given and no such variant exists
    | AlreadyExists      // a row for this (product, variant, location) exists
    | NotFound           // no row with this id or natural key
    | NonUniqueResult    // a single-result finder matched several rows
    | InsufficientStock  // reserving more than is available
    | OverRelease        // releasing more than is reserved
    | NullPointer        // unboxing a null counter or argument

  /** One of the four single-field setters that `updateInventory`, `updateReservedQuantity`,
      `updateReorderLevel` and `updateMaxLevel` apply. */
  datatype FieldUpdate =
    | SetQuantity(quantity: Option<Int32>)
    | SetReserved(reserved: Option<Int32>)
    | SetReorderLevel(reorderLevel: Option<Int32>)
    | SetMaxLevel(maxLevel: Option<Int32>)

  /** An entity handed to `bulkUpdateInventory`: with the id of a stored row, or a new one. */
  datatype BulkEntry = BulkEntry(id: Option<Id>, record: InventoryRecord)

  // ---------------------------------------------------------------------------------------
  // Finders and store-wide predicates
  // ---------------------------------------------------------------------------------------

  /** The ids of the rows with natural key `k` (`findByProductIdAndVariantIdAndLocationId`;
      a null variant or location matches a null column). */
  function Matching(rows: Rows, k: NaturalKey): set<Id> {
    set id | id in rows && rows[id].key == k
  }

  /** What the single-result finder returns for `k`. */
  ghost function Lookup(rows: Rows, k: NaturalKey): (r: Result<Id, InventoryError>)
    ensures r.Success? ==> r.value in rows && rows[r.value].key == k && Matching(rows, k) == {r.value}
    ensures r.Failure? ==> r.error == NotFound || r.error == NonUniqueResult
    ensures r == Failure(NotFound) <==> forall id :: id in rows ==> rows[id].key != k
  {
    var ids := Matching(rows, k);
    if ids == {} then
      assert forall id :: id in rows && rows[id].key == k ==> id in ids;
      Failure(NotFound)
    else if |ids| == 1 then
      var id :| id in ids;
      SingletonIs(ids, id);
      Success(id)
    else Failure(NonUniqueResult)
  }

  lemma SingletonIs<T>(s: set<T>, x: T)
    requires |s| == 1 && x in s
    ensures s == {x}
  {
    assert |s - {x}| == 0;
  }

  /** No two rows share a natural key. */
  predicate KeysUnique(rows: Rows) {
    forall i, j :: i in rows && j in rows && rows[i].key == rows[j].key ==> i == j
  }

  /** Every row satisfies 0 <= reserved <= quantity. */
  predicate AllBalanced(rows: Rows) {
    forall id :: id in rows ==> Balanced(rows[id])
  }

  /** Every row satisfies the entity's declared bounds and its stored available count is current. */
  predicate AllSound(rows: Rows) {
    forall id :: id in rows ==> WithinBounds(rows[id]) && AvailableInSync(rows[id])
  }

  /** With unique natural keys the single-result finder never reports several rows. */
  lemma {:induction false} UniqueKeysLookup(rows: Rows, k: NaturalKey)
    requires KeysUnique(rows)
    ensures Lookup(rows, k) != Failure(NonUniqueResult)
  {
    AtMostOne(Matching(rows, k));
  }

  lemma AtMostOne<T>(s: set<T>)
    requires forall a, b :: a in s && b in s ==> a == b
    ensures |s| <= 1
  {
    if s != {} {
      var a :| a in s;
      assert s == {a};
    }
  }

  // ---------------------------------------------------------------------------------------
  // Row transitions: the setters each operation applies, followed by the entity's hook
  // ---------------------------------------------------------------------------------------

  /** The row a successful `createInventory` persists. */
  function NewRecord(k: NaturalKey, quantity: Option<Int32>, now: Time): InventoryRecord {
    Touched(InventoryRecord(k, quantity, Some(0), None, Some(5), None, None, Some(now), None), now)
  }

  /** `reserveStock` on one row: reject when the stored available count is short, otherwise
      add to the reservation and record who reserved. */
  function ReserveRow(r: InventoryRecord, quantity: Option<Int32>, userId: Option<Uuid>, now: Time)
    : Result<InventoryRecord, InventoryError>
  {
    if r.availableQuantity.None? || quantity.None? then Failure(NullPointer)
    else if r.availableQuantity.value < quantity.value then Failure(InsufficientStock)
    else if r.reservedQuantity.None? then Failure(NullPointer)
    else
      var reserved := Wrap(r.reservedQuantity.value + quantity.value);
      Success(Touched(r.(reservedQuantity := Some(reserved), lastUpdatedAt := Some(now),
                         updatedBy := userId), now))
  }

  /** `releaseStock` on one row: reject a release larger than the reservation, otherwise
      subtract it. */
  function ReleaseRow(r: InventoryRecord, quantity: Option<Int32>, now: Time)
    : Result<InventoryRecord, InventoryError>
  {
    if r.reservedQuantity.None? || quantity.None? then Failure(NullPointer)
    else if r.reservedQuantity.value < quantity.value then Failure(OverRelease)
    else
      var reserved := Wrap(r.reservedQuantity.value - quantity.value);
      Success(Touched(r.(reservedQuantity := Some(reserved), lastUpdatedAt := Some(now)), now))
  }

  /** `restockInventory` on one row: add to the stock and stamp the restock time and actor. */
  function RestockRow(r: InventoryRecord, quantity: Option<Int32>, updatedBy: Option<Uuid>, now: Time)
    : Result<InventoryRecord, InventoryError>
  {
    if r.quantity.None? || quantity.None? then Failure(NullPointer)
    else
      var total := Wrap(r.quantity.value + quantity.value);
      Success(Touched(r.(quantity := Some(total), lastRestockedAt := Some(now),
                         lastUpdatedAt := Some(now), updatedBy := updatedBy), now))
  }

  /** One of the unchecked setters on one row. */
  function AssignRow(r: InventoryRecord, u: FieldUpdate, now: Time): InventoryRecord {
    var changed := (match u
      case SetQuantity(q) => r.(quantity := q)
      case SetReserved(q) => r.(reservedQuantity := q)
      case SetReorderLevel(q) => r.(reorderLevel := q)
      case SetMaxLevel(q) => r.(maxLevel := q));
    Touched(changed.(lastUpdatedAt := Some(now)), now)
  }

  // ---------------------------------------------------------------------------------------
  // Store transitions: what each operation does to the whole store
  // ---------------------------------------------------------------------------------------

  /** The store after writing the outcome of a row transition at `id`. */
  function Commit(rows: Rows, id: Id, step: Result<InventoryRecord, InventoryError>)
    : Result<Rows, InventoryError>
  {
    match step
    case Success(r) => Success(rows[id := r])
    case Failure(e) => Failure(e)
  }

  ghost function AfterCreate(rows: Rows, newId: Id, products: set<Uuid>, variants: set<Uuid>,
                             k: NaturalKey, quantity: Option<Int32>, now: Time)
    : Result<Rows, InventoryError>
  {
    if k.productId !in products then Failure(ProductNotFound)
    else if k.variantId.Some? && k.variantId.value !in variants then Failure(VariantNotFound)
    else match Lookup(rows, k)
      case Success(_) => Failure(AlreadyExists)
      case Failure(NonUniqueResult) => Failure(NonUniqueResult)
      case Failure(_) => Success(rows[newId := NewRecord(k, quantity, now)])
  }

  ghost function AfterReserve(rows: Rows, k: NaturalKey, quantity: Option<Int32>,
                              userId: Option<Uuid>, now: Time): Result<Rows, InventoryError>
  {
    match Lookup(rows, k)
    case Failure(e) => Failure(e)
    case Success(id) => Commit(rows, id, ReserveRow(rows[id], quantity, userId, now))
  }

  ghost function AfterRelease(rows: Rows, k: NaturalKey, quantity: Option<Int32>, now: Time)
    : Result<Rows, InventoryError>
  {
    match Lookup(rows, k)
    case Failure(e) => Failure(e)
    case Success(id) => Commit(rows, id, ReleaseRow(rows[id], quantity, now))
  }

  function AfterRestock(rows: Rows, id: Id, quantity: Option<Int32>, updatedBy: Option<Uuid>, now: Time)
    : Result<Rows, InventoryError>
  {
    if id !in rows then Failure(NotFound)
    else Commit(rows, id, RestockRow(rows[id], quantity, updatedBy, now))
  }

  function AfterAssign(rows: Rows, id: Id, u: FieldUpdate, now: Time): Result<Rows, InventoryError> {
    if id !in rows then Failure(NotFound) else Success(rows[id := AssignRow(rows[id], u, now)])
  }

  function AfterDelete(rows: Rows, id: Id): Result<Rows, InventoryError> {
    if id !in rows then Failure(NotFound) else Success(rows - {id})
  }

  /** `saveAll`: each entity with a stored id is merged into that row, which is written (and
      the hook run) only when the entity differs from it; any other entity is inserted under
      the next generated id. Returns the rows and the next free id. */
  function AfterBulk(rows: Rows, next: Id, entries: seq<BulkEntry>, now: Time): (Rows, Id)
    decreases |entries|
  {
    if entries == [] then (rows, next)
    else
      var (m, n) := AfterBulk(rows, next, entries[..|entries| - 1], now);
      var e := entries[|entries| - 1];
      if e.id.Some? && e.id.value in m then
        if e.record == m[e.id.value] then (m, n) else (m[e.id.value := Touched(e.record, now)], n)
      else (m[n := Touched(e.record, now)], n + 1)
  }

  /** A `void` operation's outcome and the store it leaves agree with its store transition:
      on success the new store, on failure the same error and the old store. */
  ghost predicate Applied(before: Rows, after: Rows, r: Outcome<InventoryError>,
                          step: Result<Rows, InventoryError>)
  {
    match step
    case Success(m) => r == Pass && after == m
    case Failure(e) => r == Fail(e) && after == before
  }

  // ---------------------------------------------------------------------------------------
  // Aggregates
  // ---------------------------------------------------------------------------------------

  /** The filters of the list-returning finders. */
  datatype Query =
    | ByProduct(productId: Uuid)                                   // findByProductId
    | ByProductAndLocation(productId: Uuid, locationId: Option<Uuid>)  // findByProductIdAndLocationId

  predicate Selects(q: Query, r: InventoryRecord) {
    match q
    case ByProduct(p) => r.key.productId == p
    case ByProductAndLocation(p, l) => r.key.productId == p && r.key.locationId == l
  }

  /** The row stored under `id`, as a list of one, when `q` selects it; nothing otherwise. */
  function Entry(rows: Rows, id: nat, q: Query): seq<InventoryRecord> {
    if id in rows && Selects(q, rows[id]) then [rows[id]] else []
  }

  /** The rows with id below `n` that `q` selects, in id order. */
  function Select(rows: Rows, n: nat, q: Query): seq<InventoryRecord> {
    if n == 0 then [] else Select(rows, n - 1, q) + Entry(rows, n - 1, q)
  }

  /** The counters the aggregates add up. */
  datatype Counter = Quantity | Reserved | Available

  function CounterOf(r: InventoryRecord, c: Counter): Option<Int32> {
    match c
    case Quantity => r.quantity
    case Reserved => r.reservedQuantity
    case Available => r.availableQuantity
  }

  /** The exact sum of a counter over a list, a null counting as zero. */
  function ExactSum(list: seq<InventoryRecord>, c: Counter): int {
    if list == [] then 0 else CounterOf(list[0], c).GetOr(0) + ExactSum(list[1..], c)
  }

  predicate AllPresent(list: seq<InventoryRecord>, c: Counter) {
    forall i :: 0 <= i < |list| ==> CounterOf(list[i], c).Some?
  }

  /** A list has every counter present exactly when its head does and its tail does. */
  lemma AllPresentCons(list: seq<InventoryRecord>, c: Counter)
    requires list != []
    ensures AllPresent(list, c) <==> CounterOf(list[0], c).Some? && AllPresent(list[1..], c)
  {
    assert forall i :: 1 <= i < |list| ==> list[1..][i - 1] == list[i];
  }

  /** `list.stream().mapToInt(getter).sum()` started from `acc`: unboxing a null throws,
      and the running `int` total wraps around. */
  function RunningSum(list: seq<InventoryRecord>, c: Counter, acc: Int32)
    : (s: Result<Int32, InventoryError>)
    ensures s.Success? <==> AllPresent(list, c)
    ensures s.Failure? ==> s.error == NullPointer
    ensures s.Success? ==> s.value == Wrap(acc + ExactSum(list, c))
  {
    if list == [] then Success(acc)
    else
      AllPresentCons(list, c);
      match CounterOf(list[0], c)
      case None => Failure(NullPointer)
      case Some(v) =>
        WrapAddLeft(acc + v, ExactSum(list[1..], c));
        RunningSum(list[1..], c, Wrap(acc + v))
  }

  /** `Select` lists exactly the stored rows below `n` that the query selects. */
  lemma {:induction false} SelectExactly(rows: Rows, n: nat, q: Query)
    ensures forall i :: 0 <= i < |Select(rows, n, q)| ==> Selects(q, Select(rows, n, q)[i])
    ensures forall id :: id in rows && id < n && Selects(q, rows[id]) ==> rows[id] in Select(rows, n, q)
    ensures forall i :: 0 <= i < |Select(rows, n, q)| ==> Select(rows, n, q)[i] in rows.Values
  {
    if n > 0 {
      SelectExactly(rows, n - 1, q);
      var prefix := Select(rows, n - 1, q);
      var list := Select(rows, n, q);
      assert forall i :: 0 <= i < |prefix| ==> list[i] == prefix[i];
      if n - 1 in rows {
        assert rows[n - 1] in rows.Values;
      }
    }
  }

  /** `IntStream.sum()` over the counter of every listed row. */
  function StreamSum(list: seq<InventoryRecord>, c: Counter): Result<Int32, InventoryError> {
    RunningSum(list, c, 0)
  }

  /** SQL `SUM` over a column: nulls are skipped, and no non-null value gives null. */
  function SqlSum(list: seq<InventoryRecord>, c: Counter): (s: Option<int>)
    ensures s.GetOr(0) == ExactSum(list, c)
    ensures s.None? <==> forall i :: 0 <= i < |list| ==> CounterOf(list[i], c).None?
  {
    if exists i :: 0 <= i < |list| && CounterOf(list[i], c).Some? then Some(ExactSum(list, c))
    else
      NullsSumToZero(list, c);
      None
  }

  lemma {:induction false} NullsSumToZero(list: seq<InventoryRecord>, c: Counter)
    requires forall i :: 0 <= i < |list| ==> CounterOf(list[i], c).None?
    ensures ExactSum(list, c) == 0
  {
    if list != [] {
      assert forall i :: 1 <= i < |list| ==> list[1..][i - 1] == list[i];
      NullsSumToZero(list[1..], c);
    }
  }

  lemma {:induction false} ExactSumAppend(a: seq<InventoryRecord>, b: seq<InventoryRecord>, c: Counter)
    ensures ExactSum(a + b, c) == ExactSum(a, c) + ExactSum(b, c)
  {
    if a == [] {
      assert a + b == b;
    } else {
      assert (a + b)[1..] == a[1..] + b;
      ExactSumAppend(a[1..], b, c);
    }
  }

  /** The exact sum of a counter over the selected rows below `n`, added up id by id. */
  function SelectedSum(rows: Rows, n: nat, q: Query, c: Counter): int {
    if n == 0 then 0
    else
      SelectedSum(rows, n - 1, q, c)
      + (if n - 1 in rows && Selects(q, rows[n - 1]) then CounterOf(rows[n - 1], c).GetOr(0) else 0)
  }

  /** Summing the selected list equals summing id by id. */
  lemma {:induction false} SelectedSumIsExactSum(rows: Rows, n: nat, q: Query, c: Counter)
    ensures ExactSum(Select(rows, n, q), c) == SelectedSum(rows, n, q, c)
  {
    if n > 0 {
      SelectedSumIsExactSum(rows, n - 1, q, c);
      var e := Entry(rows, n - 1, q);
      ExactSumAppend(Select(rows, n - 1, q), e, c);
      assert e != [] ==> e[1..] == [];
    }
  }

  /** Replacing one row changes the id-by-id sum by the difference of the two counters
      when the query selects the row. */
  lemma {:induction false} SelectedSumAfterUpdate(rows: Rows, n: nat, q: Query, id: Id,
                                                  r: InventoryRecord, c: Counter)
    requires id in rows && Selects(q, rows[id]) == Selects(q, r)
    ensures SelectedSum(rows[id := r], n, q, c)
         == SelectedSum(rows, n, q, c)
            + (if id < n && Selects(q, r)
               then CounterOf(r, c).GetOr(0) - CounterOf(rows[id], c).GetOr(0) else 0)
  {
    if n > 0 {
      SelectedSumAfterUpdate(rows, n - 1, q, id, r, c);
    }
  }

  /** Replacing one row by a row that the query selects equally changes the exact sum of
      the selected rows by the difference of the two counters. */
  lemma SelectSumAfterUpdate(rows: Rows, n: nat, q: Query, id: Id, r: InventoryRecord, c: Counter)
    requires id in rows && Selects(q, rows[id]) == Selects(q, r)
    ensures ExactSum(Select(rows[id := r], n, q), c)
         == ExactSum(Select(rows, n, q), c)
            + (if id < n && Selects(q, r)
               then CounterOf(r, c).GetOr(0) - CounterOf(rows[id], c).GetOr(0) else 0)
  {
    SelectedSumIsExactSum(rows, n, q, c);
    SelectedSumIsExactSum(rows[id := r], n, q, c);
    SelectedSumAfterUpdate(rows, n, q, id, r, c);
  }

  /** Over rows within bounds whose stored available count is current, the available total
      is the stock total minus the reserved total. */
  lemma {:induction false} AvailableTotal(list: seq<InventoryRecord>)
    requires forall i :: 0 <= i < |list| ==>
      WithinBounds(list[i]) && list[i].reservedQuantity.Some? && AvailableInSync(list[i])
    ensures ExactSum(list, Available) == ExactSum(list, Quantity) - ExactSum(list, Reserved)
  {
    if list != [] {
      assert forall i :: 1 <= i < |list| ==> list[1..][i - 1] == list[i];
      AvailableTotal(list[1..]);
    }
  }

  // ---------------------------------------------------------------------------------------
  // Properties of the operations
  // ---------------------------------------------------------------------------------------

  /** A new row holds the given stock, nothing reserved, reorder level 5 and no maximum,
      and its available count equals its stock. */
  lemma NewRecordFields(k: NaturalKey, quantity: Int32, now: Time)
    ensures var r := NewRecord(k, Some(quantity), now);
      && r.key == k && r.quantity == Some(quantity) && r.reservedQuantity == Some(0)
      && r.availableQuantity == Some(quantity)
      && r.reorderLevel == Some(5) && r.maxLevel.None? && r.lastRestockedAt.None?
      && r.lastUpdatedAt == Some(now) && r.updatedBy.None?
      && (quantity >= 0 ==> WithinBounds(r) && Balanced(r))
  {
  }

  /** `createInventory` fails on an unknown product, on an unknown variant, and on a natural
      key that is already stored; otherwise it adds exactly one row, under the newId id. */
  lemma {:induction false} CreateOutcome(rows: Rows, newId: Id, products: set<Uuid>, variants: set<Uuid>,
                                         k: NaturalKey, quantity: Option<Int32>, now: Time)
    requires newId !in rows
    ensures var s := AfterCreate(rows, newId, products, variants, k, quantity, now);
      && (k.productId !in products ==> s == Failure(ProductNotFound))
      && (k.productId in products && k.variantId.Some? && k.variantId.value !in variants
          ==> s == Failure(VariantNotFound))
      && ((exists id :: id in rows && rows[id].key == k) ==> s.Failure?)
      && (s.Success? <==>
            && k.productId in products
            && (k.variantId.Some? ==> k.variantId.value in variants)
            && forall id :: id in rows ==> rows[id].key != k)
      && (s.Success? ==> s.value == rows[newId := NewRecord(k, quantity, now)]
                         && s.value.Keys == rows.Keys + {newId})
  {
    var lk := Lookup(rows, k);
    if (exists id :: id in rows && rows[id].key == k) {
      assert lk != Failure(NotFound);
    }
  }

  /** A successful `createInventory` keeps natural keys unique. */
  lemma {:induction false} CreateKeepsKeysUnique(rows: Rows, newId: Id, products: set<Uuid>,
      variants: set<Uuid>, k: NaturalKey, quantity: Option<Int32>, now: Time)
    requires KeysUnique(rows) && newId !in rows
    requires AfterCreate(rows, newId, products, variants, k, quantity, now).Success?
    ensures KeysUnique(AfterCreate(rows, newId, products, variants, k, quantity, now).value)
  {
    CreateOutcome(rows, newId, products, variants, k, quantity, now);
  }

  /** Rewriting one row without changing its natural key keeps natural keys unique and
      does not move any key. */
  lemma {:induction false} SameKeyCommit(rows: Rows, id: Id, r: InventoryRecord, k: NaturalKey)
    requires id in rows && rows[id].key == r.key
    ensures Matching(rows[id := r], k) == Matching(rows, k)
    ensures KeysUnique(rows) ==> KeysUnique(rows[id := r])
  {
    var m := rows[id := r];
    assert forall j :: j in m ==> m[j].key == rows[j].key;
  }

  /** `reserveStock` on one row: it fails exactly when a needed value is null or the stored
      available count is below the request; on a row within bounds whose available count is
      current, success adds exactly the request to the reservation, keeps the stock, records
      the actor and keeps the row within bounds for a non-negative request. */
  lemma ReserveRowEffect(r: InventoryRecord, q: Int32, userId: Option<Uuid>, now: Time)
    ensures ReserveRow(r, Some(q), userId, now).Failure? <==>
      r.availableQuantity.None? || r.reservedQuantity.None? || r.availableQuantity.value < q
    ensures r.availableQuantity.Some? && r.availableQuantity.value < q ==>
      ReserveRow(r, Some(q), userId, now) == Failure(InsufficientStock)
    ensures WithinBounds(r) && AvailableInSync(r) && ReserveRow(r, Some(q), userId, now).Success? ==>
      var t := ReserveRow(r, Some(q), userId, now).value;
      && t.reservedQuantity == Some(r.reservedQuantity.value + q)
      && (q >= 0 ==> t.availableQuantity == Some(r.availableQuantity.value - q))
      && t.quantity == r.quantity && t.updatedBy == userId && t.lastUpdatedAt == Some(now)
      && t.key == r.key && t.reorderLevel == r.reorderLevel && t.maxLevel == r.maxLevel
      && t.lastRestockedAt == r.lastRestockedAt
      && (q >= 0 ==> WithinBounds(t))
  {
  }

  /** For a non-negative request, a successful reservation keeps 0 <= reserved <= quantity. */
  lemma ReserveKeepsBalanced(r: InventoryRecord, q: Int32, userId: Option<Uuid>, now: Time)
    requires Balanced(r) && AvailableInSync(r) && q >= 0
    requires ReserveRow(r, Some(q), userId, now).Success?
    ensures Balanced(ReserveRow(r, Some(q), userId, now).value)
  {
  }

  /** `releaseStock` on one row never clamps: it fails exactly when a needed value is null or
      the request exceeds the reservation, and success subtracts exactly the request and
      keeps the stock. */
  lemma ReleaseRowEffect(r: InventoryRecord, q: Int32, now: Time)
    ensures ReleaseRow(r, Some(q), now).Failure? <==>
      r.reservedQuantity.None? || r.reservedQuantity.value < q
    ensures r.reservedQuantity.Some? && r.reservedQuantity.value < q ==>
      ReleaseRow(r, Some(q), now) == Failure(OverRelease)
    ensures q >= 0 && ReleaseRow(r, Some(q), now).Success? ==>
      var t := ReleaseRow(r, Some(q), now).value;
      && t.reservedQuantity == Some(r.reservedQuantity.value - q)
      && t.reservedQuantity.value <= r.reservedQuantity.value
      && (r.reservedQuantity.value >= 0 ==> t.reservedQuantity.value >= 0)
      && t.quantity == r.quantity && t.updatedBy == r.updatedBy && t.key == r.key
  {
  }

  /** For a non-negative request, a successful release keeps 0 <= reserved <= quantity. */
  lemma ReleaseKeepsBalanced(r: InventoryRecord, q: Int32, now: Time)
    requires Balanced(r) && q >= 0
    requires ReleaseRow(r, Some(q), now).Success?
    ensures Balanced(ReleaseRow(r, Some(q), now).value)
  {
  }

  /** Over the whole store: when every row is balanced and its available count is current, a
      successful reservation of a non-negative amount leaves every row balanced. */
  lemma {:induction false} ReserveKeepsAllBalanced(rows: Rows, k: NaturalKey, q: Int32,
                                                   userId: Option<Uuid>, now: Time)
    requires AllBalanced(rows) && (forall id :: id in rows ==> AvailableInSync(rows[id])) && q >= 0
    requires AfterReserve(rows, k, Some(q), userId, now).Success?
    ensures AllBalanced(AfterReserve(rows, k, Some(q), userId, now).value)
  {
    var id := Lookup(rows, k).value;
    ReserveKeepsBalanced(rows[id], q, userId, now);
  }

  /** Over the whole store: when every row is balanced, a successful release of a
      non-negative amount leaves every row balanced. */
  lemma {:induction false} ReleaseKeepsAllBalanced(rows: Rows, k: NaturalKey, q: Int32, now: Time)
    requires AllBalanced(rows) && q >= 0
    requires AfterRelease(rows, k, Some(q), now).Success?
    ensures AllBalanced(AfterRelease(rows, k, Some(q), now).value)
  {
    var id := Lookup(rows, k).value;
    ReleaseKeepsBalanced(rows[id], q, now);
  }

  /** Neither operation checks the sign of its request: releasing a negative amount grows the
      reservation past the stock. */
  lemma NegativeReleaseOverReserves()
    ensures var r := InventoryRecord(NaturalKey("p", None, None), Some(10), Some(0), Some(10),
                                     Some(5), None, None, None, None);
      && Balanced(r)
      && ReleaseRow(r, Some(-11), 0).Success?
      && !Balanced(ReleaseRow(r, Some(-11), 0).value)
  {
  }

  /** `restockInventory` on one row: adds exactly the request to the stock when the `int`
      sum does not overflow, keeps the reservation, and stamps the restock time; for a
      non-negative request it keeps the row balanced. Past 2^31 - 1 the stock wraps negative. */
  lemma RestockRowEffect(r: InventoryRecord, q: Int32, updatedBy: Option<Uuid>, now: Time)
    requires r.quantity.Some?
    ensures RestockRow(r, Some(q), updatedBy, now).Success?
    ensures var t := RestockRow(r, Some(q), updatedBy, now).value;
      && t.reservedQuantity == r.reservedQuantity
      && t.lastRestockedAt == Some(now) && t.lastUpdatedAt == Some(now)
      && t.updatedBy == updatedBy && t.key == r.key
      && (MIN <= r.quantity.value + q <= MAX ==> t.quantity == Some(r.quantity.value + q))
      && (r.quantity.value + q > MAX ==> t.quantity == Some(r.quantity.value + q - MODULUS)
                                         && t.quantity.value < 0)
      && (Balanced(r) && q >= 0 && r.quantity.value + q <= MAX ==> Balanced(t))
  {
  }

  /** The unchecked setters keep the entity's hook contract but not the ledger invariant:
      a stock below the reservation, or a reservation above the stock, is stored as given. */
  lemma UncheckedSettersBreakBalance(r: InventoryRecord, v: Int32, now: Time)
    requires Balanced(r)
    ensures 0 <= v < r.reservedQuantity.value ==>
      var t := AssignRow(r, SetQuantity(Some(v)), now);
      !Balanced(t) && t.quantity == Some(v) && t.availableQuantity.value < 0
    ensures v > r.quantity.value ==>
      var t := AssignRow(r, SetReserved(Some(v)), now);
      !Balanced(t) && t.reservedQuantity == Some(v) && t.availableQuantity.value < 0
  {
  }

  /** The reorder and maximum levels do not touch the counters. */
  lemma LevelSettersKeepCounters(r: InventoryRecord, v: Option<Int32>, now: Time)
    requires AvailableInSync(r)
    ensures var a := AssignRow(r, SetReorderLevel(v), now);
      a.quantity == r.quantity && a.reservedQuantity == r.reservedQuantity
      && a.availableQuantity == r.availableQuantity && a.reorderLevel == v && a.maxLevel == r.maxLevel
    ensures var b := AssignRow(r, SetMaxLevel(v), now);
      b.quantity == r.quantity && b.reservedQuantity == r.reservedQuantity
      && b.availableQuantity == r.availableQuantity && b.maxLevel == v && b.reorderLevel == r.reorderLevel
  {
  }

  /** On one row within bounds whose available count is current, releasing what was just
      reserved gives back the row, stamped with the release time and the reserving actor. */
  lemma ReserveThenReleaseRow(r: InventoryRecord, q: Int32, userId: Option<Uuid>, t1: Time, t2: Time)
    requires WithinBounds(r) && AvailableInSync(r)
    requires ReserveRow(r, Some(q), userId, t1).Success?
    ensures ReleaseRow(ReserveRow(r, Some(q), userId, t1).value, Some(q), t2)
      == Success(r.(lastUpdatedAt := Some(t2), updatedBy := userId))
  {
    var total, held := r.quantity.value, r.reservedQuantity.value;
    assert r.availableQuantity == Some(total - held);
    assert held + q <= total;
    var reserved := ReserveRow(r, Some(q), userId, t1).value;
    assert reserved.reservedQuantity == Some(held + q);
    var released := ReleaseRow(reserved, Some(q), t2);
    assert released.Success? && released.value.reservedQuantity == Some(held);
    assert released.value.availableQuantity == r.availableQuantity;
  }

  /** A reservation followed by the release of the same amount on the same natural key gives
      back the original row, except that it carries the release time and the reserving actor. */
  lemma {:induction false} ReserveThenRelease(rows: Rows, k: NaturalKey, q: Int32, userId: Option<Uuid>,
                                              t1: Time, t2: Time)
    requires AllSound(rows)
    requires AfterReserve(rows, k, Some(q), userId, t1).Success?
    ensures Lookup(rows, k).Success?
    ensures var id := Lookup(rows, k).value;
      AfterRelease(AfterReserve(rows, k, Some(q), userId, t1).value, k, Some(q), t2)
      == Success(rows[id := rows[id].(lastUpdatedAt := Some(t2), updatedBy := userId)])
  {
    var id := Lookup(rows, k).value;
    var r := rows[id];
    var reserved := ReserveRow(r, Some(q), userId, t1).value;
    var mid := rows[id := reserved];
    SameKeyCommit(rows, id, reserved, k);
    assert Lookup(mid, k) == Success(id);
    ReserveThenReleaseRow(r, q, userId, t1, t2);
    var released := ReleaseRow(reserved, Some(q), t2);
    assert AfterReserve(rows, k, Some(q), userId, t1) == Success(mid);
    assert AfterRelease(mid, k, Some(q), t2) == Success(mid[id := released.value]);
    assert mid[id := released.value] == rows[id := released.value];
  }

  /** A successful reservation on a row of product `p` moves exactly the requested amount into
      the product's reserved total and leaves its stock total unchanged. */
  lemma {:induction false} ReserveMovesUnits(rows: Rows, n: nat, k: NaturalKey, q: Int32,
                                             userId: Option<Uuid>, now: Time)
    requires AllSound(rows)
    requires AfterReserve(rows, k, Some(q), userId, now).Success?
    requires forall id :: id in rows ==> id < n
    ensures var after := AfterReserve(rows, k, Some(q), userId, now).value;
      && ExactSum(Select(after, n, ByProduct(k.productId)), Reserved)
         == ExactSum(Select(rows, n, ByProduct(k.productId)), Reserved) + q
      && ExactSum(Select(after, n, ByProduct(k.productId)), Quantity)
         == ExactSum(Select(rows, n, ByProduct(k.productId)), Quantity)
  {
    var id := Lookup(rows, k).value;
    var t := ReserveRow(rows[id], Some(q), userId, now).value;
    ReserveRowEffect(rows[id], q, userId, now);
    SelectSumAfterUpdate(rows, n, ByProduct(k.productId), id, t, Reserved);
    SelectSumAfterUpdate(rows, n, ByProduct(k.productId), id, t, Quantity);
  }

  /** Every transition that rewrites one row keeps the rows' natural keys, so natural keys
      stay unique across reserve, release, restock and the setters, and across delete. */
  lemma KeyPreservingOperations(rows: Rows, k: NaturalKey, id: Id, q: Option<Int32>,
      u: FieldUpdate, actor: Option<Uuid>, now: Time)
    requires KeysUnique(rows)
    ensures AfterReserve(rows, k, q, actor, now).Success? ==>
      KeysUnique(AfterReserve(rows, k, q, actor, now).value)
    ensures AfterRelease(rows, k, q, now).Success? ==> KeysUnique(AfterRelease(rows, k, q, now).value)
    ensures AfterRestock(rows, id, q, actor, now).Success? ==>
      KeysUnique(AfterRestock(rows, id, q, actor, now).value)
    ensures AfterAssign(rows, id, u, now).Success? ==> KeysUnique(AfterAssign(rows, id, u, now).value)
    ensures AfterDelete(rows, id).Success? ==> KeysUnique(AfterDelete(rows, id).value)
  {
    ReserveReleaseKeepKeysUnique(rows, k, q, actor, now);
    if id in rows {
      if RestockRow(rows[id], q, actor, now).Success? {
        SameKeyCommit(rows, id, RestockRow(rows[id], q, actor, now).value, k);
      }
      SameKeyCommit(rows, id, AssignRow(rows[id], u, now), k);
    }
  }

  /** Reserve and release rewrite the row the natural key finds, keeping its key. */
  lemma ReserveReleaseKeepKeysUnique(rows: Rows, k: NaturalKey, q: Option<Int32>,
      actor: Option<Uuid>, now: Time)
    requires KeysUnique(rows)
    ensures AfterReserve(rows, k, q, actor, now).Success? ==>
      KeysUnique(AfterReserve(rows, k, q, actor, now).value)
    ensures AfterRelease(rows, k, q, now).Success? ==> KeysUnique(AfterRelease(rows, k, q, now).value)
  {
    var lk := Lookup(rows, k);
    if lk.Success? {
      var j := lk.value;
      if ReserveRow(rows[j], q, actor, now).Success? {
        SameKeyCommit(rows, j, ReserveRow(rows[j], q, actor, now).value, k);
      }
      if ReleaseRow(rows[j], q, now).Success? {
        SameKeyCommit(rows, j, ReleaseRow(rows[j], q, now).value, k);
      }
    }
  }

  /** `bulkUpdateInventory` checks nothing: it can store a second row for a natural key. */
  lemma BulkCanDuplicateKeys(r: InventoryRecord, now: Time)
    ensures var (after, _) := AfterBulk(map[0 := r], 1, [BulkEntry(None, r)], now);
      !KeysUnique(after) && after.Keys == {0, 1}
  {
    var entries := [BulkEntry(None, r)];
    assert entries[..0] == [];
    assert AfterBulk(map[0 := r], 1, entries[..0], now) == (map[0 := r], 1);
    var (after, _) := AfterBulk(map[0 := r], 1, entries, now);
    assert after == map[0 := r][1 := Touched(r, now)];
    assert after[0].key == after[1].key;
  }

  /** Merging an entity equal to its stored row flushes nothing: the row keeps its old
      timestamp, while an entity that differs is written with the hook applied. */
  lemma BulkMergeWritesOnlyChanges(rows: Rows, next: Id, id: Id, r: InventoryRecord, now: Time)
    requires id in rows
    ensures r == rows[id] ==> AfterBulk(rows, next, [BulkEntry(Some(id), r)], now) == (rows, next)
    ensures r != rows[id] ==>
      AfterBulk(rows, next, [BulkEntry(Some(id), r)], now) == (rows[id := Touched(r, now)], next)
  {
    var entries := [BulkEntry(Some(id), r)];
    assert entries[..0] == [];
  }

  /** `bulkUpdateInventory` keeps every id below the next free id and every row's available
      count current, whatever the entities hold. */
  lemma {:induction false} BulkKeepsIdsAndSync(rows: Rows, next: Id, entries: seq<BulkEntry>, now: Time)
    requires forall id :: id in rows ==> id < next && AvailableInSync(rows[id])
    ensures var (m, n) := AfterBulk(rows, next, entries, now);
      && n >= next && rows.Keys <= m.Keys
      && forall id :: id in m ==> id < n && AvailableInSync(m[id])
    decreases |entries|
  {
    if entries != [] {
      BulkKeepsIdsAndSync(rows, next, entries[..|entries| - 1], now);
    }
  }

  // ---------------------------------------------------------------------------------------
  // The service
  // ---------------------------------------------------------------------------------------

  /** `InventoryServiceImpl` over its repository: the stored rows and the id generator. */
  class InventoryLedger {
    var rows: Rows
    var nextId: Id

    /** Ids come from the generator, and every stored row went through the entity hook. */
    ghost predicate Valid()
      reads this
    {
      forall id :: id in rows ==> id < nextId && AvailableInSync(rows[id])
    }

    constructor ()
      ensures Valid() && rows == map[] && nextId == 0
    {
      rows := map[];
      nextId := 0;
    }

    /** `findByProductIdAndVariantIdAndLocationId` as a single-result finder. */
    method FindByKey(k: NaturalKey) returns (r: Result<Id, InventoryError>)
      ensures r.Success? ==> r.value in rows && rows[r.value].key == k
      ensures r.Success? <==> |Matching(rows, k)| == 1
      ensures r == Failure(NotFound) <==> forall id :: id in rows ==> rows[id].key != k
      ensures r == Lookup(rows, k)
    {
      var ids := Matching(rows, k);
      if ids == {} {
        assert forall id :: id in rows && rows[id].key == k ==> id in ids;
        r := Failure(NotFound);
      } else if |ids| == 1 {
        var id :| id in ids;
        SingletonIs(ids, id);
        r := Success(id);
      } else {
        r := Failure(NonUniqueResult);
      }
    }

    /** Run the entity hook on `e` and write it as row `id`. */
    method Save(id: Id, e: Inventory, now: Time)
      requires Valid() && id < nextId
      modifies this, e
      ensures Valid() && nextId == old(nextId)
      ensures rows == old(rows)[id := Touched(old(e.Snapshot()), now)]
    {
      e.OnUpdate(now);
      rows := rows[id := e.Snapshot()];
    }

    method CreateInventory(products: set<Uuid>, variants: set<Uuid>, k: NaturalKey,
                           quantity: Option<Int32>, now: Time) returns (r: Result<Id, InventoryError>)
      requires Valid()
      modifies this
      ensures Valid()
      ensures r.Success? ==> r.value == old(nextId) && nextId == old(nextId) + 1
                             && AfterCreate(old(rows), old(nextId), products, variants, k, quantity, now)
                                == Success(rows)
      ensures r.Failure? ==> nextId == old(nextId) && rows == old(rows)
                             && AfterCreate(old(rows), old(nextId), products, variants, k, quantity, now)
                                == Failure(r.error)
    {
      if k.productId !in products {
        return Failure(ProductNotFound);
      }
      if k.variantId.Some? && k.variantId.value !in variants {
        return Failure(VariantNotFound);
      }
      var existing := FindByKey(k);
      if existing.Success? {
        return Failure(AlreadyExists);
      }
      if existing.error == NonUniqueResult {
        return Failure(NonUniqueResult);
      }
      var e := new Inventory.FromRecord(
        InventoryRecord(k, quantity, Some(0), None, Some(5), None, None, Some(now), None));
      nextId := nextId + 1;
      Save(nextId - 1, e, now);
      r := Success(nextId - 1);
    }

    method UpdateInventory(id: Id, quantity: Option<Int32>, now: Time) returns (r: Outcome<InventoryError>)
      requires Valid()
      modifies this
      ensures Valid() && nextId == old(nextId)
      ensures Applied(old(rows), rows, r, AfterAssign(old(rows), id, SetQuantity(quantity), now))
    {
      r := Assign(id, SetQuantity(quantity), now);
    }

    method UpdateReservedQuantity(id: Id, reserved: Option<Int32>, now: Time) returns (r: Outcome<InventoryError>)
      requires Valid()
      modifies this
      ensures Valid() && nextId == old(nextId)
      ensures Applied(old(rows), rows, r, AfterAssign(old(rows), id, SetReserved(reserved), now))
    {
      r := Assign(id, SetReserved(reserved), now);
    }

    method UpdateReorderLevel(id: Id, level: Option<Int32>, now: Time) returns (r: Outcome<InventoryError>)
      requires Valid()
      modifies this
      ensures Valid() && nextId == old(nextId)
      ensures Applied(old(rows), rows, r, AfterAssign(old(rows), id, SetReorderLevel(level), now))
    {
      r := Assign(id, SetReorderLevel(level), now);
    }

    method UpdateMaxLevel(id: Id, level: Option<Int32>, now: Time) returns (r: Outcome<InventoryError>)
      requires Valid()
      modifies this
      ensures Valid() && nextId == old(nextId)
      ensures Applied(old(rows), rows, r, AfterAssign(old(rows), id, SetMaxLevel(level), now))
    {
      r := Assign(id, SetMaxLevel(level), now);
    }

    /** The shared body of the four setters: load by id, set one field, stamp, save. */
    method Assign(id: Id, u: FieldUpdate, now: Time) returns (r: Outcome<InventoryError>)
      requires Valid()
      modifies this
      ensures Valid() && nextId == old(nextId)
      ensures Applied(old(rows), rows, r, AfterAssign(old(rows), id, u, now))
    {
      if id !in rows {
        return Fail(NotFound);
      }
      var e := new Inventory.FromRecord(rows[id]);
      match u {
        case SetQuantity(q) => e.quantity := q;
        case SetReserved(q) => e.reservedQuantity := q;
        case SetReorderLevel(q) => e.reorderLevel := q;
        case SetMaxLevel(q) => e.maxLevel := q;
      }
      e.lastUpdatedAt := Some(now);
      Save(id, e, now);
      r := Pass;
    }

    method ReserveStock(k: NaturalKey, quantity: Option<Int32>, userId: Option<Uuid>, now: Time)
      returns (r: Outcome<InventoryError>)
      requires Valid()
      modifies this
      ensures Valid() && nextId == old(nextId)
      ensures Applied(old(rows), rows, r, AfterReserve(old(rows), k, quantity, userId, now))
    {
      var found := FindByKey(k);
      if found.Failure? {
        return Fail(found.error);
      }
      var id := found.value;
      var e := new Inventory.FromRecord(rows[id]);
      if e.availableQuantity.None? || quantity.None? {
        return Fail(NullPointer);
      }
      if e.availableQuantity.value < quantity.value {
        return Fail(InsufficientStock);
      }
      if e.reservedQuantity.None? {
        return Fail(NullPointer);
      }
      e.reservedQuantity := Some(Wrap(e.reservedQuantity.value + quantity.value));
      e.lastUpdatedAt := Some(now);
      e.updatedBy := userId;
      Save(id, e, now);
      r := Pass;
    }

    method ReleaseStock(k: NaturalKey, quantity: Option<Int32>, now: Time) returns (r: Outcome<InventoryError>)
      requires Valid()
      modifies this
      ensures Valid() && nextId == old(nextId)
      ensures Applied(old(rows), rows, r, AfterRelease(old(rows), k, quantity, now))
    {
      var found := FindByKey(k);
      if found.Failure? {
        return Fail(found.error);
      }
      var id := found.value;
      var e := new Inventory.FromRecord(rows[id]);
      if e.reservedQuantity.None? || quantity.None? {
        return Fail(NullPointer);
      }
      if e.reservedQuantity.value < quantity.value {
        return Fail(OverRelease);
      }
      e.reservedQuantity := Some(Wrap(e.reservedQuantity.value - quantity.value));
      e.lastUpdatedAt := Some(now);
      Save(id, e, now);
      r := Pass;
    }

    method RestockInventory(id: Id, quantity: Option<Int32>, updatedBy: Option<Uuid>, now: Time)
      returns (r: Outcome<InventoryError>)
      requires Valid()
      modifies this
      ensures Valid() && nextId == old(nextId)
      ensures Applied(old(rows), rows, r, AfterRestock(old(rows), id, quantity, updatedBy, now))
    {
      if id !in rows {
        return Fail(NotFound);
      }
      var e := new Inventory.FromRecord(rows[id]);
      if e.quantity.None? || quantity.None? {
        return Fail(NullPointer);
      }
      e.quantity := Some(Wrap(e.quantity.value + quantity.value));
      e.lastRestockedAt := Some(now);
      e.lastUpdatedAt := Some(now);
      e.updatedBy := updatedBy;
      Save(id, e, now);
      r := Pass;
    }

    method DeleteInventory(id: Id) returns (r: Outcome<InventoryError>)
      requires Valid()
      modifies this
      ensures Valid() && nextId == old(nextId)
      ensures Applied(old(rows), rows, r, AfterDelete(old(rows), id))
    {
      if id !in rows {
        return Fail(NotFound);
      }
      rows := rows - {id};
      r := Pass;
    }

    method BulkUpdateInventory(entries: seq<BulkEntry>, now: Time)
      requires Valid()
      modifies this
      ensures Valid()
      ensures (rows, nextId) == AfterBulk(old(rows), old(nextId), entries, now)
    {
      var i := 0;
      while i < |entries|
        invariant 0 <= i <= |entries|
        invariant Valid()
        invariant (rows, nextId) == AfterBulk(old(rows), old(nextId), entries[..i], now)
      {
        var entry := entries[i];
        assert entries[..i + 1][..i] == entries[..i];
        var e := new Inventory.FromRecord(entry.record);
        if entry.id.Some? && entry.id.value in rows {
          if entry.record != rows[entry.id.value] {
            Save(entry.id.value, e, now);
          }
        } else {
          nextId := nextId + 1;
          Save(nextId - 1, e, now);
        }
        i := i + 1;
      }
      assert entries[..|entries|] == entries;
    }

    /** `findByProductId`. */
    function FindByProductId(productId: Uuid): seq<InventoryRecord>
      reads this
    {
      Select(rows, nextId, ByProduct(productId))
    }

    /** `getAvailableQuantity`: the database sum of the stored available counts of the
        product's rows, a null sum read as 0. */
    function GetAvailableQuantity(productId: Uuid): (n: int)
      reads this
      ensures n == ExactSum(FindByProductId(productId), Available)
    {
      SqlSum(FindByProductId(productId), Available).GetOr(0)
    }

    /** `getAvailableQuantityByLocation`: the `int` sum of the stored available counts of the
        product's rows at that location (null location: rows without one); unboxing a null
        available count throws. */
    function GetAvailableQuantityByLocation(productId: Uuid, locationId: Option<Uuid>)
      : (s: Result<Int32, InventoryError>)
      reads this
      ensures s.Success? <==> AllPresent(Select(rows, nextId, ByProductAndLocation(productId, locationId)), Available)
      ensures s.Failure? ==> s.error == NullPointer
      ensures s.Success? ==>
        s.value == Wrap(ExactSum(Select(rows, nextId, ByProductAndLocation(productId, locationId)), Available))
    {
      StreamSum(Select(rows, nextId, ByProductAndLocation(productId, locationId)), Available)
    }

    /** `getTotalQuantity`: the `int` sum of the stock of the product's rows; unboxing a
        null stock count throws. */
    function GetTotalQuantity(productId: Uuid): (s: Result<Int32, InventoryError>)
      reads this
      ensures s.Success? <==> AllPresent(FindByProductId(productId), Quantity)
      ensures s.Failure? ==> s.error == NullPointer
      ensures s.Success? ==> s.value == Wrap(ExactSum(FindByProductId(productId), Quantity))
    {
      StreamSum(FindByProductId(productId), Quantity)
    }

    /** `getTotalReservedQuantity`: the `int` sum of the reservations of the product's rows;
        unboxing a null reservation throws. */
    function GetTotalReservedQuantity(productId: Uuid): (s: Result<Int32, InventoryError>)
      reads this
      ensures s.Success? <==> AllPresent(FindByProductId(productId), Reserved)
      ensures s.Failure? ==> s.error == NullPointer
      ensures s.Success? ==> s.value == Wrap(ExactSum(FindByProductId(productId), Reserved))
    {
      StreamSum(FindByProductId(productId), Reserved)
    }

    /** `hasAvailableStock`: whether the product's available total covers the request. */
    function HasAvailableStock(productId: Uuid, quantity: Option<Int32>): (b: Result<bool, InventoryError>)
      reads this
      ensures quantity.None? <==> b == Failure(NullPointer)
      ensures b == Success(true) <==>
        quantity.Some? && ExactSum(FindByProductId(productId), Available) >= quantity.value
    {
      if quantity.None? then Failure(NullPointer)
      else Success(GetAvailableQuantity(productId) >= quantity.value)
    }

    /** `hasAvailableStockByLocation`: whether the available total at the location covers
        the request. */
    function HasAvailableStockByLocation(productId: Uuid, locationId: Option<Uuid>, quantity: Option<Int32>)
      : (b: Result<bool, InventoryError>)
      reads this
      ensures b.Success? <==> quantity.Some? && GetAvailableQuantityByLocation(productId, locationId).Success?
      ensures b.Success? ==>
        b.value == (Wrap(ExactSum(Select(rows, nextId, ByProductAndLocation(productId, locationId)), Available))
                    >= quantity.value)
    {
      match GetAvailableQuantityByLocation(productId, locationId)
      case Failure(e) => Failure(e)
      case Success(available) =>
        if quantity.None? then Failure(NullPointer) else Success(available >= quantity.value)
    }
  }
}
