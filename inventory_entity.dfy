/** The `Inventory` JPA entity: one stock row per (product, variant, location), its
    declared field bounds and the `onUpdate` persist/update hook. */
module InventoryEntity {
  import opened Base
  import opened JavaInt

  /** The natural key of a stock row: product, optional variant, optional warehouse location. */
  datatype NaturalKey = NaturalKey(productId: Uuid, variantId: Option<Uuid>, locationId: Option<Uuid>)

  /** The persisted state of one row. The counters are nullable `Integer`s. */
  datatype InventoryRecord = InventoryRecord(
    key: NaturalKey,
    quantity: Option<Int32>,
    reservedQuantity: Option<Int32>,
    availableQuantity: Option<Int32>,
    reorderLevel: Option<Int32>,
    maxLevel: Option<Int32>,
    lastRestockedAt: Option<Time>,
    lastUpdatedAt: Option<Time>,
    updatedBy: Option<Uuid>)

  /** The bounds the entity declares: `quantity` is `@NotNull @Min(0)`; `reservedQuantity`,
      `reorderLevel` and `maxLevel` are `@Min(0)` when present. */
  predicate WithinBounds(r: InventoryRecord) {
    && r.quantity.Some? && r.quantity.value >= 0
    && (r.reservedQuantity.Some? ==> r.reservedQuantity.value >= 0)
    && (r.reorderLevel.Some? ==> r.reorderLevel.value >= 0)
    && (r.maxLevel.Some? ==> r.maxLevel.value >= 0)
  }

  /** The ledger's invariant for one row: 0 <= reserved <= quantity. */
  predicate Balanced(r: InventoryRecord) {
    && r.quantity.Some? && r.reservedQuantity.Some?
    && 0 <= r.reservedQuantity.value <= r.quantity.value
  }

  /** The stored `availableQuantity` agrees with the counters whenever both are non-null,
      as it does right after the hook has run. */
  predicate AvailableInSync(r: InventoryRecord) {
    r.quantity.Some? && r.reservedQuantity.Some? ==>
      r.availableQuantity == Some(Wrap(r.quantity.value - r.reservedQuantity.value))
  }

  /** The row as it is after the `@PrePersist`/`@PreUpdate` hook ran at time `now`. */
  function Touched(r: InventoryRecord, now: Time): (t: InventoryRecord)
    ensures t.lastUpdatedAt == Some(now)
    ensures AvailableInSync(t)
    ensures r.quantity.None? || r.reservedQuantity.None? ==> t.availableQuantity == r.availableQuantity
    ensures t.(availableQuantity := r.availableQuantity, lastUpdatedAt := r.lastUpdatedAt) == r
  {
    var available :=
      if r.quantity.Some? && r.reservedQuantity.Some?
      then Some(Wrap(r.quantity.value - r.reservedQuantity.value))
      else r.availableQuantity;
    r.(lastUpdatedAt := Some(now), availableQuantity := available)
  }

  /** After the hook, the available count is non-negative exactly when the reservation
      does not exceed the stock (for counters within their declared bounds). */
  lemma AvailableNonNegativeIff(r: InventoryRecord, now: Time)
    requires WithinBounds(r) && r.reservedQuantity.Some?
    ensures Touched(r, now).availableQuantity.Some?
    ensures Touched(r, now).availableQuantity.value >= 0
            <==> r.reservedQuantity.value <= r.quantity.value
  {
  }

  /** Running the hook twice at the same instant is the same as running it once. */
  lemma TouchedIdempotent(r: InventoryRecord, now: Time)
    ensures Touched(Touched(r, now), now) == Touched(r, now)
  {
  }

  /** The managed entity object: services load it, change it with setters and save it,
      and the persistence provider calls `OnUpdate` before writing it. */
  class Inventory {
    var key: NaturalKey
    var quantity: Option<Int32>
    var reservedQuantity: Option<Int32>
    var availableQuantity: Option<Int32>
    var reorderLevel: Option<Int32>
    var maxLevel: Option<Int32>
    var lastRestockedAt: Option<Time>
    var lastUpdatedAt: Option<Time>
    var updatedBy: Option<Uuid>

    /** The state this object would persist. */
    function Snapshot(): InventoryRecord
      reads this
    {
      InventoryRecord(key, quantity, reservedQuantity, availableQuantity, reorderLevel,
                      maxLevel, lastRestockedAt, lastUpdatedAt, updatedBy)
    }

    /** The entity built from, or loaded as, the given row. */
    constructor FromRecord(r: InventoryRecord)
      ensures Snapshot() == r
    {
      key := r.key;
      quantity := r.quantity;
      reservedQuantity := r.reservedQuantity;
      availableQuantity := r.availableQuantity;
      reorderLevel := r.reorderLevel;
      maxLevel := r.maxLevel;
      lastRestockedAt := r.lastRestockedAt;
      lastUpdatedAt := r.lastUpdatedAt;
      updatedBy := r.updatedBy;
    }

    /** The `@PrePersist @PreUpdate` hook: stamps the update time and recomputes the
        available count when both counters are present. */
    method OnUpdate(now: Time)
      modifies this
      ensures Snapshot() == Touched(old(Snapshot()), now)
    {
      lastUpdatedAt := Some(now);
      if quantity != None && reservedQuantity != None {
        availableQuantity := Some(Wrap(quantity.value - reservedQuantity.value));
      }
    }
  }
}
