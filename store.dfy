/**
 * The stock ledger as mutable state: the product, movement and audit-log
 * tables, the primary-key counters and the clock that stamps new rows.
 * Saving a movement updates the product's cached quantity in place;
 * posting one through the movement endpoint also writes an audit entry;
 * deleting one removes its row and nothing else.
 */
module Store {
  import opened Records
  import opened Balance
  import opened Queries

  /** Message of the error raised when an OUT movement exceeds the stock. */
  const NotEnoughStock: string := "Not enough stock!"

  /** Request fields that the movement serializer validates. */
  datatype Field = ProductField | TypeField | QuantityField

  /**
   * Response of a movement POST: 201 with the created movement, 400 with
   * the serializer's invalid fields, or 400 with the message of the
   * exception raised while saving.
   */
  datatype PostOutcome = Created(movement: Movement) | Invalid(fields: set<Field>) | Failed(error: string)

  /** The fields of a movement request that fail validation against the product table. */
  function RequestErrors(ps: seq<Product>, pid: ProductId, code: string, amount: int): (r: set<Field>) {
    (if ProductIndex(ps, pid) < 0 then {ProductField} else {})
    + (if !IsChoice(code) then {TypeField} else {})
    + (if amount < 0 then {QuantityField} else {})
  }

  /** Product keys are unique and below the next key to hand out. */
  ghost predicate ProductKeys(ps: seq<Product>, next: ProductId) {
    DistinctProductIds(ps) && forall i :: 0 <= i < |ps| ==> ps[i].id < next
  }

  /** Movement keys are unique and below the next key; movements refer to keys already handed out. */
  ghost predicate MovementKeys(ms: seq<Movement>, next: MovementId, nextProduct: ProductId) {
    && DistinctMovementIds(ms)
    && (forall i :: 0 <= i < |ms| ==> ms[i].id < next && ms[i].product < nextProduct)
  }

  /** Audit keys and timestamps increase along the log and are below the next ones to hand out. */
  ghost predicate AuditOrder(log: seq<AuditEntry>, next: AuditId, clock: nat) {
    && (forall i, j :: 0 <= i < j < |log| ==> log[i].id < log[j].id && log[i].timestamp < log[j].timestamp)
    && (forall i :: 0 <= i < |log| ==> log[i].id < next && log[i].timestamp < clock)
  }

  lemma ProductKeysUpdate(ps: seq<Product>, next: ProductId, i: nat, p: Product)
    requires ProductKeys(ps, next) && i < |ps| && p.id == ps[i].id
    ensures ProductKeys(ps[i := p], next)
  {
    var ps' := ps[i := p];
    assert forall j :: 0 <= j < |ps| ==> ps'[j].id == ps[j].id;
  }

  lemma MovementKeysAppend(ms: seq<Movement>, next: MovementId, nextProduct: ProductId, m: Movement)
    requires MovementKeys(ms, next, nextProduct) && m.id == next && m.product < nextProduct
    ensures MovementKeys(ms + [m], next + 1, nextProduct)
  {
  }

  lemma AuditOrderLater(log: seq<AuditEntry>, next: AuditId, clock: nat, clock': nat)
    requires AuditOrder(log, next, clock) && clock <= clock'
    ensures AuditOrder(log, next, clock')
  {
  }

  lemma AuditOrderAppend(log: seq<AuditEntry>, next: AuditId, clock: nat, e: AuditEntry)
    requires AuditOrder(log, next, clock) && e.id == next && e.timestamp == clock
    ensures AuditOrder(log + [e], next + 1, clock + 1)
  {
  }

  class Ledger {
    var products: seq<Product>
    var movements: seq<Movement>
    var audit: seq<AuditEntry>
    var nextProductId: ProductId
    var nextMovementId: MovementId
    var nextAuditId: AuditId
    /** Ticks once for every row that gets a creation timestamp. */
    var clock: nat

    /** Key uniqueness and the order in which the clock and the counters hand out values. */
    ghost predicate Valid()
      reads this
    {
      && ProductKeys(products, nextProductId)
      && MovementKeys(movements, nextMovementId, nextProductId)
      && AuditOrder(audit, nextAuditId, clock)
    }

    /** The ledger's consistency: every cached quantity is the net of its movements and is not negative. */
    ghost predicate Consistent()
      reads this
    {
      Balanced(products, movements) && NonNegative(products)
    }

    constructor ()
      ensures Valid() && Consistent() && Paired(movements, audit)
      ensures products == [] && movements == [] && audit == []
    {
      products, movements, audit := [], [], [];
      nextProductId, nextMovementId, nextAuditId, clock := 0, 0, 0, 0;
    }

    /** Cached quantity of the product `pid`, when there is one. */
    function QuantityOf(pid: ProductId): (r: Option<int>)
      reads this
      ensures r.Some? <==> exists i :: 0 <= i < |products| && products[i].id == pid
    {
      var i := ProductIndex(products, pid);
      if i < 0 then None else Some(products[i].quantity)
    }

    /**
     * The audit log ordered by timestamp, newest first. Entries are stamped
     * in the order they are written, so this is the log reversed.
     */
    function AuditHistory(): (r: seq<AuditEntry>)
      reads this
      requires Valid()
      ensures r == Reversed(audit)
      ensures multiset(r) == multiset(audit)
    {
      HistoryIsReversedLog(audit);
      NewestFirst(audit)
    }

    /** Creates a product without giving a quantity: the column's default, 0, applies. */
    method AddProduct(name: string, category: string) returns (id: ProductId)
      requires Valid()
      modifies this
      ensures Valid()
      ensures id == old(nextProductId)
      ensures products == old(products) + [Product(id, name, category, 0)]
      ensures QuantityOf(id) == Some(0)
      ensures movements == old(movements) && audit == old(audit)
      ensures old(Consistent()) ==> Consistent()
      ensures old(Paired(movements, audit)) ==> Paired(movements, audit)
    {
      id := nextProductId;
      var p := Product(id, name, category, 0);
      if Balanced(products, movements) {
        CreateKeepsBalanced(products, movements, p);
      }
      products := products + [p];
      nextProductId := nextProductId + 1;
      ProductIndexUnique(products, |products| - 1);
    }

    /**
     * Saves a new movement instance (one without a primary key) for the
     * stored product `pid`. An IN movement adds `amount` to the product's
     * quantity, an OUT movement subtracts it but first raises "Not enough
     * stock!" when the quantity is smaller, and any other type leaves the
     * quantity alone; then the product and the movement row are written.
     */
    method SaveNew(pid: ProductId, kind: string, amount: nat) returns (r: Result<Movement>)
      requires Valid()
      requires ProductIndex(products, pid) >= 0
      modifies this
      ensures Valid()
      ensures var q := old(products[ProductIndex(products, pid)].quantity);
              r.Err? <==> kind == StockOut && q < amount
      ensures r.Err? ==> r.error == NotEnoughStock && unchanged(this)
      ensures r.Ok? ==>
                && r.value == Movement(old(nextMovementId), pid, kind, amount, old(clock))
                && movements == old(movements) + [r.value]
                && products == Applied(old(products), ProductIndex(old(products), pid), kind, amount)
                && audit == old(audit)
                && nextProductId == old(nextProductId) && nextAuditId == old(nextAuditId)
                && nextMovementId == old(nextMovementId) + 1 && clock == old(clock) + 1
      ensures old(Consistent()) ==> Consistent()
    {
      var i := ProductIndex(products, pid);
      var product := products[i];
      if kind == StockIn {
        product := product.(quantity := product.quantity + amount);
      } else if kind == StockOut {
        if product.quantity < amount {
          return Err(NotEnoughStock);
        }
        product := product.(quantity := product.quantity - amount);
      }
      var m := Movement(nextMovementId, pid, kind, amount, clock);
      ghost var before, log := products, movements;
      assert products[i := product] == Applied(products, i, kind, amount);
      ProductKeysUpdate(products, nextProductId, i, product);
      MovementKeysAppend(movements, nextMovementId, nextProductId, m);
      AuditOrderLater(audit, nextAuditId, clock, clock + 1);
      products := products[i := product];
      movements := movements + [m];
      nextMovementId := nextMovementId + 1;
      clock := clock + 1;
      r := Ok(m);
      if Balanced(before, log) && NonNegative(before) {
        SaveKeepsBalanced(before, log, i, m);
        SaveKeepsNonNegative(before, i, kind, amount);
      }
    }

    /**
     * Saves a movement instance that already has a primary key. The product
     * is neither updated nor written: only the movement row is. An existing
     * row with that key is overwritten; otherwise the row is inserted with
     * that key and stamped with the current time.
     */
    method Resave(m: Movement)
      requires Valid()
      requires ProductIndex(products, m.product) >= 0
      modifies this
      ensures Valid()
      ensures products == old(products) && audit == old(audit)
      ensures var k := MovementIndex(old(movements), m.id);
              if k >= 0 then movements == old(movements)[k := m]
              else movements == old(movements) + [m.(timestamp := old(clock))]
      ensures nextProductId == old(nextProductId) && nextAuditId == old(nextAuditId)
      ensures var k := MovementIndex(old(movements), m.id);
              if k >= 0 then nextMovementId == old(nextMovementId) && clock == old(clock)
              else nextMovementId == (if old(nextMovementId) <= m.id then m.id + 1 else old(nextMovementId))
                   && clock == old(clock) + 1
      ensures NonNegative(products) == old(NonNegative(products))
    {
      var k := MovementIndex(movements, m.id);
      if k >= 0 {
        movements := movements[k := m];
      } else {
        movements := movements + [m.(timestamp := clock)];
        clock := clock + 1;
        if nextMovementId <= m.id {
          nextMovementId := m.id + 1;
        }
      }
    }

    /**
     * POST of a stock movement: the request is validated, the movement is
     * saved as a new instance and then one audit entry is written for it,
     * attributed to the requesting user. A failed validation or a save that
     * raises changes nothing.
     */
    method PostMovement(pid: ProductId, code: string, amount: int, user: UserId) returns (r: PostOutcome)
      requires Valid()
      modifies this
      ensures Valid()
      ensures r.Invalid? <==> RequestErrors(old(products), pid, code, amount) != {}
      ensures r.Invalid? ==> r.fields == RequestErrors(old(products), pid, code, amount) && unchanged(this)
      ensures r.Failed? <==> && RequestErrors(old(products), pid, code, amount) == {}
                             && code == StockOut
                             && old(products[ProductIndex(products, pid)].quantity) < amount
      ensures r.Failed? ==> r.error == NotEnoughStock && unchanged(this)
      ensures r.Created? ==>
                && amount >= 0
                && r.movement == Movement(old(nextMovementId), pid, code, amount as nat, old(clock))
                && movements == old(movements) + [r.movement]
                && audit == old(audit) + [AuditEntry(old(nextAuditId), pid, amount, code, Some(user), old(clock) + 1)]
                && products == Applied(old(products), ProductIndex(old(products), pid), code, amount as nat)
                && nextProductId == old(nextProductId)
                && nextMovementId == old(nextMovementId) + 1 && nextAuditId == old(nextAuditId) + 1
                && clock == old(clock) + 2
      ensures old(Consistent()) ==> Consistent()
      ensures old(Paired(movements, audit)) ==> Paired(movements, audit)
    {
      var errors := RequestErrors(products, pid, code, amount);
      if errors != {} {
        return Invalid(errors);
      }
      var saved := SaveNew(pid, code, amount as nat);
      if saved.Err? {
        return Failed(saved.error);
      }
      var m := saved.value;
      var entry := AuditEntry(nextAuditId, m.product, m.amount, m.kind, Some(user), clock);
      AuditOrderAppend(audit, nextAuditId, clock, entry);
      audit := audit + [entry];
      nextAuditId := nextAuditId + 1;
      clock := clock + 1;
      r := Created(m);
    }

    /**
     * DELETE of a stock movement: answers not-found when no row has the
     * key, otherwise removes that row. Product quantities and the audit log
     * are left as they are.
     */
    method DeleteMovement(id: MovementId) returns (found: bool)
      requires Valid()
      modifies this
      ensures Valid()
      ensures found <==> MovementIndex(old(movements), id) >= 0
      ensures found ==> movements == Without(old(movements), MovementIndex(old(movements), id))
      ensures !found ==> unchanged(this)
      ensures products == old(products) && audit == old(audit)
      ensures nextProductId == old(nextProductId) && nextMovementId == old(nextMovementId)
      ensures nextAuditId == old(nextAuditId) && clock == old(clock)
      ensures NonNegative(products) == old(NonNegative(products))
    {
      var k := MovementIndex(movements, id);
      found := k >= 0;
      if found {
        movements := Without(movements, k);
      }
    }
  }
}
