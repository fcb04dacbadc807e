/**
 * Rows of the inventory app's stock ledger, as values: products, stock
 * movements and stock audit-log entries, plus the lookups by primary key
 * that the ledger operations use.
 */
module Records {

  datatype Option<T> = None | Some(value: T)

  /** Outcome of an operation that may raise; `error` is the exception's message. */
  datatype Result<T> = Ok(value: T) | Err(error: string)

  type ProductId = nat
  type MovementId = nat
  type AuditId = nat
  type UserId = nat

  /** The two codes declared as choices of a movement's `movement_type`. */
  const StockIn: string := "IN"
  const StockOut: string := "OUT"

  /** Whether a request value is one of the declared movement-type choices. */
  predicate IsChoice(code: string) {
    code == StockIn || code == StockOut
  }

  /**
   * A product row. `quantity` is the cached stock level that saving a
   * movement updates; `category` is the name of the product's category.
   * The price column is not modelled.
   */
  datatype Product = Product(id: ProductId, name: string, category: string, quantity: int)

  /**
   * A stock movement row. `kind` is the raw `movement_type` column: saving a
   * model instance does not check it against the declared choices.
   * `amount` is the movement's non-negative `quantity` column and
   * `timestamp` the insertion time, as a tick of the ledger clock.
   */
  datatype Movement = Movement(id: MovementId, product: ProductId, kind: string, amount: nat, timestamp: nat)

  /**
   * A stock audit-log row. `user` is nullable: the reference is cleared when
   * the acting user is deleted, and the entry stays.
   */
  datatype AuditEntry = AuditEntry(id: AuditId, product: ProductId, amount: int, kind: string,
                                   user: Option<UserId>, timestamp: nat)

  /** Position of the product with primary key `id`, or -1 when there is none. */
  function ProductIndex(ps: seq<Product>, id: ProductId): (r: int)
    ensures -1 <= r < |ps|
    ensures r >= 0 ==> ps[r].id == id
    ensures r < 0 <==> forall i :: 0 <= i < |ps| ==> ps[i].id != id
  {
    if ps == [] then -1
    else if ps[0].id == id then 0
    else
      var k := ProductIndex(ps[1..], id);
      if k < 0 then -1 else k + 1
  }

  /**
   * Position of the movement with primary key `id`, or -1 when there is none.
   * The same search as `ProductIndex`, kept separate because the two tables
   * hold different row types and are keyed by different id types.
   */
  function MovementIndex(ms: seq<Movement>, id: MovementId): (r: int)
    ensures -1 <= r < |ms|
    ensures r >= 0 ==> ms[r].id == id
    ensures r < 0 <==> forall i :: 0 <= i < |ms| ==> ms[i].id != id
  {
    if ms == [] then -1
    else if ms[0].id == id then 0
    else
      var k := MovementIndex(ms[1..], id);
      if k < 0 then -1 else k + 1
  }

  /** Primary keys are unique within a table. */
  predicate DistinctProductIds(ps: seq<Product>) {
    forall i, j :: 0 <= i < j < |ps| ==> ps[i].id != ps[j].id
  }

  /** Movement keys are unique within the movement table (the same rule as `DistinctProductIds`). */
  predicate DistinctMovementIds(ms: seq<Movement>) {
    forall i, j :: 0 <= i < j < |ms| ==> ms[i].id != ms[j].id
  }

  /** With unique keys, the lookup finds the one row that carries the key. */
  lemma {:induction false} ProductIndexUnique(ps: seq<Product>, i: nat)
    requires DistinctProductIds(ps)
    requires i < |ps|
    ensures ProductIndex(ps, ps[i].id) == i
  {
    if i > 0 {
      assert ps[0].id != ps[i].id;
      assert DistinctProductIds(ps[1..]) by {
        forall a, b | 0 <= a < b < |ps| - 1 ensures ps[1..][a].id != ps[1..][b].id {
          assert ps[1..][a] == ps[a + 1] && ps[1..][b] == ps[b + 1];
        }
      }
      ProductIndexUnique(ps[1..], i - 1);
    }
  }
}
