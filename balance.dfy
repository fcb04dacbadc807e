/**
 * The stock ledger's bookkeeping rule, stated over values: a product's
 * cached quantity should equal the sum of its IN movements minus the sum of
 * its OUT movements, and every stored movement should be paired with an
 * audit entry that records it.
 */
module Balance {
  import opened Records

  /** Sum of the amounts of the movements of product `pid` whose type is `kind`. */
  function Total(ms: seq<Movement>, pid: ProductId, kind: string): (r: nat) {
    if ms == [] then 0
    else (if ms[0].product == pid && ms[0].kind == kind then ms[0].amount else 0) + Total(ms[1..], pid, kind)
  }

  /** Sum of IN amounts minus sum of OUT amounts for product `pid`. */
  function Net(ms: seq<Movement>, pid: ProductId): (r: int) {
    Total(ms, pid, StockIn) - Total(ms, pid, StockOut)
  }

  /** Signed change that one movement of `kind` and `amount` makes to the cached quantity. */
  function Effect(kind: string, amount: nat): (r: int) {
    if kind == StockIn then amount
    else if kind == StockOut then -(amount as int)
    else 0
  }

  /** The product table after the movement (kind, amount) has been applied to row `i`. */
  function Applied(ps: seq<Product>, i: nat, kind: string, amount: nat): (r: seq<Product>)
    requires i < |ps|
  {
    ps[i := ps[i].(quantity := ps[i].quantity + Effect(kind, amount))]
  }

  /** Every cached quantity equals the net of the stored movements for that product. */
  ghost predicate Balanced(ps: seq<Product>, ms: seq<Movement>) {
    forall i :: 0 <= i < |ps| ==> ps[i].quantity == Net(ms, ps[i].id)
  }

  /** No product has negative stock. */
  ghost predicate NonNegative(ps: seq<Product>) {
    forall i :: 0 <= i < |ps| ==> ps[i].quantity >= 0
  }

  /** `s` with the element at position `k` removed (deleting a row). */
  function Without<T>(s: seq<T>, k: nat): (r: seq<T>)
    requires k < |s|
    ensures |r| == |s| - 1
    ensures forall i :: 0 <= i < k ==> r[i] == s[i]
    ensures forall i :: k <= i < |r| ==> r[i] == s[i + 1]
  {
    s[..k] + s[k + 1..]
  }

  /** An audit entry records a movement: same product, amount and type. */
  predicate Describes(m: Movement, a: AuditEntry) {
    a.product == m.product && a.amount == m.amount && a.kind == m.kind
  }

  /** The movement table and the audit log correspond row by row. */
  ghost predicate Paired(ms: seq<Movement>, log: seq<AuditEntry>) {
    |ms| == |log| && forall i :: 0 <= i < |ms| ==> Describes(ms[i], log[i])
  }

  /** Number of movements of product `pid`. */
  function MovementCount(ms: seq<Movement>, pid: ProductId): (r: nat) {
    if ms == [] then 0 else (if ms[0].product == pid then 1 else 0) + MovementCount(ms[1..], pid)
  }

  /** Number of audit entries of product `pid`. */
  function AuditCount(log: seq<AuditEntry>, pid: ProductId): (r: nat) {
    if log == [] then 0 else (if log[0].product == pid then 1 else 0) + AuditCount(log[1..], pid)
  }

  // ---------------------------------------------------------------------
  // Totals over concatenated and shortened movement tables
  // ---------------------------------------------------------------------

  lemma {:induction false} TotalConcat(a: seq<Movement>, b: seq<Movement>, pid: ProductId, kind: string)
    ensures Total(a + b, pid, kind) == Total(a, pid, kind) + Total(b, pid, kind)
  {
    if a == [] {
      assert a + b == b;
    } else {
      assert (a + b)[1..] == a[1..] + b;
      TotalConcat(a[1..], b, pid, kind);
    }
  }

  /** Appending one movement changes the net of its own product by its effect and no other. */
  lemma NetAppend(ms: seq<Movement>, m: Movement, pid: ProductId)
    ensures Net(ms + [m], pid) == Net(ms, pid) + (if m.product == pid then Effect(m.kind, m.amount) else 0)
  {
    TotalConcat(ms, [m], pid, StockIn);
    TotalConcat(ms, [m], pid, StockOut);
    assert [m][1..] == [];
  }

  /** Removing one movement takes its amount off the total it counted towards. */
  lemma TotalWithout(ms: seq<Movement>, k: nat, pid: ProductId, kind: string)
    requires k < |ms|
    ensures Total(Without(ms, k), pid, kind)
            == Total(ms, pid, kind) - (if ms[k].product == pid && ms[k].kind == kind then ms[k].amount else 0)
  {
    assert ms == ms[..k] + [ms[k]] + ms[k + 1..];
    assert [ms[k]][1..] == [];
    TotalConcat(ms[..k] + [ms[k]], ms[k + 1..], pid, kind);
    TotalConcat(ms[..k], [ms[k]], pid, kind);
    TotalConcat(ms[..k], ms[k + 1..], pid, kind);
  }

  /** Removing one movement takes its effect off the net of its product and no other. */
  lemma NetWithout(ms: seq<Movement>, k: nat, pid: ProductId)
    requires k < |ms|
    ensures Net(Without(ms, k), pid) == Net(ms, pid) - (if ms[k].product == pid then Effect(ms[k].kind, ms[k].amount) else 0)
  {
    TotalWithout(ms, k, pid, StockIn);
    TotalWithout(ms, k, pid, StockOut);
  }

  /** A product none of the movements refer to has net zero. */
  lemma {:induction false} NetOfUnused(ms: seq<Movement>, pid: ProductId)
    requires forall i :: 0 <= i < |ms| ==> ms[i].product != pid
    ensures Net(ms, pid) == 0
  {
    if ms != [] {
      NetOfUnused(ms[1..], pid);
    }
  }

  // ---------------------------------------------------------------------
  // What saving, creating and deleting do to the invariants
  // ---------------------------------------------------------------------

  /**
   * Saving a new movement for row `i`, which updates that row's quantity by
   * the movement's effect and appends the movement, keeps the table balanced.
   */
  lemma SaveKeepsBalanced(ps: seq<Product>, ms: seq<Movement>, i: nat, m: Movement)
    requires DistinctProductIds(ps)
    requires i < |ps| && m.product == ps[i].id
    requires Balanced(ps, ms)
    ensures Balanced(Applied(ps, i, m.kind, m.amount), ms + [m])
  {
    var ps' := Applied(ps, i, m.kind, m.amount);
    forall j | 0 <= j < |ps'| ensures ps'[j].quantity == Net(ms + [m], ps'[j].id) {
      NetAppend(ms, m, ps[j].id);
    }
  }

  /** A stock check that passes keeps a non-negative quantity non-negative. */
  lemma SaveKeepsNonNegative(ps: seq<Product>, i: nat, kind: string, amount: nat)
    requires i < |ps| && NonNegative(ps)
    requires kind == StockOut ==> amount <= ps[i].quantity
    ensures NonNegative(Applied(ps, i, kind, amount))
  {
  }

  /** A product added with quantity 0 and no movements keeps the table balanced. */
  lemma CreateKeepsBalanced(ps: seq<Product>, ms: seq<Movement>, p: Product)
    requires Balanced(ps, ms)
    requires p.quantity == 0
    requires forall i :: 0 <= i < |ms| ==> ms[i].product != p.id
    ensures Balanced(ps + [p], ms)
  {
    NetOfUnused(ms, p.id);
  }

  /**
   * Deleting a stored movement does not touch the product table, so when the
   * movement had an effect its product's cached quantity no longer equals the
   * net of the remaining movements.
   */
  lemma DeletionBreaksBalance(ps: seq<Product>, ms: seq<Movement>, k: nat, i: nat)
    requires Balanced(ps, ms)
    requires k < |ms| && i < |ps| && ps[i].id == ms[k].product
    requires Effect(ms[k].kind, ms[k].amount) != 0
    ensures !Balanced(ps, Without(ms, k))
    ensures Net(Without(ms, k), ps[i].id) == ps[i].quantity - Effect(ms[k].kind, ms[k].amount)
  {
    NetWithout(ms, k, ps[i].id);
  }

  // ---------------------------------------------------------------------
  // Movement / audit pairing
  // ---------------------------------------------------------------------

  /** Under the row-by-row pairing, every product has as many audit entries as movements. */
  lemma {:induction false} PairedCountsAgree(ms: seq<Movement>, log: seq<AuditEntry>, pid: ProductId)
    requires Paired(ms, log)
    ensures MovementCount(ms, pid) == AuditCount(log, pid)
  {
    if ms != [] {
      assert Describes(ms[0], log[0]);
      assert Paired(ms[1..], log[1..]) by {
        forall i | 0 <= i < |ms| - 1 ensures Describes(ms[1..][i], log[1..][i]) {
          assert Describes(ms[i + 1], log[i + 1]);
        }
      }
      PairedCountsAgree(ms[1..], log[1..], pid);
    }
  }

  lemma {:induction false} MovementCountConcat(a: seq<Movement>, b: seq<Movement>, pid: ProductId)
    ensures MovementCount(a + b, pid) == MovementCount(a, pid) + MovementCount(b, pid)
  {
    if a == [] {
      assert a + b == b;
    } else {
      assert (a + b)[1..] == a[1..] + b;
      MovementCountConcat(a[1..], b, pid);
    }
  }

  /**
   * Deleting a movement leaves its audit entry behind: from a paired state,
   * the deleted movement's product ends up with one audit entry more than it
   * has movements.
   */
  lemma DeletionUnpairs(ms: seq<Movement>, log: seq<AuditEntry>, k: nat)
    requires Paired(ms, log)
    requires k < |ms|
    ensures MovementCount(Without(ms, k), ms[k].product) + 1 == AuditCount(log, ms[k].product)
  {
    var pid := ms[k].product;
    PairedCountsAgree(ms, log, pid);
    assert ms == ms[..k] + [ms[k]] + ms[k + 1..];
    assert [ms[k]][1..] == [];
    MovementCountConcat(ms[..k] + [ms[k]], ms[k + 1..], pid);
    MovementCountConcat(ms[..k], [ms[k]], pid);
    MovementCountConcat(ms[..k], ms[k + 1..], pid);
  }
}
