/**
 * A client of the ledger: one product receives 50 units, ships 20, and an
 * attempt to ship 100 more is refused; a malformed request and a deletion
 * follow.
 */
module Scenario {
  import opened Records
  import opened Balance
  import opened Store
  import opened Queries

  method Walkthrough() {
    var ledger := new Ledger();
    var widget := ledger.AddProduct("Widget", "Tools");
    assert ledger.products == [Product(widget, "Widget", "Tools", 0)];
    assert ProductIndex(ledger.products, widget) == 0;

    var r1 := ledger.PostMovement(widget, "IN", 50, 1);
    assert r1.Created?;
    assert ledger.products == [Product(widget, "Widget", "Tools", 50)];

    var r2 := ledger.PostMovement(widget, "OUT", 20, 1);
    assert r2.Created?;
    assert ledger.products == [Product(widget, "Widget", "Tools", 30)];

    var r3 := ledger.PostMovement(widget, "OUT", 100, 1);
    assert r3 == Failed("Not enough stock!");
    assert ledger.products == [Product(widget, "Widget", "Tools", 30)];
    assert |ledger.movements| == 2 && |ledger.audit| == 2;
    assert ledger.Consistent() && Paired(ledger.movements, ledger.audit);
  }

  method RejectAndDelete() {
    var ledger := new Ledger();
    var widget := ledger.AddProduct("Widget", "Tools");
    assert ProductIndex(ledger.products, widget) == 0;

    var bad := ledger.PostMovement(widget, "MOVE", -1, 1);
    assert bad == Invalid({TypeField, QuantityField});

    var r1 := ledger.PostMovement(widget, "IN", 8, 1);
    assert r1.Created? && ledger.movements == [r1.movement];
    var found := ledger.DeleteMovement(r1.movement.id);
    assert found && ledger.movements == [];
    assert |ledger.audit| == 1 && ledger.products[0].quantity == 8;
    assert !ledger.Consistent();
  }

  /** Any four-product table whose quantities are 0, 4, 5 and 6: the first two are listed. */
  method LowStockView(ps: seq<Product>)
    requires |ps| == 4
    requires ps[0].quantity == 0 && ps[1].quantity == 4 && ps[2].quantity == 5 && ps[3].quantity == 6
  {
    var low := LowStock(ps);
    assert RowOf(ps[0]) in low && RowOf(ps[1]) in low;
    assert RowOf(ps[2]) !in low && RowOf(ps[3]) !in low;
  }

  /** On the same tables the listing is exactly those two rows, in table order. */
  method LowStockRowsView(ps: seq<Product>)
    requires |ps| == 4
    requires ps[0].quantity == 0 && ps[1].quantity == 4 && ps[2].quantity == 5 && ps[3].quantity == 6
  {
    LowSetOfSample(ps);
    var low := LowStock(ps);
    assert |low| == 2;
  }

  lemma LowSetOfSample(ps: seq<Product>)
    requires |ps| == 4
    requires ps[0].quantity == 0 && ps[1].quantity == 4 && ps[2].quantity == 5 && ps[3].quantity == 6
    ensures (set j: nat | j < |ps| && ps[j].quantity < LowStockThreshold) == {0, 1}
  {
    var low := set j: nat | j < |ps| && ps[j].quantity < LowStockThreshold;
    forall j: nat | j in low ensures j < 2 {
      assert j != 2 && j != 3;
    }
    assert 0 in low && 1 in low;
  }

  method StatsView() {
    var stats := Stats([Product(1, "a", "Tools", 3), Product(2, "b", "Tools", 7)]);
    assert stats.Keys == {"Tools"};
    assert stats["Tools"] == Totals(2, 10);
  }
}
