/**
 * The read-only views over the ledger: the low-stock listing, the
 * per-category totals and the audit history, newest first.
 */
module Queries {
  import opened Records

  // ---------------------------------------------------------------------
  // Low-stock listing
  // ---------------------------------------------------------------------

  /** Products strictly below this quantity are listed as low on stock. */
  const LowStockThreshold: int := 5
  const LowStockStatus: string := "LOW STOCK"

  datatype LowStockRow = LowStockRow(id: ProductId, name: string, quantity: int, status: string)

  function RowOf(p: Product): (row: LowStockRow)
    ensures row.id == p.id && row.name == p.name && row.quantity == p.quantity && row.status == LowStockStatus
  {
    LowStockRow(p.id, p.name, p.quantity, LowStockStatus)
  }

  /** Positions of the products below the threshold, in increasing order. */
  function LowPositions(ps: seq<Product>): (pos: seq<nat>)
    ensures |pos| <= |ps|
    ensures forall k, l :: 0 <= k < l < |pos| ==> pos[k] < pos[l]
    ensures forall k :: 0 <= k < |pos| ==> pos[k] < |ps| && ps[pos[k]].quantity < LowStockThreshold
    ensures forall j :: 0 <= j < |ps| && ps[j].quantity < LowStockThreshold ==> j in pos
  {
    if ps == [] then []
    else
      var n := |ps| - 1;
      var init := LowPositions(ps[..n]);
      assert forall j :: 0 <= j < n ==> ps[..n][j] == ps[j];
      if ps[n].quantity < LowStockThreshold then init + [n] else init
  }

  /**
   * One row per product whose quantity is below the threshold, in table
   * order: row k is the row of the k-th such product, and there are as
   * many rows as such products.
   */
  function LowStock(ps: seq<Product>): (r: seq<LowStockRow>)
    ensures |r| == |LowPositions(ps)|
    ensures forall k :: 0 <= k < |r| ==> r[k] == RowOf(ps[LowPositions(ps)[k]])
    ensures |r| == |set j: nat | j < |ps| && ps[j].quantity < LowStockThreshold|
    ensures |r| <= |ps|
    ensures forall k :: 0 <= k < |r| ==> r[k].status == LowStockStatus && r[k].quantity < LowStockThreshold
    ensures forall k :: 0 <= k < |r| ==> exists j :: 0 <= j < |ps| && r[k] == RowOf(ps[j])
    ensures forall j :: 0 <= j < |ps| ==> (RowOf(ps[j]) in r <==> ps[j].quantity < LowStockThreshold)
  {
    var pos := LowPositions(ps);
    var r := seq(|pos|, k requires 0 <= k < |pos| => RowOf(ps[pos[k]]));
    LowCount(ps);
    LowRows(ps, r);
    r
  }

  /** Rows taken one per low position list exactly the low products, each with the low-stock status. */
  lemma LowRows(ps: seq<Product>, r: seq<LowStockRow>)
    requires |r| == |LowPositions(ps)|
    requires forall k :: 0 <= k < |r| ==> r[k] == RowOf(ps[LowPositions(ps)[k]])
    ensures |r| <= |ps|
    ensures forall k :: 0 <= k < |r| ==> r[k].status == LowStockStatus && r[k].quantity < LowStockThreshold
    ensures forall k :: 0 <= k < |r| ==> exists j :: 0 <= j < |ps| && r[k] == RowOf(ps[j])
    ensures forall j :: 0 <= j < |ps| ==> (RowOf(ps[j]) in r <==> ps[j].quantity < LowStockThreshold)
  {
    var pos := LowPositions(ps);
    forall k | 0 <= k < |r| ensures exists j :: 0 <= j < |ps| && r[k] == RowOf(ps[j]) {
      assert r[k] == RowOf(ps[pos[k]]);
    }
    forall j | 0 <= j < |ps| ensures RowOf(ps[j]) in r <==> ps[j].quantity < LowStockThreshold {
      if ps[j].quantity < LowStockThreshold {
        var k :| 0 <= k < |pos| && pos[k] == j;
        assert r[k] == RowOf(ps[j]);
      }
    }
  }

  /** The increasing positions are exactly the set of low positions, so they count them. */
  lemma LowCount(ps: seq<Product>)
    ensures |LowPositions(ps)| == |set j: nat | j < |ps| && ps[j].quantity < LowStockThreshold|
  {
    var pos := LowPositions(ps);
    var low := set j: nat | j < |ps| && ps[j].quantity < LowStockThreshold;
    assert low == set k | 0 <= k < |pos| :: pos[k];
    DistinctCount(pos);
  }

  /** A strictly increasing sequence has as many distinct elements as positions. */
  lemma {:induction false} DistinctCount(pos: seq<nat>)
    requires forall k, l :: 0 <= k < l < |pos| ==> pos[k] < pos[l]
    ensures |set k | 0 <= k < |pos| :: pos[k]| == |pos|
  {
    if pos != [] {
      var tail := pos[1..];
      DistinctCount(tail);
      var all := set k | 0 <= k < |pos| :: pos[k];
      var rest := set k | 0 <= k < |tail| :: tail[k];
      assert all == rest + {pos[0]} by {
        forall x | x in all ensures x in rest + {pos[0]} {
          var k :| 0 <= k < |pos| && pos[k] == x;
          if k > 0 { assert tail[k - 1] == x; }
        }
      }
      assert pos[0] !in rest;
    }
  }

  // ---------------------------------------------------------------------
  // Per-category totals
  // ---------------------------------------------------------------------

  datatype Totals = Totals(totalProducts: nat, totalQuantity: int)

  /** The products whose category is named `c`, in table order. */
  function InCategory(ps: seq<Product>, c: string): (r: seq<Product>) {
    if ps == [] then [] else (if ps[0].category == c then [ps[0]] else []) + InCategory(ps[1..], c)
  }

  function SumQuantity(ps: seq<Product>): (r: int) {
    if ps == [] then 0 else ps[0].quantity + SumQuantity(ps[1..])
  }

  /** Names of the categories that have at least one product. */
  function Categories(ps: seq<Product>): (r: set<string>) {
    set j | 0 <= j < |ps| :: ps[j].category
  }

  /**
   * Products grouped by category name: for each name, how many products it
   * has and the sum of their quantities. Each product is folded into its
   * group in turn, so a name appears only once one of its products has.
   */
  function Stats(ps: seq<Product>): (r: map<string, Totals>)
    ensures r.Keys == Categories(ps)
    ensures forall c :: c in r ==> r[c] == Totals(|InCategory(ps, c)|, SumQuantity(InCategory(ps, c)))
  {
    if ps == [] then map[]
    else
      var init, p := ps[..|ps| - 1], ps[|ps| - 1];
      assert ps == init + [p];
      var before := Stats(init);
      StatsStep(init, p, before);
      AddToGroup(before, p)
  }

  /** Counts product `p` in its category's group, opening the group when it is the first. */
  function AddToGroup(groups: map<string, Totals>, p: Product): (r: map<string, Totals>) {
    var t := if p.category in groups then groups[p.category] else Totals(0, 0);
    groups[p.category := Totals(t.totalProducts + 1, t.totalQuantity + p.quantity)]
  }

  /** Folding one more product into correct totals gives correct totals for the longer table. */
  lemma StatsStep(init: seq<Product>, p: Product, before: map<string, Totals>)
    requires before.Keys == Categories(init)
    requires forall c :: c in before ==> before[c] == Totals(|InCategory(init, c)|, SumQuantity(InCategory(init, c)))
    ensures AddToGroup(before, p).Keys == Categories(init + [p])
    ensures forall c :: c in AddToGroup(before, p) ==>
              AddToGroup(before, p)[c] == Totals(|InCategory(init + [p], c)|, SumQuantity(InCategory(init + [p], c)))
  {
    var ps := init + [p];
    assert Categories(ps) == Categories(init) + {p.category} by {
      assert forall j :: 0 <= j < |init| ==> init[j] == ps[j];
      assert ps[|init|] == p;
    }
    forall c | c in AddToGroup(before, p)
      ensures AddToGroup(before, p)[c] == Totals(|InCategory(ps, c)|, SumQuantity(InCategory(ps, c)))
    {
      StatsStepAt(init, p, before, c);
    }
  }

  lemma StatsStepAt(init: seq<Product>, p: Product, before: map<string, Totals>, c: string)
    requires before.Keys == Categories(init)
    requires forall c :: c in before ==> before[c] == Totals(|InCategory(init, c)|, SumQuantity(InCategory(init, c)))
    requires c in AddToGroup(before, p)
    ensures AddToGroup(before, p)[c] == Totals(|InCategory(init + [p], c)|, SumQuantity(InCategory(init + [p], c)))
  {
    InCategoryConcat(init, [p], c);
    assert [p][1..] == [];
    if c == p.category {
      assert InCategory(init + [p], c) == InCategory(init, c) + [p];
      if c !in before && InCategory(init, c) != [] {
        InCategoryNonEmpty(init, c);
      }
      SumQuantityConcat(InCategory(init, c), [p]);
    } else {
      assert InCategory(init + [p], c) == InCategory(init, c);
    }
  }

  lemma {:induction false} InCategoryConcat(a: seq<Product>, b: seq<Product>, c: string)
    ensures InCategory(a + b, c) == InCategory(a, c) + InCategory(b, c)
  {
    if a == [] {
      assert a + b == b;
    } else {
      assert (a + b)[1..] == a[1..] + b;
      InCategoryConcat(a[1..], b, c);
    }
  }

  /** A category with a product in the filter has a product in the table. */
  lemma {:induction false} InCategoryNonEmpty(ps: seq<Product>, c: string)
    requires InCategory(ps, c) != []
    ensures c in Categories(ps)
  {
    if ps[0].category != c {
      InCategoryNonEmpty(ps[1..], c);
      var j :| 0 <= j < |ps| - 1 && ps[1..][j].category == c;
      assert ps[j + 1].category == c;
    }
  }

  lemma {:induction false} SumQuantityConcat(a: seq<Product>, b: seq<Product>)
    ensures SumQuantity(a + b) == SumQuantity(a) + SumQuantity(b)
  {
    if a == [] {
      assert a + b == b;
    } else {
      assert (a + b)[1..] == a[1..] + b;
      SumQuantityConcat(a[1..], b);
    }
  }

  // ---------------------------------------------------------------------
  // Audit history, newest first
  // ---------------------------------------------------------------------

  /** Timestamps do not increase along `s`. */
  predicate NewestFirstOrder(s: seq<AuditEntry>) {
    forall i, j :: 0 <= i < j < |s| ==> s[i].timestamp >= s[j].timestamp
  }

  /** Inserts `e` into a newest-first sequence, after the strictly newer entries. */
  function InsertByTime(e: AuditEntry, s: seq<AuditEntry>): (r: seq<AuditEntry>)
    requires NewestFirstOrder(s)
    ensures NewestFirstOrder(r)
    ensures multiset(r) == multiset(s) + multiset{e}
    ensures |r| == |s| + 1
  {
    if s == [] || s[0].timestamp <= e.timestamp then
      [e] + s
    else
      var rest := InsertByTime(e, s[1..]);
      InsertBehindHead(e, s, rest);
      [s[0]] + rest
  }

  /**
   * Putting the head of `s` in front of the insertion into its tail keeps the
   * order when `e` is older than that head.
   */
  lemma InsertBehindHead(e: AuditEntry, s: seq<AuditEntry>, rest: seq<AuditEntry>)
    requires s != [] && NewestFirstOrder(s) && e.timestamp < s[0].timestamp
    requires NewestFirstOrder(rest) && multiset(rest) == multiset(s[1..]) + multiset{e}
    ensures NewestFirstOrder([s[0]] + rest)
    ensures multiset([s[0]] + rest) == multiset(s) + multiset{e}
  {
    forall k | 0 <= k < |rest| ensures rest[k].timestamp <= s[0].timestamp {
      assert rest[k] in multiset(rest);
      if rest[k] != e {
        assert rest[k] in s[1..];
      }
    }
    assert s == [s[0]] + s[1..];
  }

  /** The log ordered by timestamp, newest first (`order_by('-timestamp')`). */
  function NewestFirst(log: seq<AuditEntry>): (r: seq<AuditEntry>)
    ensures NewestFirstOrder(r)
    ensures multiset(r) == multiset(log)
    ensures |r| == |log|
  {
    if log == [] then []
    else
      assert log == [log[0]] + log[1..];
      InsertByTime(log[0], NewestFirst(log[1..]))
  }

  function Reversed<T>(s: seq<T>): (r: seq<T>) {
    if s == [] then [] else Reversed(s[1..]) + [s[0]]
  }

  /** Timestamps strictly increase along `s`, as they do along the audit log. */
  predicate InsertionOrder(s: seq<AuditEntry>) {
    forall i, j :: 0 <= i < j < |s| ==> s[i].timestamp < s[j].timestamp
  }

  /** An entry older than everything in a sequence is inserted at its end. */
  lemma {:induction false} InsertOldest(e: AuditEntry, s: seq<AuditEntry>)
    requires NewestFirstOrder(s)
    requires forall k :: 0 <= k < |s| ==> e.timestamp < s[k].timestamp
    ensures InsertByTime(e, s) == s + [e]
  {
    if s != [] {
      InsertOldest(e, s[1..]);
      assert s == [s[0]] + s[1..];
    }
  }

  lemma {:induction false} ReversedElements<T>(s: seq<T>)
    ensures |Reversed(s)| == |s|
    ensures forall k :: 0 <= k < |s| ==> Reversed(s)[k] == s[|s| - 1 - k]
  {
    if s != [] {
      ReversedElements(s[1..]);
    }
  }

  /**
   * On a log stamped in insertion order, the audit history is the log
   * reversed: the most recently written entry comes first.
   */
  lemma {:induction false} HistoryIsReversedLog(log: seq<AuditEntry>)
    requires InsertionOrder(log)
    ensures NewestFirst(log) == Reversed(log)
  {
    if log != [] {
      var tail := log[1..];
      assert InsertionOrder(tail) by {
        forall i, j | 0 <= i < j < |tail| ensures tail[i].timestamp < tail[j].timestamp {
          assert tail[i] == log[i + 1] && tail[j] == log[j + 1];
        }
      }
      HistoryIsReversedLog(tail);
      ReversedElements(tail);
      assert forall k :: 0 <= k < |tail| ==> log[0].timestamp < Reversed(tail)[k].timestamp by {
        forall k | 0 <= k < |tail| ensures log[0].timestamp < Reversed(tail)[k].timestamp {
          assert Reversed(tail)[k] == log[|tail| - k];
        }
      }
      InsertOldest(log[0], Reversed(tail));
    }
  }
}
