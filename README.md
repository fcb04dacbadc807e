# Stock ledger of the inventory API, in Dafny

This project models the stock ledger of a small Django inventory API. Each
product row caches its stock level in `quantity`. Saving a stock movement
(`IN` or `OUT`) changes that cached quantity in place. An `OUT` movement
larger than the stock raises "Not enough stock!" before anything is written.
The movement endpoint writes one audit-log entry for every movement it
creates. Three read-only views sit over the same tables: the low-stock
listing, the per-category totals and the audit history, newest first.

Files and modules:

- `records.dfy`, module `Records`: the rows as datatypes (`Product`,
  `Movement`, `AuditEntry`), the movement-type codes and lookups by primary key.
- `balance.dfy`, module `Balance`: the bookkeeping rule over values.
  - `Total` and `Net` give ΣIN − ΣOUT per product; `Balanced` says every
    cached quantity equals it.
  - `Paired` says the movement table and the audit log match row by row.
  - Lemmas say what saving, creating and deleting do to these predicates.
- `store.dfy`, module `Store`: class `Ledger` holds the three tables, the
  key counters and a clock. Its methods change them in place.
  - `SaveNew` and `Resave` are the two branches of `StockMovement.save`.
  - `PostMovement` is the movement endpoint's POST.
  - `DeleteMovement` is the movement endpoint's DELETE.
  - `AddProduct` creates a product with the default quantity.
- `queries.dfy`, module `Queries`: the three views as functions over the
  tables.
- `scenario.dfy`, module `Scenario`: client methods that walk through a
  receive/ship/refuse sequence, a rejected request and a deletion, and the
  two read views on small tables. Their asserts follow from the contracts
  alone.

Timestamps are ticks of the ledger's `clock`, which advances once for every
row stamped on creation. The acting user is a `UserId`. The audit entry holds
it as an `Option`, because the column is nullable.

## Model

| member | source | states |
|---|---|---|
| `Store.Ledger.AddProduct` | inventory/models.py:20-25 | A product created without a quantity gets the column default 0. Only the product table grows. Balance and pairing are preserved. |
| `Store.Ledger.SaveNew` | inventory/models.py:37-46 | Saving a new movement fails exactly when it is `OUT` and the stock is below the amount. It then fails with "Not enough stock!" and changes nothing. Otherwise the product's quantity moves by +amount (IN), −amount (OUT) or 0 (any other code), and the movement row is appended with the next key and timestamp. The audit log is untouched. Balance and non-negative stock are preserved. |
| `Store.Ledger.Resave` | inventory/models.py:37-46 | Saving a movement that already has a key never touches a product. An existing row with that key is overwritten, and no key counter or the clock moves. Otherwise the row is inserted with the current timestamp, the clock advances and the next movement key moves past the inserted key. |
| `Store.Ledger.PostMovement` | inventory/views.py:253-277 | Invalid exactly when the product, the type choice or the non-negative amount fails validation; the response names every failing field and nothing changes. Failed exactly when a valid OUT exceeds the stock; the response carries "Not enough stock!" and nothing changes. Created otherwise: one movement and exactly one audit entry with the same product, amount and type, attributed to the requesting user, are appended. Each takes the next key of its table, and the entry is stamped one tick after the movement. Balance, non-negative stock and movement/audit pairing are preserved. |
| `Store.Ledger.DeleteMovement` | inventory/views.py:205-218 | Not found exactly when no movement has the key, and then nothing changes. Otherwise exactly that row is removed. Products, the audit log, the key counters and the clock stay as they were. |
| `Store.Ledger.AuditHistory` | inventory/views.py:279-284 | The audit history is a permutation of the whole log. It equals the log reversed, so the newest entry comes first. |
| `Balance.NetAppend` | inventory/models.py:38-46 | Appending a movement changes ΣIN − ΣOUT of its own product by the movement's effect, and of no other product. |
| `Balance.SaveKeepsBalanced` | inventory/models.py:37-46 | If every quantity equals ΣIN − ΣOUT before a first-time save, it still does after the quantity update and the row append. |
| `Balance.SaveKeepsNonNegative` | inventory/models.py:41-44 | An update that passed the stock check keeps every quantity at or above 0. |
| `Balance.CreateKeepsBalanced` | inventory/models.py:25 | A new product with quantity 0 and no movements keeps the tables balanced. |
| `Balance.NetWithout` | inventory/views.py:216-217 | Removing one movement takes its effect off its product's ΣIN − ΣOUT and leaves every other product's unchanged. |
| `Balance.DeletionBreaksBalance` | inventory/views.py:216-217 | Take a balanced ledger and delete a movement that had an effect. Its product's cached quantity then differs from the remaining ΣIN − ΣOUT by exactly that effect, so the ledger is no longer balanced. |
| `Balance.PairedCountsAgree` | inventory/views.py:264-272 | When movements and audit entries are paired row by row, every product has as many audit entries as movements. |
| `Balance.DeletionUnpairs` | inventory/views.py:216-217 | From a paired state, deleting a movement leaves its product with one more audit entry than movements. |
| `Queries.LowStock` | inventory/views.py:220-233 | A product is listed exactly when its quantity is strictly below 5, so a product at 5 is not listed. There is exactly one row per such product: the number of rows equals the number of such products, and row k is the row of the k-th such product in table order. Every row carries that product's id, name and quantity and the status "LOW STOCK". No row is invented. |
| `Queries.Stats` | inventory/views.py:235-250 | The keys are exactly the category names that have at least one product. For each name, `totalProducts` is the number of its products and `totalQuantity` is the sum of their quantities. |
| `Queries.NewestFirst` | inventory/views.py:282 | The history is ordered by timestamp, newest first, and is a permutation of the log. |
| `Queries.HistoryIsReversedLog` | inventory/models.py:57 | On a log stamped in insertion order, newest-first order is the log reversed. |

## Left out

- The HTTP and framework layers are not modelled: routing, the permission
  decorators and authentication, and response serialization. The requesting
  user is a parameter of `PostMovement`.
- The first `stock_movement_list` (inventory/views.py:188-203) is not
  modelled. The second definition replaces it, and routing resolves to the
  second one.
- The GET branches of the movement list and detail views are not modelled.
  They only serialize stored rows.
- `StockAuditLogSerializer` is imported from serializers.py, which does not
  define it. That import error is a packaging fault outside the ledger. The
  audit history is modelled as the ordered list of entries.
- The category, supplier, product and user-registration CRUD is not modelled.
  Product creation appears only as `AddProduct`, which sends no quantity.
  The product serializer exposes every column, so a client can create a
  product with any quantity or overwrite it later. Either action bypasses
  the ledger, and the model does not include it.
- Filtering, search, ordering and pagination of the product list are not
  modelled, and neither is the decimal `price` column.
- Concurrency and transactions are not modelled; every operation is one
  sequential step. In the source the quantity read-modify-write is not
  atomic. The audit insert is also separate from the movement save, so an
  audit insert that raises would return 400 after the movement and quantity
  change were already stored.
- The model's integers are unbounded. It does not model the 32-bit range of
  the quantity columns, or the upper bound that the movement amount's
  validation may apply.
- Real clock values are not modelled. Timestamps are ticks of a counter,
  so two audit entries never share a timestamp. The order of tied timestamps
  is therefore not modelled.
- Cascading deletes from products, categories and suppliers are not modelled.
  Clearing an audit entry's user when that user is deleted is not modelled
  either; the model only allows the user to be absent.
- `Store.Ledger.Resave`: this method does not claim that the ledger stays
  balanced, because overwriting a row with a different amount or type would
  unbalance it. When a row is inserted under an explicit key, the next key
  moves past that key, as SQLite's autoincrement does.
- `Store.Ledger.SaveNew` and `Store.Ledger.Resave` require the movement's
  product to be a stored product. A movement instance holds a loaded product
  row, and the foreign key enforces the reference. The error raised by a
  movement without a product is not modelled. At the endpoint, a missing
  product is a validation error of `PostMovement`.
- Behaviour of the code that the model keeps as it is:
  - An amount of 0 passes validation: the movement's quantity column is a
    `PositiveIntegerField` (inventory/models.py:34), whose minimum is 0.
  - An audit entry stores the unsigned amount and the movement type
    (inventory/views.py:267-272). The direction of the change is given by
    the type.
  - The low-stock threshold is the constant 5 (inventory/views.py:222),
    not a parameter.
  - Movements can be deleted (inventory/views.py:216-217). Deleting one
    breaks both the balance and the movement/audit pairing.
  - No transaction or lock surrounds a movement save and its audit entry.
