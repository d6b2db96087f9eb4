# Water-delivery billing ledger, modelled in Dafny

This project models the billing core of a small Flask application that sells
bottled water to subscribers. Subscribers are shops ("legal" clients) and
households ("individual" clients). The model covers:

- **Order pricing.** `calculate_order_total` uses the price catalog and falls
  back to built-in prices when a row is missing. `orders.create` has three
  modes: standard, credit (`gap_bilen`/`dine_suw`) and the `is_free` override.
- **The debt ledger.** `recalculate_debt` recomputes a subscriber's debt from
  the whole history: the sum of its order totals minus the sum of its direct
  payments. The model proves how creating an order, deleting an order and
  adding a payment each move that figure.
- **The order list.** The id, address and date filters, the newest-first
  ordering and the per-subscriber bottle count.
- **The water-only promotion** `get_promo_water_price`. It is driven by three
  rows of the settings table, and every failure reads as "no promo".
- **Subscriber handling.** Phone-list normalisation on create and edit, the
  cascade delete, the list's search filters and the "credit" column.
- **The admin blueprint.** The `admin_required` guard, user create, edit and
  delete, seeding the price catalog on first view, the partial price update,
  and the settings update, which now does nothing.

Representation:

- Amounts are integer cents, because every money column is a two-decimal
  `Numeric`. Timestamps are integer microseconds, and the order-list date
  filters take day numbers.
- The database is one class, `Store.Database`. It holds one sequence per
  table in insertion order, the settings map, and one id counter per table,
  standing for the autoincrement key.
- Each route handler is a method that names in `modifies` the tables it
  writes. It keeps `Database.Valid()`, which covers:
  - primary keys handed out in increasing order, below their counter, for
    the users, subscribers and orders tables (phones, payments and prices
    have counters but no such invariant);
  - unique usernames;
  - unique price operation types;
  - the subscriber references of orders and phones.

Files:

| file | contents |
|---|---|
| `models.dfy` | records, `Option`/`Result`, the error cases |
| `text.dfy` | ASCII `strip`, `lower`, `isdigit`, `ILIKE '%…%'`, `int(…)` and `Decimal(…)` parsing with round-trip lemmas |
| `store.dfy` | the generic table queries (lookup by key, rows of a subscriber, deletion, SUM), their lemmas, and `Database` |
| `orders.dfy` | pricing, debt, the order handlers, the order list and the two findings |
| `pricing.dfy` | the promotion |
| `subscribers.dfy` | the subscriber handlers, the search, the credit column and the Subscriber mapping as declared |
| `admin.dfy` | the admin blueprint |

Points where the model commits to one reading of the code:

- **Debt.** `recalculate_debt` (app/routes/orders.py:29-40) sets the debt
  to Σ order totals − Σ direct payments. The `paid_amount` recorded with an
  order is not subtracted. The model's `Orders.Debt` computes the same
  figure. The order-time `paid_amount` enters only the separate credit
  figure (`Subscribers.Credit`). `Subscribers.DebtAndCredit` proves how the
  two figures relate.
- **Subscriber names.** app/models.py declares no `full_name` column, but
  every subscriber route reads and writes one. The handlers are modelled on
  the intended table, where `Subscriber` has a `fullName` field. What the
  declared mapping does instead is recorded under "Findings".
- **De-duplication.** The subscriber list holds every matching subscriber
  once. The name and address searches filter the subscribers table alone,
  with no join. The phone search joins the phones table, and the ORM's
  legacy `Query` drops repeated rows of a single-entity query, so a
  subscriber with several matching phones is still listed once. The "all"
  search says `distinct()` outright.

## Model

| member | source | states |
|---|---|---|
| Text.LeadingSpaces | app/routes/subscribers.py:62 | the count of leading whitespace stays within the string and stops at a non-space |
| Text.LeadingAreSpaces | app/routes/subscribers.py:62 | everything LeadingSpaces skips is whitespace |
| Text.TrailingSpaces | app/routes/subscribers.py:62 | the count of trailing whitespace stays within the string and stops at a non-space |
| Text.TrailingAreSpaces | app/routes/subscribers.py:62 | everything TrailingSpaces skips is whitespace |
| Text.Strip | app/routes/subscribers.py:62-63 | `strip()` never lengthens a string and leaves no whitespace at either end |
| Text.StripIsSlice | app/routes/subscribers.py:62-63 | the stripped string is the contiguous piece right after the leading whitespace |
| Text.StripDropsTrailing | app/routes/subscribers.py:62-63 | everything after the kept piece is whitespace |
| Text.LeadingAllSpace | app/routes/subscribers.py:62 | for an all-whitespace string the leading count is its whole length |
| Text.FirstAfterLeading | app/routes/subscribers.py:62 | the first character after the leading whitespace is not whitespace |
| Text.StripEmpty | app/routes/subscribers.py:62 | `phone.strip()` is empty exactly when the entry is all whitespace |
| Text.StripRemovesSpaces | app/routes/subscribers.py:62-63 | strip removes exactly the whitespace at both ends: empty iff all blank, the kept slice, and whitespace after it |
| Text.StripTrimmed | app/routes/subscribers.py:63 | an already trimmed string is left as it is |
| Text.StripIdempotent | app/routes/subscribers.py:63 | stripping twice is stripping once |
| Text.Lower | app/services/pricing.py:30 | `lower()` keeps the length and maps each character through ASCII lowercasing |
| Text.NatToString | app/routes/orders.py:54 | decimal notation consists of digits only, so `isdigit()` holds for it |
| Text.NatToStringValue | app/routes/orders.py:54 | the digits written for n read back as n |
| Text.ParseInt | app/services/pricing.py:37 | `int(text)`: surrounding whitespace, an optional sign and at least one digit; anything else fails |
| Text.ParseIntOfDigits | app/routes/orders.py:54 | `int(s)` of a digit string is its value |
| Text.ParseIntOfNegated | app/services/pricing.py:37 | `int('-' + d)` is minus the value of d |
| Text.ParseIntRoundTrip | app/services/pricing.py:37 | `int()` reads back every integer written in decimal |
| Text.ParseCents | app/services/pricing.py:36 | `Decimal(text)` in cents: surrounding whitespace, an optional sign, digits with at most one '.' and at most two digits after it; anything else fails |
| Text.DotIndex | app/services/pricing.py:36 | the position found holds the first '.', and None means there is no '.' |
| Text.DotIndexAfter | app/services/pricing.py:36 | in `whole.frac` with a dot-free whole, the first dot sits right after the whole part |
| Text.UnsignedCentsOfParts | app/services/pricing.py:36 | `q.d1d2` denotes 100·q + 10·d1 + d2 cents |
| Text.TwoDigitsValue | app/services/pricing.py:36 | two fraction digits denote 10·d1 + d2 |
| Text.ParseCentsUnsigned | app/services/pricing.py:36 | an unsigned numeral with no surrounding whitespace parses to the amount its digits denote |
| Text.ParseCentsNegated | app/services/pricing.py:36 | a leading '-' negates the amount |
| Text.ParseCentsRoundTrip | app/services/pricing.py:36 | `Decimal()` reads back every two-decimal amount written out |
| Pricing.IsOnValue | app/services/pricing.py:30 | the switch values 'true', '1' and 'on', compared after lowercasing |
| Pricing.PromoActive | app/services/pricing.py:28-30 | a missing row means on; a NULL value fails, which gives no promo; otherwise the value is checked by IsOnValue |
| Pricing.PromoPrice | app/services/pricing.py:36 | a missing row gives 10.00; otherwise `Decimal(value)`, which fails on NULL or a malformed value |
| Pricing.PromoLimit | app/services/pricing.py:37 | a missing row gives 10; otherwise `int(value)`, which fails on NULL or a malformed value |
| Pricing.StartDate | app/services/pricing.py:41-48 | the subscriber's promo_start_date, and none when there is no such subscriber |
| Pricing.CountOrders | app/services/pricing.py:45-50 | the subscriber's orders, or those created on or after the start date when there is one |
| Pricing.PromoWaterPrice | app/services/pricing.py:4-60 | a promo price is returned iff the promo is switched on, price and limit both read, and the counted orders are below the limit; it is then the configured price |
| Pricing.CountAllOrders | app/services/pricing.py:45-50 | without a start date the count is the number of the subscriber's orders |
| Pricing.CountOrdersAppend | app/services/pricing.py:45-50 | a further order raises the count by one if it is the subscriber's and on or after the start, else leaves it |
| Pricing.PromoDefaults | app/services/pricing.py:28-37 | with no settings rows the promo is on at 10.00 while fewer than 10 orders are counted |
| Pricing.PromoWindow | app/services/pricing.py:45-55 | with no start date and limit L the promo applies exactly while the subscriber has fewer than L orders |
| Pricing.PromoNeverReturns | app/services/pricing.py:50-55 | once the promo has run out, a further order never turns it back on |
| Pricing.OrderBeforeStartNotCounted | app/services/pricing.py:47-48 | an order created before the subscriber's promo_start_date does not change the result |
| Pricing.OtherSubscribersOrdersNotCounted | app/services/pricing.py:45 | another subscriber's order does not change the result |
| Pricing.PromoIgnoresCustomLimit | app/models.py:37 | changing a subscriber's promo_custom_limit never changes the result |
| Pricing.PromoActiveValues | app/services/pricing.py:28-30 | the switch is compared after lowercasing: 'TRUE' and 'On' are on, 'off' and '0' are off |
| Pricing.PromoFailsClosed | app/services/pricing.py:32-33 | a switched-off promo, or a price or limit that does not parse, gives no promo price rather than an error |
| Store.IndexOf | app/models.py:12 | the primary-key lookup finds a row with that key, and it finds nothing only when no row has the key |
| Store.AppendKeepsIds | app/models.py:12 | a row inserted under the next id keeps ids increasing and below the advanced counter |
| Store.PrefixKeepsIds | app/models.py:12 | a prefix of a table keeps ids increasing |
| Store.UpdateKeepsIds | app/models.py:12 | rewriting a row without changing its id keeps ids increasing |
| Store.RemoveAt | app/routes/orders.py:189 | deleting a row drops that one position and keeps the other rows in order |
| Store.RemoveAtKeepsIds | app/models.py:12 | deleting a row keeps ids increasing and below the counter |
| Store.IndexOfRemoveAt | app/routes/orders.py:189 | a lookup that succeeded still succeeds once another row is deleted |
| Store.IndexOfAppend | app/routes/orders.py:167 | a lookup that succeeded finds the same position after an insert |
| Store.IndexOfSameKeys | app/routes/subscribers.py:75-77 | rewriting a row without changing its key leaves every lookup as it was |
| Store.OwnedBy | app/routes/orders.py:31-32 | `filter(subscriber_id == sid)`: a row is in the result exactly when it is in the table and belongs to sid |
| Store.Without | app/routes/subscribers.py:99-102 | `filter_by(subscriber_id=id).delete()`: a row remains exactly when it was in the table and belongs to another subscriber |
| Store.OwnedByConcat | app/routes/orders.py:31-32 | the rows of sid in a concatenation are those of each part, in order |
| Store.OwnedByNone | app/routes/orders.py:31-32 | a table with no rows of sid yields no rows of sid |
| Store.OwnedByAll | app/routes/orders.py:31-32 | a table holding only rows of sid yields itself |
| Store.OwnedByWithoutSelf | app/routes/subscribers.py:99-102 | after deleting sid's rows none of its rows is left |
| Store.OwnedByWithout | app/routes/subscribers.py:99-102 | deleting sid's rows leaves every other subscriber's rows as they were |
| Store.WithoutCount | app/routes/subscribers.py:99-110 | the rows deleted number exactly the rows sid owned |
| Store.WithoutKeepsIds | app/routes/subscribers.py:99 | deleting a subscriber's rows keeps ids increasing and below the counter |
| Store.SumOfConcat | app/routes/orders.py:31-37 | SUM over a concatenation is the sum of the parts' SUMs |
| Store.Reverse | app/routes/orders.py:70 | reversal keeps the length and puts row i at position n-1-i |
| Store.ReverseMembers | app/routes/orders.py:70 | reversal keeps exactly the same rows |
| Store.ReverseOrdered | app/routes/orders.py:70 | reversing increasing ids gives `ORDER BY id DESC` |
| Store.Select | app/routes/orders.py:52-68 | a WHERE clause keeps exactly the rows satisfying it |
| Store.SelectKeepsOrder | app/routes/orders.py:70 | filtering keeps ids increasing |
| Store.SelectNone | app/routes/orders.py:54 | a condition no row satisfies selects nothing |
| Store.OwnerExists | app/models.py:46-52 | a row of a table whose references hold names an existing subscriber |
| Store.RemoveAtKeepsOwners | app/routes/orders.py:189 | deleting an order keeps every remaining reference valid |
| Store.AppendKeepsOwners | app/routes/orders.py:167 | inserting a row for an existing subscriber keeps references valid |
| Store.WithoutKeepsOwners | app/routes/subscribers.py:80-99 | deleting a subscriber's rows keeps the other rows' references valid |
| Store.SubscriberUpdateKeepsOwners | app/routes/subscribers.py:75-77 | rewriting a subscriber under the same id keeps references valid |
| Store.SubscriberAppendKeepsOwners | app/routes/subscribers.py:57-59 | adding a subscriber keeps references valid |
| Store.CascadeKeepsOwners | app/routes/subscribers.py:98-104 | once a subscriber's rows are gone, removing the subscriber keeps the other rows' references valid |
| Store.Database.constructor | app/models.py:10-92 | an empty database is valid, with every counter at 1 |
| Orders.PriceMap | app/routes/orders.py:13 | the catalog map holds every row's operation type, and each entry is a catalog row of that type |
| Orders.FallbackPrice | app/routes/orders.py:16-22 | the built-in unit prices: 101/61/11 for legal clients and 105/65/15 otherwise, by operation |
| Orders.UnitPrice | app/routes/orders.py:13-22 | the catalog row's legal or individual price when there is a row for the operation, else the built-in price |
| Orders.MissingRowFallsBack | app/routes/orders.py:16-22 | a catalog with no row for an operation prices it at the built-in price, whatever other rows it holds |
| Orders.CalculateOrderTotal | app/routes/orders.py:11-27 | `calculate_order_total`: each count times its unit price, summed |
| Orders.PriceMapUnique | app/models.py:74 | with unique operation types the catalog maps each type to its own row |
| Orders.NonLegalPricedAsIndividual | app/routes/orders.py:15-22 | every client type other than 'legal' is priced as an individual |
| Orders.FallbackTotals | app/routes/orders.py:16-26 | with an empty catalog the total is 101·n + 61·e + 11·w for legal clients and 105·n + 65·e + 15·w for the others |
| Orders.CatalogRowsDecide | app/routes/orders.py:13-26 | with catalog rows for all three operations the total is the sum of count × that row's legal or individual price |
| Orders.TotalAdditive | app/routes/orders.py:24-26 | the total is additive in the counts |
| Orders.PriceOrder | app/routes/orders.py:114-154 | credit mode stores gap_bilen/0/dine_suw/0 at 105·gap_bilen + 15·dine_suw with 0 paid; standard mode stores the counts at the catalog total, paid defaulting to the total; is_free zeroes total and paid in both |
| Orders.CreditModeIgnoresStandardFields | app/routes/orders.py:114-139 | in credit mode the standard counts, paid_amount, client type and catalog do not change the charge |
| Orders.FreeBottlesNeverCharged | app/routes/orders.py:24-26 | free_bottles never changes the total |
| Orders.CreditExample | test_production.py:109 | 1 gap_bilen and 2 dine_suw is 135.00 owed, nothing paid |
| Orders.OwnedByAppend | app/routes/orders.py:31-32 | a new row joins the owner's rows and no one else's |
| Orders.SumOfAppend | app/routes/orders.py:31-33 | SUM grows by the new row's value |
| Orders.DebtAfterNewOrder | app/routes/orders.py:29-40 | a new order raises its subscriber's debt by exactly its total and leaves every other debt |
| Orders.DebtAfterPayment | app/routes/orders.py:29-40 | a new payment lowers its subscriber's debt by exactly its amount and leaves every other debt |
| Orders.DebtAfterOrderRemoved | app/routes/orders.py:187-191 | deleting an order lowers its subscriber's debt by exactly its total and leaves every other debt |
| Orders.Debt | app/routes/orders.py:29-38 | the debt figure: Σ of the subscriber's order totals minus Σ of its payments |
| Orders.DebtOfEmptyLedger | app/routes/orders.py:31-39 | a subscriber with no orders and no payments has a debt of 0, in any tables: empty sums count as 0 |
| Orders.RecalculateDebt | app/routes/orders.py:29-40 | only that subscriber's debt column changes, and it becomes Σ totals − Σ payments; a second run changes nothing |
| Orders.InsertOrder | app/routes/orders.py:167-168 | the order row goes in under the next id |
| Orders.PostOrder | app/routes/orders.py:167-170 | the order is inserted and its subscriber's debt becomes the old debt figure plus the order's total |
| Orders.Create | app/routes/orders.py:92-170 | unknown subscriber: 404, nothing changes; else one priced order under the next id and the debt grows by exactly its total |
| Orders.Delete | app/routes/orders.py:184-191 | unknown order: 404, nothing changes; else exactly that row goes and its subscriber's debt falls by its total |
| Orders.AddPayment | app/routes/orders.py:196-211 | exactly one payment is appended; when the subscriber exists its debt falls by the amount, and otherwise the handler fails after the commit |
| Orders.MatchesSearch | app/routes/orders.py:52-63 | the search condition: an empty search keeps all; 'id' compares the id; 'address' matches the address; any other type either |
| Orders.InDateRange | app/routes/orders.py:65-68 | the date condition: on or after date_from's midnight; date_to up to 23:59:59 as written, or before the next midnight once corrected |
| Orders.OrderMatches | app/routes/orders.py:50-68 | the inner join finds the order's subscriber, and the order meets the search and date conditions |
| Orders.Matching | app/routes/orders.py:50-68 | an order is kept iff its subscriber joins and it meets the search and date filters |
| Orders.OrderIndex | app/routes/orders.py:50-70 | the corrected list holds exactly the matching orders |
| Orders.OrderIndexNewestFirst | app/routes/orders.py:70 | the list is ordered by id, descending |
| Orders.OrderIndexAsWritten | app/routes/orders.py:52-70 | as written, a non-numeric `type=id` search fails, and otherwise the list holds exactly the matching orders |
| Orders.IdSearchFinding | app/routes/orders.py:54 | for any non-empty, non-numeric search by id and any orders table, the list fails as written and is empty once corrected |
| Orders.DateToFinding | app/routes/orders.py:67-68 | an order half a second before the next midnight is dropped by date_to as written and kept once corrected |
| Orders.BottlesAfterNewOrder | app/routes/orders.py:75-86 | a new order adds its new, exchanged and free bottles to its own subscriber's count, whatever its water_only |
| Orders.Bottles | app/routes/orders.py:75-86 | a subscriber's bottle count: Σ new + Σ exchange + Σ free over its orders, water_only excluded |
| Orders.SubscriberBottles | app/routes/orders.py:75-86 | one entry per subscriber, each Σnew + Σexchange + Σfree of its orders |
| Subscribers.NormalisePhones | app/routes/subscribers.py:61-64 | the normalised list is never longer than the form's list |
| Subscribers.NormalisePhonesStep | app/routes/subscribers.py:61-64 | each form entry adds its stripped form when that is not blank, and otherwise nothing |
| Subscribers.NormalisePhonesEntries | app/routes/subscribers.py:62-63 | every stored number is non-blank, stripped, and the stripped form of a form entry |
| Subscribers.NormalisePhonesKeeps | app/routes/subscribers.py:62-63 | every entry that is non-blank once stripped is stored, stripped |
| Subscribers.NormalisedPhonesKept | app/routes/subscribers.py:82-84 | a list of non-blank stripped numbers is stored as it is |
| Subscribers.NormalisePhonesIdempotent | app/routes/subscribers.py:82-84 | normalising twice is normalising once |
| Subscribers.PhoneRows | app/routes/subscribers.py:63 | one phone row per number |
| Subscribers.PhoneRowsAppend | app/routes/subscribers.py:61-64 | one more number adds one more row under the next id |
| Subscribers.PhoneRowsAt | app/routes/subscribers.py:63 | row i holds the i-th number, under id firstId + i, owned by the subscriber |
| Subscribers.PhoneRowsExtend | app/routes/subscribers.py:63-64 | adding the row of one more number gives the rows of the longer list |
| Subscribers.PhoneRowsOwned | app/models.py:46 | phone rows added for an existing subscriber keep every phone pointing at a subscriber |
| Subscribers.StorePhones | app/routes/subscribers.py:66 | the phones table and its counter are written back, keeping the table constraints |
| Subscribers.BuildPhones | app/routes/subscribers.py:61-64 | the loop adds exactly the rows of the normalised list, and the counter grows by its length |
| Subscribers.AddPhones | app/routes/subscribers.py:61-64 | the phones table gains exactly the rows of the normalised list under the next ids |
| Subscribers.Create | app/routes/subscribers.py:50-66 | one subscriber under the next id, with no debt and no promo settings, plus its normalised phones |
| Subscribers.Edit | app/routes/subscribers.py:71-87 | unknown id: 404, nothing changes; else name, type and address are overwritten and the phones are replaced by the normalised new list |
| Subscribers.UpdateSubscriberRow | app/routes/subscribers.py:75-77 | the subscriber row is rewritten in place and the table constraints hold |
| Subscribers.EditReplacesPhones | app/routes/subscribers.py:80-85 | after an edit the subscriber's phones are exactly the new rows, and every other subscriber keeps its phones |
| Subscribers.RemoveOrdersOf | app/routes/subscribers.py:99 | exactly the subscriber's orders go |
| Subscribers.RemovePhonesOf | app/routes/subscribers.py:80 | exactly the subscriber's phones go |
| Subscribers.RemoveSubscriberRow | app/routes/subscribers.py:104 | with its orders and phones gone, the subscriber row goes and the constraints hold |
| Subscribers.RemoveWithRows | app/routes/subscribers.py:98-105 | the subscriber goes together with exactly its orders and phones |
| Subscribers.Delete | app/routes/subscribers.py:92-110 | unknown id: 404, nothing changes; else every order, payment and phone of the subscriber goes, then the subscriber, and the result gives the numbers of orders and payments removed |
| Subscribers.DeleteRemovesExactly | app/routes/subscribers.py:98-110 | the counts removed are the subscriber's rows, none of them is left, and other subscribers' rows are unchanged |
| Subscribers.DeleteKeepsOtherDebts | app/routes/subscribers.py:98-105 | deleting a subscriber leaves every other subscriber's debt as it was |
| Subscribers.SubscriberIndex | app/routes/subscribers.py:15-33 | the list holds exactly the subscribers that meet the search |
| Subscribers.SubscriberIndexNewestFirst | app/routes/subscribers.py:33 | the list is ordered by id, descending, so it has no repeats |
| Subscribers.SearchDefaults | app/routes/subscribers.py:13-17 | without a type the search is by phone; an empty search lists every subscriber |
| Subscribers.SubscriberMatches | app/routes/subscribers.py:13-31 | the search condition per type: name, phone (the default), address, or any of the three; an empty search keeps all |
| Subscribers.NameSearchFoldsCase | app/routes/subscribers.py:18-19 | name search ignores ASCII case on both sides: searches that lowercase alike, on names that lowercase alike, give the same answer |
| Subscribers.Credit | app/routes/subscribers.py:38-44 | the credit column: Σ total − Σ paid over the subscriber's orders |
| Subscribers.DebtAndCredit | app/routes/subscribers.py:35-44 | debt equals credit plus what was paid at order time, minus the direct payments |
| Subscribers.CreditAfterNewOrder | app/routes/subscribers.py:38-44 | a new order adds its unpaid part to its own subscriber's credit and to no one else's |
| Subscribers.PaidOrderRaisesDebtNotCredit | app/routes/subscribers.py:38-44 | a fully paid order leaves the credit but raises the debt by its total |
| Subscribers.SubscriberCredits | app/routes/subscribers.py:36-44 | one entry per listed subscriber, each Σ total − Σ paid of its orders |
| Subscribers.UseColumns | app/models.py:27-37 | an error exactly when a keyword argument or an attribute read names an undeclared column; otherwise the stored columns are exactly the assigned ones the mapping declares |
| Subscribers.ReadsStoreNothing | app/models.py:27-37 | reads and keywords of declared columns go through and store nothing |
| Subscribers.EditStores | app/routes/subscribers.py:75-77 | edit stores exactly those of full_name, client_type and address that the mapping declares |
| Subscribers.FullNameFinding | app/routes/subscribers.py:57 | as declared, create, delete, get_json and the order list's drop-down fail on `full_name`, and edit stores only client_type and address |
| Subscribers.IndexFindingAsDeclared | app/routes/subscribers.py:17-31 | as declared, the subscriber list fails exactly for a non-empty search of type 'name' or any type other than 'phone' and 'address' |
| Subscribers.IntendedColumnsServeHandlers | app/routes/subscribers.py:57-96 | with `full_name` declared, create, delete, get_json and the drop-down go through and edit stores all three columns |
| Subscribers.IntendedColumnsServeIndex | app/routes/subscribers.py:17-31 | with `full_name` declared, the subscriber list goes through for every search |
| Admin.AdminRequired | app/routes/admin.py:11-18 | the guard admits an authenticated caller whose role is 'admin' and no one else |
| Admin.FindUser | app/routes/admin.py:35 | it finds a user with the name, and it finds none only when no user has the name |
| Admin.FindUserUnique | app/models.py:13 | with unique usernames the lookup finds the one user with the name |
| Admin.SameNameSameUser | app/models.py:13 | two positions with the same username are the same position |
| Admin.AppendKeepsUsernames | app/routes/admin.py:35-42 | adding a user whose name is not taken keeps usernames unique |
| Admin.UpdateKeepsUsernames | app/routes/admin.py:52-59 | renaming a user to a name no other user holds keeps usernames unique |
| Admin.RemoveAtKeepsUsernames | app/routes/admin.py:73-74 | deleting a user keeps usernames unique |
| Admin.RemovedUserGone | app/routes/admin.py:72-74 | after the delete no user with that id is left |
| Admin.StoreUsers | app/routes/admin.py:59 | the users table is written back, keeping the constraints |
| Admin.StoreNewUsers | app/routes/admin.py:41-42 | the users table and its counter are written back, keeping the constraints |
| Admin.CreateUser | app/routes/admin.py:30-42 | non-admin: refused; name taken: refused, nothing added; else exactly one user under the next id, with the given role or 'user' |
| Admin.EditedUser | app/routes/admin.py:52-57 | username and role are overwritten; the hash changes only for a non-empty password; id and creation time stay |
| Admin.EmptyPasswordKeepsHash | app/routes/admin.py:55-57 | an empty password keeps the stored hash, and editing the old name and role back with no password restores the row |
| Admin.EditUser | app/routes/admin.py:50-59 | non-admin: refused; unknown id: 404; another user has the name: the commit fails and nothing changes; else exactly that row is rewritten |
| Admin.DeleteUser | app/routes/admin.py:67-74 | non-admin: refused; deleting oneself: refused before any lookup; unknown id: 404; else exactly that user goes |
| Admin.DefaultPrices | app/routes/admin.py:86-93 | three seeded rows |
| Admin.DefaultPricesRows | app/routes/admin.py:86-93 | the seeded rows are exactly (new_bottle, 101, 105), (exchange, 61, 65) and (water_only, 11, 15) under consecutive ids, and their types are unique |
| Admin.SeededCatalogMatchesFallback | app/routes/admin.py:86-90 | with the seeded catalog every order costs what it costs with no catalog at all |
| Admin.StorePrices | app/routes/admin.py:111 | the price table is written back, keeping operation types unique |
| Admin.StoreNewPrices | app/routes/admin.py:94 | the price table and its counter are written back, keeping operation types unique |
| Admin.ViewPrices | app/routes/admin.py:82-97 | non-admin: refused, nothing changes; an empty catalog is seeded with exactly the three default rows; a non-empty one is shown unchanged |
| Admin.UpdatedPrice | app/routes/admin.py:104-109 | a row's legal price changes only when one is supplied for its id, and likewise its individual price; id and type stay |
| Admin.UpdatedPriceUnchanged | app/routes/admin.py:106-109 | supplying nothing, or a row's current prices, leaves the row as it is |
| Admin.UpdatedPriceIdempotent | app/routes/admin.py:103-109 | submitting the same form twice is submitting it once |
| Admin.UpdatedPricesKeepTypes | app/models.py:74 | rewriting prices without touching types keeps operation types unique |
| Admin.UpdatePrices | app/routes/admin.py:102-111 | non-admin: refused, nothing changes; else every row is updated from the fields supplied for its id and the table keeps its length |
| Admin.UpdateSettings | app/routes/admin.py:138-145 | it succeeds exactly for an admin, and changes nothing |

## Left out

- Flask plumbing is not modelled: routing, templates, `flash`/`redirect` and
  sessions. A redirect with a flash message is an `Err` case of the handler's
  `Result`.
- The logged-in caller is passed in, as `Admin.Actor` or as a user id.
  `login_required` turning away an anonymous caller is folded into
  `Admin.AdminRequired`'s `Forbidden`.
- Form parsing, including `type=int`/`type=float`, `getlist` and missing
  fields, is not modelled. A handler takes the already-parsed values. A
  `float` field that is missing or does not parse is absent from the maps
  `Admin.UpdatePrices` receives.
- Floating-point conversions (`float(...)`, `Decimal(str(float))`) are not
  modelled. Amounts are exact cents, so rounding through binary floats does
  not occur in the model.
- Password hashing by werkzeug is a foreign library. The hash arrives as the
  `hashed` argument.
- `log_action`, the audit-log writer, is a database write with no logic. It
  is not modelled, nor is the `/logs` page.
- The read-only pages (`admin.users`, `admin.settings`, `subscribers.get_json`)
  only render rows.
- The schema defaults of the order columns (quantities 0, `paid_amount` 0,
  `is_free` false) never apply, because `orders.create` always supplies every
  column. They are not modelled separately.
- Transactions are modelled as the effect of a successful commit. For a
  failure that aborts a handler, the database is as it was, except where the
  source committed first.
- Concurrency is not modelled.
- `ILIKE` is ASCII case folding plus substring. LIKE wildcards (`%`, `_`)
  typed into the search are not modelled.
- `strip`, `lower`, `isdigit`, `int()` and `Decimal()` are modelled on ASCII.
  Unicode whitespace and digits, and Decimal forms with exponents or more than
  two fraction digits, are not modelled.
- Date parsing (`strptime`) is not modelled. The date filters take the day
  number of the parsed date.
- The foreign key of payments is not part of `Database.Valid()`.
  `orders.add_payment` commits its payment before the subscriber lookup.
  While SQLite does not enforce foreign keys, which is its default, a
  payment may reference a subscriber that does not exist. With enforcement
  on, that commit would fail instead.
- Ids are never reused: each table's counter only grows. SQLite without
  AUTOINCREMENT can hand out the highest id again once that row is deleted.
- Text.ParseInt and Text.ParseCents refuse text that Python accepts:
  underscores between digits (`int("1_0")`), and for `Decimal` also `NaN`,
  `Infinity` and exponents.
- `Orders.AddPayment`: a payment with no `subscriber_id` at all (a NULL
  column) is not modelled. The id is always an integer.
- Admin.EditUser: a missing `username` or `role` form field, which would write
  NULL, is not modelled. Both arrive as strings. A missing password is the
  empty string.
- Admin.DeleteUser: what the ORM does with the deleted user's orders and log
  rows is not modelled. Neither relationship declares a cascade, so the
  default one sets their `user_id` to NULL. That column is NOT NULL, so
  deleting a user who has logged in, and so has log rows, most likely fails
  with an IntegrityError. The model lets the delete succeed.
- The handlers are modelled on the intended table with a `full_name` column.
  As declared (see "Findings"), `subscribers.create`, `delete`, `get_json`,
  the name and "all" searches, and the order list fail on `full_name`, and
  `subscribers.edit` does not store the new name. `Subscribers.UseColumns`
  models only which attribute uses fail; it does not rerun the handlers.
- The water-only promotion is not called by any handler, so order pricing
  does not use it. It is modelled on its own, as `Pricing.PromoWaterPrice`.

## Findings

| source | as written | input that shows it | evidently intended | confidence | as-written member | corrected member |
|---|---|---|---|---|---|---|
| app/routes/orders.py:54 | `filter(Order.id == int(search) if search.isdigit() else -1)` binds the conditional around the whole comparison, so a non-numeric id search filters on the bare literal `-1` | `?search=abc&type=id` | compare the id against -1 and match no order, as the "all" branch on line 61 does | not executed | Orders.IdSearchFinding | Orders.OrderIndex |
| app/models.py:27-37 | the Subscriber mapping declares no `full_name` column, yet the routes pass `full_name=` to the constructor (TypeError), read `Subscriber.full_name` and `subscriber.full_name` (AttributeError), and assign it in edit, where it is never stored | creating a subscriber; deleting one; `?search=x&type=name` | declare `full_name` as a column, as every subscriber route and the order list assume | not executed | Subscribers.FullNameFinding | Subscribers.Create |
| app/routes/orders.py:68 | the date_to bound is `created_at <= date_to 23:59:59`, which drops orders stamped in the last, fractional second of the day | an order at 23:59:59.5 with `date_to` that day | keep the whole day, up to the next midnight | not executed | Orders.DateToFinding | Orders.OrderIndex |
