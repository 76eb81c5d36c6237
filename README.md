# School fee management: a verified model of its core

This project models how school-erp calculates fees and keeps its records, in Dafny. The system is a school fee-management web application: a Django REST backend with a React front end. The model covers:

- **Student actions of the backend** (`Backend/students/views.py`):
  - `stats`: head counts, money collected up to a date, and money still expected;
  - `pending_fees`: one row per student with the amount due, paid and pending, plus a per-head breakdown, sorted by balance;
  - `ledger`: debits for class fee heads and credits for payments, sorted by date, with a running balance;
  - `bulk_import`: an upsert of students from a spreadsheet;
  - the guard in `update` / `partial_update`: a student cannot be marked "TC" (transfer certificate issued) while they owe money.
- **The fee tables** (`Backend/fees/models.py`):
  - their `unique_together` keys;
  - what deleting a receipt or a fee head does to the rows that refer to it;
  - the opt-out reading of the enrollment table;
  - the "General" label of a payment whose head is gone.
- **The enrollment dialog** (`Frontend/src/components/EnrollmentModal.jsx`):
  - the head → installment → enrolled map, its default-true lookup and its toggle;
  - loading the map from the student's records;
  - the payload saved for each head, posted one head at a time.
- **Stock keeping** (`Backend/inventory/models.py`): creating a stock transaction moves its item's quantity in place.
- **The HTTP client's base URL** (`Frontend/src/api.js`).

## How the model is organised

- Database tables and query results are sequences in primary-key order:
  - `filter` is `Common.Filter`;
  - `aggregate(Sum(...)) or 0` is `Common.SumBy`;
  - `.get()` on a unique key, and following a foreign key, are `Common.FindByKey`;
  - `.first()` after a `filter` is the head of `Common.Filter`, which `Common.FilterFirst` proves is the earliest match;
  - `unique_together` is `Common.UniqueBy`.
- Money is a whole number of paise. Dates are ordinal day numbers, so their order is calendar order.
- "Today" is a parameter. So are the HTTP responses the front end receives.
- Python's stable `list.sort`, and a queryset's `order_by`, are modelled by the stable insertion sort `Sorting.SortBy`. `reverse=True` becomes a negated key, which keeps ties in the same order as Python does.
- The accumulator loops of the views are Dafny methods with loop invariants:
  - `FeeRules.ChargesOver` computes `total_expected`;
  - `PendingFees.StudentRow` and `PendingFees.GetPendingFees` build the pending-fees rows;
  - `Ledger.WithBalances` fills the running sum into an array of entries in place;
  - `Stats.GetStats` computes the totals;
  - `BulkImport.Import` runs the import loop.
  
  Each method is proved equal to a recursive specification function. The properties are proved about those functions.
- Objects whose fields the source updates in place are classes:
  - the React component's state is `Enrollment.EnrollmentModal`;
  - the Django models whose `save` mutates fields are `Inventory.InventoryItem` and `Inventory.InventoryTransaction`.

Modules:

| module | file | models |
|---|---|---|
| `Common` | `common.dfy` | Option, sums, filters and key lookup over sequences |
| `Sorting` | `sorting.dfy` | the stable sort |
| `Students` | `students.dfy` | the student record the views use |
| `FeeModels` | `fee_models.dfy` | the fee tables, their keys, the deletions, the opt-out enrollment reading |
| `FeeRules` | `fee_rules.dfy` | class heads, transport guards, `total_expected`, payments per head |
| `Stats` | `stats.dfy` | `stats` |
| `PendingFees` | `pending_fees.dfy` | `pending_fees` |
| `Ledger` | `ledger.dfy` | `ledger` |
| `TcGuard` | `tc_guard.dfy` | the TC guard of `update` / `partial_update` |
| `Cells` | `cells.dfy` | spreadsheet cell values and `str`, `strip`, `lower` on them |
| `BulkImport` | `bulk_import.dfy` | `bulk_import` |
| `Enrollment` | `enrollment.dfy` | the enrollment dialog |
| `Inventory` | `inventory.dfy` | stock transactions |
| `ApiBase` | `api_base.dfy` | the base-URL expression |

## Model

| member | source | states |
|---|---|---|
| FeeModels.ClassAmountUnique | Backend/fees/models.py:66-72 | With (fee_head, class_name) unique, the amount lookup for a row's pair returns exactly that row's amount. |
| FeeModels.Valid | Backend/fees/models.py:55-144 | Defines the schema's uniqueness constraints: head id, (name, session), (class, head) of structures, (head, class) of amounts, (student, head, installment) of student fees, the settings' session, receipt id and `receipt_no`, transaction id, and the enrollment key. |
| FeeModels.TransactionLabel | Backend/fees/models.py:123-124 | A payment with no fee head is labelled "General"; otherwise it carries its head's name. |
| FeeModels.DeleteReceipt | Backend/fees/models.py:117-159 | Deleting a receipt keeps exactly the other receipts and exactly the transactions not on it. A bank entry loses its match exactly when it matched one of the cascaded transactions, and is otherwise unchanged. No other table changes. |
| FeeModels.DeleteReceiptKeepsOthers | Backend/fees/models.py:117 | Every other receipt's transactions are the same, in the same order, after the deletion. |
| FeeModels.DeleteReceiptCount | Backend/fees/models.py:117 | The number of transactions drops by exactly the number the receipt had. |
| FeeModels.DeleteReceiptValid | Backend/fees/models.py:103-117 | Deleting a receipt keeps every uniqueness constraint of the schema. |
| FeeModels.DeleteFeeHead | Backend/fees/models.py:59-133 | Deleting a head keeps exactly the other heads, and exactly the structures, amounts, student fees and enrollment records of other heads. Every transaction stays in place; a transaction of the deleted head has its head set to null (`SET_NULL`), and nothing else about any transaction changes. Receipts, settings and bank entries are unchanged; students are left as they are (see "## Left out"). |
| FeeModels.DeleteFeeHeadValid | Backend/fees/models.py:54-82 | Deleting a head keeps every uniqueness constraint, including transaction ids after the set-null. |
| FeeModels.DeleteFeeHeadLabels | Backend/fees/models.py:116-124 | After a head is deleted, each of its transactions is unchanged except its head and is labelled "General"; every other transaction keeps its label. |
| FeeModels.NewEnrollment | Backend/fees/models.py:136-139 | A new enrollment record is enrolled by default and carries its uniqueness key. |
| FeeModels.EnrolledIn | Backend/fees/models.py:126-144 | Defines the opt-out reading: a student is enrolled in a head's installment for a session unless the record with that key says not enrolled; `OptedOutIff` characterises it. |
| FeeModels.OptedOutIff | Backend/fees/models.py:126-144 | Under the uniqueness key, a student is opted out of an installment exactly when a record for it says not enrolled. A missing record means enrolled. |
| FeeModels.DefaultEnrollmentChangesNothing | Backend/fees/models.py:127-139 | Adding a record with the default value changes nobody's enrollment. |
| FeeRules.ClassHeads | Backend/students/views.py:52 | The class heads are exactly the heads that have an amount row for the class. |
| FeeRules.TransportAllows | Backend/students/views.py:54-59 | The two `continue` guards pass exactly for non-transport heads and for the student's own transport head when they have transport. |
| FeeRules.ExpectedFor | Backend/students/views.py:49-65 | The accumulator loop returns `ExpectedTotal`: the sum of the class amounts of the class heads that pass the transport guards. |
| FeeRules.ChargesOver | Backend/students/views.py:53-65 | The loop over class heads adds each head's charge. The `DoesNotExist` branch is never taken. |
| FeeRules.ExpectedSplit | Backend/students/views.py:53-65 | With unique head ids, the expected total is every non-transport head's class amount plus at most the single linked transport head's amount. |
| FeeRules.PaidOnHeadsPerHead | Backend/students/views.py:110-120 | With unique head ids, what is paid against a set of heads is the sum, head by head, of what is paid against each. |
| Stats.GetStats | Backend/students/views.py:20-75 | The report gives the roster count, the Active and TC counts and the filtered collection total. It gives `total_pending` as the summed expected totals minus that collection. |
| Stats.CollectedGrowsWithDate | Backend/students/views.py:39-42 | With no negative payments, a later date cutoff never collects less, and no cutoff collects the most. |
| Stats.CountsBounded | Backend/students/views.py:29-31 | The Active and TC counts together never exceed the roster count. |
| Stats.Cutoff | Backend/students/views.py:23 | Defines the date cutoff: a missing `date` parameter means today, an empty one means no date filter, and a given date is the cutoff. |
| Stats.TotalCollected | Backend/students/views.py:34-42 | Defines `total_collected`: the sum of `amount_paid` over the transactions whose head is in the session (a headless one is not), whose student is in the class and whose date is on or before the cutoff, with 0 for none. |
| PendingFees.StudentRow | Backend/students/views.py:94-133 | The loop builds the student's row: due is the expected total, paid is what was paid against class heads, pending is due minus paid, and the breakdown is the per-head map. |
| PendingFees.RowOf | Backend/students/views.py:94-133 | Defines one report row: due is the expected total, paid sums the student's payments on all class heads, pending is due minus paid, and the breakdown is built head by head; the `Breakdown...` and `BalanceFromBreakdown` lemmas characterise it. |
| PendingFees.GetPendingFees | Backend/students/views.py:78-138 | The response is the filtered report sorted by balance, and the balances never increase along it. |
| PendingFees.SortedDescending | Backend/students/views.py:136 | Sorting with the negated key orders rows highest balance first. |
| PendingFees.ReportMembers | Backend/students/views.py:122-136 | A row appears exactly when it is the row of a listed student and `show_all` is set or the balance is positive. |
| PendingFees.TiesKeepRosterOrder | Backend/students/views.py:136 | Rows with the same balance keep their roster order. |
| PendingFees.BreakdownEntries | Backend/students/views.py:106-115 | Each breakdown entry comes from a charged head of that name: due is its class amount, paid is the student's payments against it, pending is due minus paid. |
| PendingFees.BreakdownIsDict | Backend/students/views.py:111-115 | The map the loop fills is the dict of the entries in loop order; a later head with the same name overwrites. |
| PendingFees.RowBreakdownEntries | Backend/students/views.py:106-115 | The same property for the `head_breakdown` of a built row. |
| PendingFees.BalanceFromBreakdown | Backend/students/views.py:106-122 | The balance equals the sum of the breakdown lines' pending values, minus payments on class heads the student is not charged for. |
| Ledger.GetLedger | Backend/students/views.py:141-183 | There is one entry per class head and one per payment on those heads. Entry k is the k-th entry of the date-sorted postings, and its balance is the sum of debit minus credit up to and including it. |
| Ledger.Postings | Backend/students/views.py:149-172 | Defines the unsorted entries: one debit dated today per class head of the session, in head order, then one credit per payment on those heads in payment-date order; `LedgerClosingBalance` and `CreditsSum` characterise their sum. |
| Ledger.WithBalances | Backend/students/views.py:177-181 | The in-place running-sum loop writes into each entry the prefix sum of debit minus credit. |
| Ledger.RunningBalancesArePrefixSums | Backend/students/views.py:177-181 | The balance column, element by element, equals the prefix sums. |
| Ledger.LedgerDateOrdered | Backend/students/views.py:175 | The entries are in date order. |
| Ledger.LedgerStable | Backend/students/views.py:165-175 | Entries of one date keep their appended order: head order for today's debits, then payments. |
| Ledger.LedgerPermutation | Backend/students/views.py:175 | The sort neither loses nor adds an entry. |
| Ledger.LedgerClosingBalance | Backend/students/views.py:149-181 | The closing balance is the class amounts of all class heads, with no transport filter, minus what was paid against them. |
| Ledger.CreditsSum | Backend/students/views.py:164-181 | The payment lines of the ledger add up to the negated total paid against the class heads. |
| Ledger.LedgerMatchesPendingBalance | Backend/students/views.py:145-181 | When every class head passes the transport guards, the ledger closes on the `pending_fees` balance. |
| TcGuard.CheckUpdate | Backend/students/views.py:242-269 | The update is refused exactly when the new status is "TC", the old one is not, and the expected total minus all the student's payments is positive. The refusal carries that balance. |
| TcGuard.SettlingClearsGuard | Backend/students/views.py:263-266 | Recording a payment of the owed balance, on any head or none, brings the balance to zero. |
| TcGuard.OthersPaymentsIgnored | Backend/students/views.py:263 | Another student's payment does not move the balance. |
| TcGuard.BalanceFallsWithPayments | Backend/students/views.py:263-264 | With no negative payments, recording payments never raises the balance. |
| Cells.Strip | Backend/students/views.py:204 | The result is a contiguous slice of the text with no whitespace at either end, and everything cut off before and after it is whitespace. |
| Cells.Lower | Backend/students/views.py:208 | The result has the same length, and each letter is lowered. |
| Cells.StripUnpadded | Backend/students/views.py:204 | Text with nothing to trim is kept as it is. |
| Cells.StripPadded | Backend/students/views.py:204 | One space on either side of unpadded text is removed again. |
| Cells.StripEmpty | Backend/students/views.py:204 | An empty cell read as text and stripped is the word "None". |
| Cells.TransportFlagPaddedYes | Backend/students/views.py:208-211 | " YES " turns transport on. |
| Cells.TransportFlagTrue | Backend/students/views.py:208-211 | A boolean true cell, whose `str` is "True", turns transport on. |
| Cells.TransportFlagOne | Backend/students/views.py:208-211 | The number 1 turns transport on. |
| Cells.TransportFlagNo | Backend/students/views.py:208-211 | "no" leaves transport off. |
| Cells.TransportFlagEmpty | Backend/students/views.py:208 | An empty cell leaves transport off. |
| Cells.TransportFlag | Backend/students/views.py:208-211 | Defines `has_transport`: true exactly when the cell is truthy and its stripped, lower-cased text is "yes", "true", "1" or "y"; the `TransportFlag...` lemmas pin down the common cells. |
| BulkImport.ParseRow | Backend/students/views.py:203-211 | A row fails to parse exactly when it has fewer than six cells. |
| BulkImport.Step | Backend/students/views.py:200-231 | Defines one row of the loop: a row with no cell fails the request, an empty first cell is skipped, a short row adds one error, and a parsed row is upserted and counted as created or updated. |
| BulkImport.RunRows | Backend/students/views.py:199-231 | Defines the loop over the data rows, numbered from sheet row 2, stopping at the first failing row; `Import` is proved equal to it. |
| BulkImport.EmptyNameIsNone | Backend/students/views.py:205 | An empty name cell is written as the name "None". |
| BulkImport.TransportHead | Backend/students/views.py:213-215 | A found head is the first transport head in primary-key order whose name matches case-insensitively. If such a head exists, one is found. No name means no head. |
| Common.FilterFirst | Backend/students/views.py:215 | The head of a non-empty filter is the earliest element of the table that satisfies the filter, as `.first()` returns. |
| BulkImport.Upsert | Backend/students/views.py:217-229 | The store gains exactly the row's student id. A student is created iff the id was absent. The five fields are set. An update keeps the primary key and the status. Every other student is untouched. |
| BulkImport.Import | Backend/students/views.py:186-240 | No file or an unreadable file gives its error and writes nothing. Otherwise the response and the store are those of the row-by-row run, and a row with no cells fails the whole request after the earlier rows were written. |
| BulkImport.RunRowsStop | Backend/students/views.py:200-201 | Once a row fails the request, later rows are not looked at. |
| BulkImport.EveryRowCountedOnce | Backend/students/views.py:200-231 | When the request does not fail, every row with a first cell is counted exactly once, as created, updated or an error. |
| BulkImport.SkippedRowChangesNothing | Backend/students/views.py:201 | A row with an empty first cell changes nothing. |
| BulkImport.CreatedIsGrowth | Backend/students/views.py:217-229 | Existing ids stay, and the created count equals the growth of the store. |
| BulkImport.RowWritesItsStudent | Backend/students/views.py:217-226 | A parsed row's student ends up with the row's fields and the resolved transport head. Others are untouched. |
| BulkImport.ShortRowReported | Backend/students/views.py:203-231 | A row with fewer than six cells adds one error under its row number and writes nothing. |
| Sorting.SortByStable | Backend/students/views.py:175 | Sorting keeps the relative order of elements with equal keys. |
| Sorting.SortByPermutation | Backend/students/views.py:175 | Sorting is a permutation. |
| Sorting.SortBySorted | Backend/students/views.py:136 | The sorted sequence is ordered by the key. |
| Enrollment.Put | Frontend/src/components/EnrollmentModal.jsx:39-42 | Writing a cell makes it read as the written value, and every other cell reads as before. |
| Enrollment.Enrolled | Frontend/src/components/EnrollmentModal.jsx:53-58 | Defines `isEnrolled`: a head with no inner map, or an installment with no entry, reads as enrolled; otherwise the stored value. `Put`, `Toggled` and `BuildMapLastWins` state their results through it. |
| Enrollment.Toggled | Frontend/src/components/EnrollmentModal.jsx:60-70 | Toggling flips the lookup of that head and installment and leaves every other cell's lookup unchanged. |
| Enrollment.ToggleTwice | Frontend/src/components/EnrollmentModal.jsx:60-70 | Toggling the same cell twice restores what every cell reads. |
| Enrollment.BuildMapLastWins | Frontend/src/components/EnrollmentModal.jsx:37-43 | In the loaded map each cell reads as the last record for it, or as enrolled when it has none. |
| Enrollment.LastForSpec | Frontend/src/components/EnrollmentModal.jsx:37-43 | The last matching record is absent exactly when no record is for the cell, and otherwise is a matching record with no later match. |
| Enrollment.BuildMapMatchesTable | Frontend/src/components/EnrollmentModal.jsx:37-58 | For one student's records under the table's uniqueness key, the dialog reads every cell as the backend's opt-out reading of the table does. |
| Enrollment.CollectRecords | Frontend/src/components/EnrollmentModal.jsx:37-43 | The `forEach` loop builds the map that `BuildMap` specifies. |
| Enrollment.InstallmentPayload | Frontend/src/components/EnrollmentModal.jsx:78-81 | A head's payload has exactly the keys 1..installmentCount, each holding `isEnrolled`. |
| Enrollment.EnrollmentModal.constructor | Frontend/src/components/EnrollmentModal.jsx:5-9 | The dialog starts with no heads, an empty map and 4 installments. |
| Enrollment.EnrollmentModal.FetchData | Frontend/src/components/EnrollmentModal.jsx:17-51 | A failed head request changes nothing. Otherwise the heads are stored, the count is the settings value or 4 when that request fails, and the map is rebuilt from the records unless that request fails. |
| Enrollment.EnrollmentModal.Toggle | Frontend/src/components/EnrollmentModal.jsx:60-70 | The map becomes the toggled map, and heads and count are unchanged. |
| Enrollment.EnrollmentModal.Save | Frontend/src/components/EnrollmentModal.jsx:72-98 | One request is sent per head in list order, each with that head's full payload, up to and including the first failure. `onSave` and `onClose` run only when every request succeeded. |
| Inventory.InventoryItem.constructor | Backend/inventory/models.py:11-14 | A new item has quantity 0, reorder level 10 and category "OTHER". |
| Inventory.InventoryTransaction.Save | Backend/inventory/models.py:32-40 | While the key reads as false (none yet, or 0), "IN" adds the quantity to the item in place and "OUT" subtracts it, with no lower bound; other types move nothing. Saving a row with a non-zero key moves nothing. Only the item's quantity and the key change. |
| Inventory.CreateAll | Backend/inventory/models.py:32-40 | Creating and saving a run of new transactions against one item leaves its quantity at `Replay` of the old quantity, and nothing else about the item changes. |
| Inventory.ZeroKeyMovesTwice | Backend/inventory/models.py:34 | A row given the key 0 moves the stock on every save, because `not self.pk` reads 0 as false. |
| Inventory.ReplayIsSum | Backend/inventory/models.py:34-39 | After a run of creations (`CreateAll`), the quantity is the start plus every IN minus every OUT. |
| Inventory.ReplayOrderFree | Backend/inventory/models.py:34-39 | The order in which two batches of transactions are created does not change the final quantity. |
| Inventory.InThenOutRestores | Backend/inventory/models.py:35-38 | IN of q followed by OUT of q gives the stock back. |
| Inventory.NoLowerBound | Backend/inventory/models.py:37-38 | Taking stock out of a new item leaves a negative quantity. |
| ApiBase.StripApi | Frontend/src/api.js:4 | At most one trailing "/api" or "/api/" is removed. |
| ApiBase.StripApiAfterApi | Frontend/src/api.js:4 | A text ending in "/api" loses exactly that suffix. |
| ApiBase.StripApiAfterApiSlash | Frontend/src/api.js:4 | A text ending in "/api/" loses exactly that suffix. |
| ApiBase.TrimSlashes | Frontend/src/api.js:4 | The whole run of trailing slashes is removed, and nothing else. |
| ApiBase.Normalize | Frontend/src/api.js:4 | The base URL ends with "/api/", and the part before it has no trailing slash. |
| ApiBase.NormalizeDefault | Frontend/src/api.js:4 | With the variable unset or empty, the URL is "http://127.0.0.1:8000/api/". |
| ApiBase.PlainOrigin | Frontend/src/api.js:4 | An origin with no trailing slash and no "/api" suffix just gets "/api/" appended. |
| ApiBase.NormalizeIdempotent | Frontend/src/api.js:4 | Normalising a normalised URL changes nothing. |
| ApiBase.OneApiRemoved | Frontend/src/api.js:4 | Of two trailing "/api" segments, only the last one is removed. |
| ApiBase.SlashesBeforeApiRemoved | Frontend/src/api.js:4 | Slashes left in front of a removed "/api/" are removed as well. |

## Left out

- Floating point is not modelled. The `float()` conversions in `pending_fees` and `ledger` only format the response. Amounts are whole paise, the ledger's running sum is exact, and the response's number formatting is not modelled.
- Python's `str.strip` and `str.lower` are modelled only partly:
  - `Cells.Strip` removes only ASCII whitespace, the separators U+001C to U+001F, NEL and no-break space, not every Unicode space;
  - `Cells.Lower` lowers only ASCII letters;
  - `name__iexact` is compared through the same `Lower`.
- Spreadsheet cells are modelled as empty, text, integer or boolean:
  - openpyxl's float, date and formula cells are not modelled;
  - reading the workbook is the `Unreadable` case of the upload;
  - the row number in an error is the data row's position plus one for the header.
  
  The error text is kept as "tuple index out of range" for short rows. The "Row n: " prefix is carried as the error's row number.
- The order of `head_breakdown` is not kept, because it is a map. The row order of querysets without `order_by` is taken to be primary-key order.
- `Ledger.LedgerStable` and `Ledger.GetLedger`: `order_by('payment_date')` is modelled as a stable sort of the primary-key order, so payments on the same date keep that order. The database does not guarantee any order among equal dates, so the order of same-day payments, and the running balances between them, are a modelling choice.
- `Inventory`: `quantity` is an `IntegerField`, which the database holds in 32 bits. The model uses unbounded integers, so a quantity pushed outside that range, which the database would refuse on `item.save()`, is not modelled.
- `FeeAmount.objects.get` raising `MultipleObjectsReturned` is excluded by using the schema's (fee_head, class_name) uniqueness. `Valid` states it; the lemmas that need it require it. `ClassAmount` returns the first match.
- Several things are out of scope:
  - concurrency between requests, and database transactions (a failed import keeps the rows written before the failure, as the source does);
  - the atomicity of `update_or_create`;
  - stale in-memory objects in `InventoryTransaction.save`.
- What `super().update` does after the TC guard lets a request through is Django's serializer machinery; it is not modelled. `TcGuard.CheckUpdate` only decides whether the guard refuses.
- `BulkImport.Upsert`: a created student gets the status "Active", the value the views count. The student model file in the repository is older than the views (it has no `student_id`, `name` or `has_transport` field), so its real default is not part of this model.
- `BulkImport`: the import's store is a map keyed by `student_id`, so it assumes at most one student per id. Several rows with the same id update that one student in turn, and this is modelled. Left out:
  - when the table holds two students with one id, `update_or_create` raises `MultipleObjectsReturned`, which the source reports as a "Row n: ..." error, and the model has no such path;
  - any other database error raised by `update_or_create` (a too-long value, say), which the source also reports as a row error;
  - a relation between this store and the sequence of students that the other views read.
- `FeeModels.Receipt`: `receipt_no` is a `PositiveIntegerField`, which accepts 0. The model uses `nat` and `UniqueBy` and does not claim positivity.
- The `__str__` methods are not modelled; only the "General" fallback label is, in `TransactionLabel`. The serializers, viewsets and URL routers are framework wiring and are not modelled.
- UI-only state is not modelled: `loading` and `saving` flags, rendering, the alert text and console logging. HTTP requests are parameters: their responses, or the index of the first failing post.
- `Enrollment.EnrollmentModal.Toggle`: applies each toggle to the current state, as one toggle per render does. React's `setEnrollments(prev => ...)` reads `isEnrolled` from the render-time state, not from `prev`, and `{ ...prev }` copies only the outer map. When two toggles of one cell are batched into the same render, the result depends on aliasing the model does not capture:
  - if the head has no inner map yet, both updaters read the same render-time value and the cell ends toggled once;
  - if it has one, the inner object is shared with the render-time state, so the first updater's write is what the second one reads, and the second flips it back.
- `Enrollment.EnrollmentModal.FetchData`: the settings response's `installment_count` is taken to be a number. A missing field (JavaScript `undefined`) is not modelled.
- `FeeModels.DeleteFeeHead`: leaves the students table as it is. `Student.transport_fee_head` is a foreign key to the fee head, but its `on_delete` rule is not in the available files: the student model file predates the field, and no migration defines it. Django would delete such a student, clear the link, or refuse the deletion. The model does none of these, and a student can keep a link to the deleted head.
- `Ledger`: the debit entries are dated "today", which is a parameter. The ledger's `FeeAmount.objects.get` has no `DoesNotExist` handler, and `ClassHeads` guarantees an amount exists.

Nothing in `Frontend/src/pages/` is part of this model. Neither are the reconciliation page, the debug scripts, the receipt views or the migration.
