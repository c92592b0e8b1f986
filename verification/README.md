# Store back office: business rules in Dafny

This project models the business-rule core of a small Django back office for a shop (the `store` application). The office keeps:

- products, with a price and a stock quantity;
- customers, some of them companies;
- invoices, numbered `СЧ-<n>`, whose lines debit stock as they are saved;
- sale documents of three kinds, each kind numbered in its own series:
  - cash sales, `ТЧ-<n>`;
  - cashless sales, `БН-<n>`, each tied to a paid invoice;
  - returns, `ВР-<n>`, each tied to the cash or cashless sale it takes goods back from.

The model covers these rules:

- how numbers are issued and closed up again when a document is deleted;
- how stock moves on sales, returns and invoice lines;
- how totals are recomputed;
- the model-level and form-level validation;
- marking an invoice paid, which links exactly one cashless sale to it;
- the price defaulting of new document lines;
- the three read-only views over the documents:
  - the dashboard figures;
  - the sales report page and the stored report's row layout;
  - the document journal with its filters and its numeric sort key.

Conventions:

- Money is an integer number of kopecks and a date is an integer day number.
- Every collection the database holds is a sequence in id order.
- Operations that the source lets fail return a `Result`, whose error names the failing rule.
- The database, the request, the clock (`timezone.now`) and the templates are not modelled; what they supply becomes a parameter.

Modules, one concern each:

| module | concern |
|---|---|
| `Base` | `Option`, `Result` and the error kinds |
| `Text` | Python's `int()`, `str()` and `split`; SQLite's `SUBSTR`, `CAST` and case-blind `LIKE` |
| `Entities` | the records and the lookups |
| `Selection` | the ORM's `filter` chains |
| `Totals` | total recomputation |
| `Stock` | stock moves |
| `Numbering` | document and invoice numbers |
| `Deletion` | delete with its stock effect |
| `Validation` | the model `clean` rules |
| `Forms` | the form rules |
| `Invoices` | saving and marking invoices paid |
| `Sorting` | the `order_by` clauses |
| `Buckets` | the per-date grouping |
| `SalesView` | the `sales_report` page |
| `FormattedReport` | `generate_report_data` |
| `Journal` | the document list |
| `Dashboard` | `home` |
| `Pricing` | line price defaulting |

## Model

| member | source | states |
|---|---|---|
| Totals.Retotal | store/models.py:105-110 | The recomputed total of a run of lines is the sum of price times quantity over them, 0 with no lines; for every line, it is that line's amount plus the total of the others. |
| Totals.UpdateInvoiceTotal | store/models.py:105-110 | An invoice's recomputed total is the sum of price times quantity over its lines, 0 with no lines; for every line, the total is that line's amount plus the total of the others. Nothing else about the invoice changes. |
| Totals.UpdateDocumentTotal | store/models.py:295-300 | The same for a sale document: the total is the sum of its line amounts, 0 with no lines, and only the total changes. |
| Totals.UpdateTotalIdempotent | store/models.py:295-300 | Recomputing a total a second time changes nothing, for invoices and documents. |
| Totals.TotalAfterAdd | store/models.py:489-491 | Saving one more line raises the recomputed total by exactly that line's amount. |
| Totals.TotalAfterEdit | store/models.py:489-491 | Replacing line k changes the total by the new line's amount minus the old line's. |
| Totals.ItemsTotalPermutation | store/models.py:295-300 | The aggregate does not depend on line order: any rearrangement of the lines has the same total. |
| Stock.CleanInvoiceItem | store/models.py:170-175 | An invoice line passes `clean` exactly when its quantity is at most the product's stock, and otherwise fails with insufficient stock. |
| Stock.SaveInvoiceItemAsWritten | store/models.py:177-196 | `InvoiceItem.save` as written. A new line is accepted exactly when within stock. An edited line is accepted exactly when it is within the bare stock and also within the stock plus the stored quantity. On success, the line's current product is credited the stored quantity and debited the new one. |
| Stock.SaveInvoiceItem | store/models.py:177-196 | Corrected save. It is accepted exactly when the new quantity fits the stock after the stored line's units have gone back to the stored line's product. Every product then moves by its stored quantity minus its new quantity. Prices never change. Non-negative stock stays non-negative. |
| Stock.DeleteInvoiceItem | store/models.py:198-207 | Deleting a line credits its quantity back to its product, and every other product is unchanged. |
| Stock.SaveThenDeleteRestoresStock | store/models.py:177-207 | Saving a new line and then deleting it gives back exactly the stock held before. |
| Stock.SaveVersionsAgreeOnNewLines | store/models.py:177-196 | For a new line, the as-written save and the corrected save give the same result. |
| Stock.EditActsAsFreshSave | store/models.py:177-196 | With the corrected save, editing a saved line has the same stock effect and the same acceptance as saving the edited line fresh from the original stock. |
| Stock.EditBelowStoredQuantityRejected | store/models.py:180-191 | Counterexample: a 5-unit line with stock now 0, edited down to 3. The as-written save refuses it; the corrected save accepts it and leaves 2 in stock. |
| Stock.EditChangingProductMisplacesStock | store/models.py:183-192 | Counterexample: a 3-unit line moved from product 1 to product 2, both at 5 in stock. As written, stock stays 5 and 5; the corrected save gives 8 and 2. |
| Stock.UpdateProductQuantities | store/models.py:367-378 | Each product moves by the total quantity of its lines: up for a return, down for a cash or cashless sale. The set of products is unchanged. |
| Stock.UntouchedProductsUnchanged | store/models.py:367-378 | A product on no line of the document keeps its stock record. |
| Stock.ReturnUndoesSale | store/models.py:367-378 | A return of exactly a sale's lines restores the stock as it was before the sale. |
| Stock.SaleKeepsStockNonNegative | store/models.py:330-378 | A sale whose every line is within stock, with one line per product, leaves no product below zero. |
| Validation.CheckStock | store/models.py:330-337 | The stock loop of `clean` succeeds exactly when every line is within its product's stock, and otherwise fails with insufficient stock. |
| Validation.CleanSaleDocument | store/models.py:312-337 | `SaleDocument.clean` accepts exactly when four conditions hold: a cashless sale has a paid invoice; a return has an original that is not a return; a cash sale has a register; a sale is within stock. Each violated rule yields its own error, in the source's order. |
| Validation.CanCreateReturn | store/models.py:302-304 | A return can be created exactly for a cash or cashless sale that no stored document names as its original sale. |
| Validation.CleanAllowsSecondReturn | store/models.py:302-337 | A return against a sale that already has a return passes `clean`, although `can_create_return` is false for that sale. |
| Validation.CleanDocumentItem | store/models.py:469-483 | A line of a return with an original sale is refused as "not in original" exactly when the original has no line for the product. It is refused as "exceeds" exactly when it asks for more than that line. Otherwise it is accepted, and it is always accepted on other documents. |
| Validation.ReturnLineWithinOriginal | store/models.py:456-483 | Under the unique (document, product) constraint, a return line is accepted exactly when the original has a line for the same product with at least as many units. |
| Validation.CleanDocumentKeepsStock | store/models.py:312-378 | A document that passes `clean`, with one line per product and no negative quantity, leaves every product's stock non-negative once its stock moves are applied. |
| Forms.CleanReportForm | store/forms.py:221-229 | The report form is refused exactly when both bounds are given and the start is after the end. |
| Forms.CleanQuantity | store/forms.py:165-191 | The quantity is returned unchanged when accepted. There is no check without a product or a document. On a sale it is accepted exactly when within stock. On a return with an original it is refused as "not in original" exactly when the original has no line for the product, and accepted exactly when within that line's quantity. |
| Forms.QuantityCheckMatchesLineClean | store/forms.py:180-191 | On a return, the form's quantity check and the line's model `clean` accept the same lines. |
| Forms.QuantityCheckMatchesStockCheck | store/forms.py:173-178 | On a sale, the form's quantity check agrees with the stock loop of `SaleDocument.clean` on that line. |
| Forms.CleanSaleDocumentForm | store/forms.py:116-132 | The form is accepted exactly when a given invoice of a cashless form is paid and a given original sale of a return form has the form's customer. The error names the failing rule, and cash forms or forms without a type pass. |
| Forms.PaidInvoices | store/forms.py:92-97 | The cashless form offers exactly the paid invoices. |
| Forms.OriginalSaleChoices | store/forms.py:104-109 | The return form offers exactly the cash and cashless sales. |
| Forms.CompanyCustomers | store/forms.py:45-48 | The invoice form offers exactly the companies. |
| Forms.ChosenInvoicePassesChecks | store/forms.py:92-97 | An invoice chosen from the cashless form's list passes the form check and the invoice checks of `SaleDocument.clean`. |
| Forms.ChosenOriginalPassesChecks | store/forms.py:104-109 | A sale chosen from the return form's list passes the original-sale checks of `SaleDocument.clean`. |
| Numbering.TrailingNumberOfFormat | store/models.py:345-357 | The integer after the last dash of `<prefix>-<n>` reads back as n, whatever the prefix. |
| Numbering.NextSaleNumber | store/models.py:345-357 | A new document is numbered in its own series. An empty series gives `<prefix>-1`. Otherwise the number is one past the trailing integer of the series' last number by id. An unreadable last number fails the save. |
| Numbering.NextInvoiceNumber | store/models.py:90-93 | A new invoice is numbered `СЧ-1` when there are no invoices, and otherwise one past the trailing integer of the last invoice's number. An unreadable last number fails the save. |
| Numbering.CreateDocument | store/models.py:339-359 | A new document is appended under the next id and nothing stored changes. A document without a number takes the next number of its series. The save fails exactly when that number is unreadable (MalformedNumber) or the chosen number is already held by a stored document (DuplicateNumber, the unique constraint of store/models.py:224). Ids stay increasing. |
| Numbering.CreateKeepsNumbersDistinct | store/models.py:339-359 | A successful create keeps every stored number distinct, as `unique=True` (store/models.py:224) demands, for an explicit number as well as a generated one. |
| Numbering.AutoNumberCollides | store/models.py:351-359 | Numbering follows the last document by id, not the largest number. After ТЧ-2 (id 1) and ТЧ-1 (id 2) the next cash sale is numbered ТЧ-2 again, and the create is refused with DuplicateNumber. |
| Numbering.CreateExtendsSeries | store/models.py:345-359 | Creating a document in a series numbered 1..n, when no stored document of any type holds `<prefix>-<n+1>`, succeeds and gives a series numbered 1..n+1, and the other series are unchanged. |
| Numbering.CascadeFrom | store/models.py:261-268 | The rows `on_delete=CASCADE` on `original_sale` removes together with a set of rows: the set itself, every stored document whose original sale is removed, and nothing beyond the least set closed under that rule. |
| Numbering.Cascade | store/models.py:261-268 | Deleting one document removes it and, transitively, every return of a removed document; the set is the least one with that closure. |
| Numbering.CascadeAlone | store/models.py:261-268 | A document that no stored document names as its original sale is removed alone. |
| Numbering.CascadeStored | store/models.py:261-268 | The cascade reaches only the deleted id and stored documents. |
| Numbering.DeleteKeepsOriginalsStored | store/models.py:381-386 | When every original sale a stored document names is stored, a successful delete keeps it so: no remaining return names a removed sale. |
| Numbering.DeleteEverything | store/models.py:381-420 | A delete whose cascade takes every stored document leaves none. |
| Numbering.DeleteWholeChain | store/models.py:261-268 | For any sale, a return of it and a return of that return, deleting the sale removes all three and leaves nothing. |
| Numbering.ChainedReturnsCascade | store/models.py:261-268 | Example: cash sale ТЧ-1 (id 1), return 2 of it and return 3 of return 2; deleting id 1 removes ids 1, 2 and 3. |
| Numbering.DeleteDocument | store/models.py:381-420 | The intended delete, with every later number shifted at once. It removes exactly the stored rows outside `Cascade`: the document, its returns, their returns, and so on. It fails as not found exactly for an unknown id. With an unreadable deleted number, nothing is renumbered. An unreadable series number fails the whole delete. Otherwise each later `<prefix>-<m>` of the series becomes `<prefix>-<m-1>`, and no other document or field changes. |
| Numbering.RenumberClosesGap | store/models.py:411-420 | Renumbering a series 1..n without its k-th document gives 1..n-1. |
| Numbering.RenumberFormatted | store/models.py:399-420 | On a formatted series number `<prefix>-<m>`, the delete gives `<prefix>-<m-1>` when m is above the deleted number and leaves it otherwise. |
| Numbering.DeleteShrinksSeries | store/models.py:381-420 | The intended delete of any document of a series numbered 1..n succeeds and leaves the series numbered 1..n-1, when no other document of the series cascades away with it. |
| Numbering.RenameWalk | store/models.py:411-418 | The rename loop changes numbers only, and its only failure is a duplicate number. A walk that visits nothing to renumber leaves the rows as they were. |
| Numbering.DeleteDocumentWalk | store/models.py:381-420 | The delete as the code performs it. It fails as not found exactly for an unknown id. Every failure of the intended delete is its failure too, and its only further failure is a duplicate number. On success its rows are the intended delete's rows, with the same transitive cascade removed, up to numbers. |
| Numbering.DeleteWalkAgrees | store/models.py:411-418 | With increasing ids, whenever the code's delete succeeds it leaves exactly the rows the intended delete leaves. |
| Numbering.WalkRenumbersAll | store/models.py:411-418 | A walk that visits every row and succeeds renames each row as the simultaneous renumbering does, in any visiting order. |
| Numbering.DeleteWalkFailsFirst | store/models.py:411-418 | A delete fails when the first document its walk visits cannot take its new number. |
| Numbering.DeleteWalkLone | store/models.py:411-418 | A delete that leaves a single renumbered document succeeds and renames it. |
| Numbering.SameDayDeleteCollides | store/models.py:399-418 | Counterexample: on three same-day cash sales ТЧ-1..ТЧ-3, the code's delete of ТЧ-1 renames ТЧ-3 first, finds ТЧ-2 still held, and fails. The intended delete succeeds and leaves ТЧ-1 and ТЧ-2. |
| Numbering.DeleteWalkShrinksSeries | store/models.py:381-420 | Whenever the code's delete goes through on a series numbered 1..n, the series is left numbered 1..n-1. |
| Numbering.FormattedIsReadable | store/models.py:405 | A formatted series number never makes the delete's filter raise. |
| Deletion.DeleteDocumentAsWritten | store/models.py:339-420 | The delete as the code behaves: the documents as the one-at-a-time walk leaves them, with the same success and error. |
| Deletion.AsWrittenLoneSurvivor | store/models.py:339-418 | When one renumbered document survives the delete, the code's delete succeeds and moves that document's stock once more. |
| Deletion.DeleteFromStore | store/models.py:381-420 | The corrected delete: documents as `DeleteDocument` leaves them, the whole cascade of returns removed; products, invoices and customers unchanged. |
| Deletion.SampleDeleteRenumbers | store/models.py:411-420 | Deleting ТЧ-1 of two cash sales renumbers ТЧ-2 to ТЧ-1. |
| Deletion.DeleteDebitsRenumberedSales | store/models.py:361-418 | Counterexample: in that sample the as-written delete re-debits the renumbered sale's 3 units, so stock falls from 10 to 7. |
| Deletion.DeleteKeepsSampleStock | store/models.py:381-420 | The corrected delete leaves the sample's 10 units in stock. |
| Invoices.SaveInvoice | store/models.py:89-104 | A new invoice takes the next invoice number. A paid invoice without a linked sale gets one new cashless sale for its customer and total, appended under the next id. The sale is created before the invoice row is written, so an unreadable or held sale number stops the save first. The invoice is then refused exactly when another invoice holds its number (DuplicateNumber, the unique constraint), and otherwise written in place. Other invoices are unchanged, and products and customers are untouched. The only failures are an unreadable number and a held number. |
| Invoices.SaveKeepsNumbersDistinct | store/models.py:95-104 | Saving an invoice keeps sale document numbers distinct, including the sale a paid invoice gets. |
| Invoices.SavedInvoiceNumberUnique | store/models.py:57-104 | After a successful save no other invoice holds the saved invoice's number, as `unique=True` on `Invoice.number` demands. |
| Invoices.MarkInvoicePaid | store/views.py:114-120 | An unknown id is not found, exactly. An already paid invoice leaves the store as it was. Otherwise the invoice is stored as paid with a linked sale, and products are untouched. |
| Invoices.MarkPaidIdempotent | store/views.py:114-120 | Marking an invoice paid a second time, on any day, changes nothing. |
| Invoices.SavePaidLinksOneSale | store/models.py:96-102 | Saving a paid invoice with no linked sale links exactly one sale to it, appended to the cashless series. |
| Invoices.MarkPaidLinksOneSale | store/views.py:114-120 | Marking a stored unpaid invoice paid links exactly one cashless sale to it. |
| Sorting.Sort | store/views.py:167 | The documents in the query's order: the result is sorted and is a permutation of the input. |
| Buckets.BucketsOfSpec | store/views.py:169-182 | Each per-date entry holds exactly its date's documents in processing order, with their total. Dates are distinct, every document is filed, and the entries add up to the whole. |
| Buckets.BucketPresentIffDated | store/views.py:174 | A date has an entry exactly when some processed document carries it. |
| Buckets.BucketsAscend | store/models.py:569-605 | Documents processed in date order give entries in strictly ascending date order. |
| SalesView.ReportDocs | store/views.py:158-167 | The page walks exactly the stored documents that match the type and bounds, each as often as stored, ordered by type then date. |
| SalesView.SalesReportView | store/views.py:144-207 | On cleaned fields: an inverted date range gives an empty report with total 0. Otherwise the overall total is the sum over the matching documents. |
| Forms.ReportChoice | store/forms.py:198-209 | The type field accepts the empty choice (every type) and exactly the three type keys, each naming its type; any other text is refused. |
| SalesView.ReportFields | store/forms.py:197-219 | An unbound form, a type outside the choices or a date that does not parse cleans to nothing. Otherwise the fields clean to the chosen type and the given dates, with an empty field as no filter. |
| SalesView.SalesReportPage | store/views.py:144-153 | A request without a query string, or one whose fields do not clean, shows an empty report with total 0. Otherwise the page is the report of the cleaned fields. |
| SalesView.BlankFormShowsAll | store/views.py:144-153 | The first visit shows nothing, while the same form submitted with every field empty totals every stored document. |
| SalesView.ReportTotalsAddUp | store/views.py:169-182 | The overall total is the sum of the type totals, each type total is the sum of its date totals, and each date total is the sum of its documents. |
| SalesView.EntryHoldsItsDocuments | store/views.py:169-182 | The entry for a type and date holds, in walk order, exactly the matching stored documents of that type and date. |
| SalesView.IncludedDocumentIsFiled | store/views.py:169-182 | Every matching document is filed under its type and its date. |
| SalesView.GroupPresentIffMatching | store/views.py:185-199 | A type has a group exactly when some stored document of that type matches the filters. |
| SalesView.ReportOrdered | store/views.py:167-199 | Groups appear in ascending type order, and within a group dates ascend. |
| FormattedReport.Accumulate | store/models.py:569-605 | The loop's three sections, per-date totals and grand total equal those determined by each type's documents alone. |
| FormattedReport.GenerateReportData | store/models.py:536-718 | The rows are the layout of the range's documents, optionally of one type, in date and id order. |
| FormattedReport.TotalsAgree | store/models.py:600-605 | The grand total equals the sum of the section totals and the sum of the per-date totals, and every date entry's total is the sum of its documents. |
| FormattedReport.AssembleFrame | store/models.py:611-716 | Any report starts with the header, then only section rows, then the grand total, then one row per date entry. |
| FormattedReport.LayoutFrame | store/models.py:704-716 | The grand-total row carries the sum of all documents, and each following row is one date's total, in entry order. |
| FormattedReport.SectionsInFixedOrder | store/models.py:617-701 | Exactly the sections with a positive total appear, always in the order cashless, cash, return. |
| FormattedReport.DatesAscend | store/models.py:569-716 | In the report's order, the dates within each section and within the per-date totals ascend. |
| Journal.DocumentList | store/views.py:229-271 | The list holds each stored document as often as stored when it passes every given filter, and never otherwise. It is in journal order, with one row per listed document carrying its customer's name when the customer exists. |
| Journal.SelectionListed | store/views.py:249-265 | The four chained filters select exactly the documents the filter-by-filter definition lists; absent filters and malformed dates do not narrow. |
| Journal.NumericKeyOfFormat | store/views.py:240 | `number_numeric` reads a series number `<prefix>-<n>` back as n. |
| Journal.JournalOrder | store/views.py:241 | In the list, dates descend; within a day, types go cash, cashless, return; within a day and type, well-formed numbers ascend numerically. |
| Text.SqlIntegerAgreesWithParseInt | store/views.py:240 | Wherever the modelled `int()` (an optional ASCII sign and ASCII digits) reads a text, SQLite's integer cast reads the same value. |
| Text.IContainsIgnoresCase | store/views.py:264-265 | The customer filter is blind to ASCII case in both the name and the searched text. |
| Text.ContainsIsIContains | store/views.py:264-265 | A name that contains the searched text exactly passes the case-blind filter. |
| Dashboard.Home | store/views.py:27-53 | The all-time sales figure and the all-time returns figure together make up the total of all documents. |
| Dashboard.SumOfSelection | store/views.py:33-40 | Each figure, accumulated one document at a time, equals the total of exactly the documents its filter keeps: `filter(...).aggregate(Sum('total'))` with an empty sum read as 0. |
| Dashboard.SplitByKind | store/views.py:33-42 | Summing the documents of a kind and the documents not of that kind gives the sum of all documents. |
| Dashboard.WindowsNested | store/views.py:27-42 | With no negative sale totals: today's figure ≤ the week's ≤ the month's ≤ all time. |
| Dashboard.HomeStep | store/views.py:33-42 | One more document grows exactly the figures it belongs to by its total. A return grows only the returns figure. A sale grows the all-time figure and each window that holds its date. |
| Pricing.PriceLine | store/views.py:321-322 | A line keeps its product and quantity. It carries the product's current price exactly when its price was unset, 0, or already equal to that price. An explicit non-zero price is kept. |
| Pricing.PriceLineIdempotent | store/views.py:321-322 | Pricing an already priced line changes nothing. |
| Pricing.PriceLines | store/views.py:318-323 | Every line of the formset is priced this way, in order. |
| Pricing.PricedTotal | store/views.py:318-325 | Lines with explicit non-zero prices total exactly those prices times quantities. |

## Left out

- The ORM itself is not modelled: queries, `save` and `delete` chains, transactions, and the `_saving` and `_already_deleting` re-entry flags. Each operation is a pure function of the store, so atomic rollback becomes an `Err` that leaves the input unchanged. The save chains have a stock consequence the model does not compose: `SaleDocument.update_total` ends in `self.save(update_fields=['total'])` (store/models.py:300), which on a document not already saving runs the full `save` and so `update_product_quantities` (store/models.py:361-363). Every `DocumentItem.save` and `delete` (store/models.py:489-495) therefore re-applies the stock moves of all of the document's lines, and `create_sale_document` (store/views.py:314-326) debits a one-line sale three times: once from the line's save, once from `update_total`, once from the explicit `update_product_quantities`. This is traced from the code, not executed. Stock.UpdateProductQuantities is one application of those moves, not the end-to-end effect of a page.
- Numbering ignores concurrency: two requests numbering at once are not modelled.
- Decimal money: amounts are integer kopecks, and the two-place rounding and display of `Decimal` are not modelled.
- Presentation: labels, Russian messages, templates and `strftime` text are left out, and so are the debug `print` calls. Report rows carry dates as day numbers. The `%d.%m.%y` key that `generate_report_data` uses would merge two dates a century apart; that collision is not modelled.
- Request parsing: `strptime` on the journal's dates and the report form's `DateField` parsing are supplied already decided, as a date, as malformed or as absent.
- Python's `int()` is modelled without its tolerance of surrounding blanks, of `_` digit separators and of non-ASCII decimal digits (Arabic-Indic, full-width and the like). Text.ParseInt rejects all three, so where a stored number uses them Numbering.NextSaleNumber and the delete fail with MalformedNumber while the source reads the number and goes on.
- SQLite's integer cast is modelled without its skipping of leading blanks and without its 64-bit limit. Journal.NumericKeyOfFormat therefore holds for every n, where SQLite would saturate past 2^63 − 1.
- Text.IContainsIgnoresCase: case folding is ASCII-only, as SQLite's `LIKE` does it. Other databases, which also fold Cyrillic, are not modelled.
- Sorting.Sort: documents with equal keys keep their stored (id) order. The database leaves that tie order unspecified.
- The dead module-level `save` at store/models.py:112-131 is not modelled. It is not attached to any class; the line save it seems meant to be is modelled from `InvoiceItem.save`.
- `SaleDocument` declares `invoice` twice. The later one-to-one field (store/models.py:422-428) replaces the first, and the model follows it: one invoice, at most one sale.
- `Invoice.save` creates the paid invoice's sale before the invoice itself is saved. For a new invoice the database would reject the link. The model takes the invoice as already stored. When the invoice row is then refused for a held number, the sale already created would stay unless the request runs in a transaction (the settings are not part of this model); Invoices.SaveInvoice refuses the whole save and leaves the store unchanged.
- `create_sale_document` builds its `SaleDocumentForm` without `doc_type`. The form's choice restrictions and its cross-field `clean` are therefore inactive on that page. They are modelled as the form defines them, with the type given (Forms.CleanSaleDocumentForm takes None for "no type"). On that page the item forms get no `document` (store/views.py:303-310, store/forms.py:144), so Forms.CleanQuantity checks nothing there, and `document.type` is set only after `form.is_valid()` (store/views.py:312-314), so `SaleDocument.clean` runs with an empty type and none of the Validation.CleanSaleDocument rules fire.
- The item form's disabled price field (store/forms.py:151-160) never reaches the saved line. Lines reach Pricing.PriceLine with their price possibly unset.
- `available_quantity`, the admin, URL routing, the JSON helper views (`get_product_price`, `get_customer_invoices`), and the list, detail, create and update views that only render are left out.
- `timezone.now()` is the `today` parameter of Dashboard.Home and Invoices.SaveInvoice.
- Dashboard.WindowsNested requires every non-return total to be non-negative. The source does not forbid negative totals, and with one the windows need not nest.
- Numbering.DeleteShrinksSeries requires that no other document of the series cascades away with the deleted one, directly or through a chain of returns. Such documents would go too and the series would shrink by more than one. It states the intended delete; the code's delete can fail on such a series (Numbering.SameDayDeleteCollides), and Numbering.DeleteWalkShrinksSeries states the shrink only for the runs that succeed.
- Stock.SaleKeepsStockNonNegative and Validation.CleanDocumentKeepsStock require one line per product, as the database's unique constraint ensures. Without it, two lines could each fit the stock while together exceeding it.
- Behaviours of the code a reader should know, each read off the lines cited:
  - An unreadable last number makes numbering fail rather than restart: `int(last_doc.number.split('-')[-1])` (store/models.py:356, and store/models.py:92 for invoices) raises `ValueError`, and nothing catches it.
  - An unreadable series number makes a delete fail and roll back: the filter at store/models.py:405 calls `int()` outside the `try` of store/models.py:411-419, inside `transaction.atomic()` (store/models.py:385).
  - Deleting a sale also deletes its returns, their returns, and so on: `original_sale` is `on_delete=models.CASCADE` (store/models.py:261-268), and each deleted row cascades in turn. The delete view (store/views.py:295-297) catches `ProtectedError` and reports that a sale with a return cannot be deleted, but a cascade never raises it.
  - Deleting a document does not give its goods back to stock: `SaleDocument.delete` (store/models.py:381-419) only renumbers, and its lines cascade away (store/models.py:431-434).
  - The sales report page builds its groups in `order_by('type', 'date')` order (store/views.py:167), so by type key, while `generate_report_data` sets up the fixed order cashless, cash, return (store/models.py:548-564).
  - An explicit price of 0 on a line is replaced by the product's price: `if not instance.price` (store/views.py:321) treats 0 as unset.
  - `can_create_return` (store/models.py:302-304) has no caller, so a second return against the same sale is accepted (Validation.CleanAllowsSecondReturn).
  - A delete renames the later documents one at a time, newest first, under the unique number (store/models.py:224, 283, 411-419). With two or more later documents it can refuse itself and roll back (Numbering.SameDayDeleteCollides); see Findings.
  - A new number is one more than the last document's by id (store/models.py:353-357), and the unique constraint refuses it when it is already held (Numbering.AutoNumberCollides).

## Findings

| source | as written | input that shows it | evidently intended | confidence | as-written member | corrected member |
|---|---|---|---|---|---|---|
| store/models.py:399-418 with 283 | The later documents are renamed one at a time in the default ordering, newest first (`-date`, `-id`), each with its own `save`, while `number` is unique. Renaming `<p>-<m>` to `<p>-<m-1>` while `<p>-<m-1>` is still held raises `IntegrityError`; nothing catches it, and the atomic block rolls the delete back. | Cash sales ТЧ-1, ТЧ-2 and ТЧ-3 of one day, ids 1 to 3. Deleting ТЧ-1 visits ТЧ-3 first and tries to rename it ТЧ-2 while ТЧ-2 still holds that number: the delete fails. | Every later number shifts down by one at once: ТЧ-1 and ТЧ-2 remain. | not executed | Numbering.SameDayDeleteCollides | Numbering.DeleteDocument |
| store/models.py:411-420 with 361-363 | Renumbering after a delete writes each later document back with `save(update_fields=['number'])`. `SaleDocument.save` always ends with `update_product_quantities`, so each renumbered sale debits its lines again (a renumbered return credits them again). | Product 1 holds 10 units; cash sales ТЧ-1 (2 units) and ТЧ-2 (3 units). Deleting ТЧ-1 leaves stock at 7. | Renumbering changes numbers only: stock stays 10. | not executed | Deletion.DeleteDebitsRenumberedSales | Deletion.DeleteFromStore |
| store/models.py:177-191 | Editing an invoice line first runs `clean`, which compares the new quantity with the bare stock, before the stored quantity is given back. | A stored 5-unit line of product 1 with stock now 0; editing it to 3 units is refused. | The 5 units go back first: the edit fits, and 2 remain. | not executed | Stock.EditBelowStoredQuantityRejected | Stock.SaveInvoiceItem |
| store/models.py:183-192 | On an edit, the stored quantity is added to the line's new product, not to the product the stored line held. | A 3-unit line of product 1 is changed to 3 units of product 2, both at 5: stock stays 5 and 5. | Product 1 gets its 3 units back and product 2 gives 3: 8 and 2. | not executed | Stock.EditChangingProductMisplacesStock | Stock.SaveInvoiceItem |
