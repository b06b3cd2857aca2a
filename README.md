# CompaRar catalogue core in Dafny

CompaRar is a price-comparison web application. It shows products, the
establishments that sell them (supermarkets and wholesalers), the price each
establishment asks, and the offers they publish. This project models the
application's core:

- **The catalogue store** (`AppContext.jsx`).
  - It holds one state record, updated by a reducer.
  - It loads the four tables from the hosted backend.
  - It answers a product search: match the query, attach prices, filter, then sort.
  - It performs the admin's create, update and delete operations. Each one is a
    short fixed sequence of backend requests: image upload, row writes and
    cascading deletes.
- **The pages that compute over that state.**
  - The home page, the search results, the product page, the establishment page
    and the offers page.
  - The admin panel's per-tab search, deletion and edit flow.
  - The product form (`AddProductModal.jsx`).

## Modules

- **`Backend`** models the hosted backend as a value `Db`: four tables, an image
  store, and the next row id.
  - A `Request` is one call the store makes; `Apply` is its effect when it succeeds.
  - `Cascade` runs a fixed list of requests in order. It stops at the first
    rejected request and undoes nothing.
  - Which requests are rejected, and with which message, is decided by an oracle
    `fault` supplied from outside.
- **`CatalogStore`** models the store as a class.
  - Its fields are `db`, `state` and the oracle `fault`, plus the constant `user`.
  - The environment may replace `fault` between two operations (`SetFault`), so
    a failure can appear or clear from one operation to the next. Each
    operation sees the oracle in force while it runs.
  - Each operation is a method that sends its requests one at a time, exactly as
    the source awaits them.
  - Each such method is proved to end in the state `Cascade` predicts for the
    operation's plan. The lemmas of `Backend` then state what each plan does on
    success and on each possible failure.
- **`Entities`** holds the four tables' rows. A text column the database may
  leave NULL (a product's description, category, image and barcode; an
  establishment's address, phone, hours and logo) is an `Option<string>`, with
  `None` for NULL. Rows the store writes always hold text there.
- **`AppReducer`** holds the state record and the reducer.
- **`Search`** models `searchProducts`.
- **`Seqs`** and **`Text`** model the array and string primitives the source
  relies on: `filter`, `find`, `slice`, the stable `sort`, `toLowerCase`,
  `includes` and `trim`.
- The results page's own establishment lookup (`SearchResults.jsx:38-41`) is the
  same function as `getEstablishmentName` in `adminUtils.js`, so the model uses
  `AdminUtils.GetEstablishmentName` for both.
- **The page modules** are mostly pure functions of the store's state. Where a
  page changes state (the panel, the home page's search box, the results page's
  filters, the product form), it is a class with those fields.

## Model

| member | source | states |
|---|---|---|
| AppReducer.Merge | CompaRar/src/context/AppContext.jsx:47-48 | each filter key takes the patch's value when the patch carries it, and keeps the old value otherwise |
| AppReducer.Reduce | CompaRar/src/context/AppContext.jsx:23-53 | every action changes only its own fixed set of state fields |
| AppReducer.UnrecognisedIsIdentity | CompaRar/src/context/AppContext.jsx:50-51 | an action type the reducer does not know leaves the state unchanged |
| AppReducer.SetFiltersMergesOnlySuppliedKeys | CompaRar/src/context/AppContext.jsx:47-48 | SET_FILTERS writes exactly the supplied keys; the other filter keys and every other field keep their values |
| AppReducer.LoadDataKeepsError | CompaRar/src/context/AppContext.jsx:31-39 | LOAD_DATA installs the four tables and ends loading, but does not clear a recorded error |
| AppReducer.SetErrorKeepsSnapshot | CompaRar/src/context/AppContext.jsx:28-29 | SET_ERROR records the message and ends loading, and the loaded tables stay as they were |
| AppReducer.ErrorIsSticky | CompaRar/src/context/AppContext.jsx:28-39 | once an error is recorded, a later loading flag and a later successful load do not remove it |
| CatalogStore.LoadMessage | CompaRar/src/context/AppContext.jsx:79 | the recorded message is the error's own when it is non-empty and the default text otherwise; it is never empty |
| CatalogStore.Loaded | CompaRar/src/context/AppContext.jsx:58-81 | a load always ends with loading off, and it writes no field but the four tables, the loading flag and the error |
| CatalogStore.LoadedOutcome | CompaRar/src/context/AppContext.jsx:58-81 | the outcome of the load transition `Loaded`: loading ends off. When all four reads succeed, the tables are installed and the previous error is kept. Otherwise the error is the first failing read's message (or the default) and the old tables stay. The query, results and filters are untouched |
| CatalogStore.LoadFails | CompaRar/src/context/AppContext.jsx:60-80 | when some read is rejected, the old tables stay and the recorded error is the non-empty message of the first rejected read, every read before it having succeeded |
| CatalogStore.Store.constructor | CompaRar/src/context/AppContext.jsx:83-85 | mounting starts from the initial state and runs the first load |
| CatalogStore.Store.Dispatch | CompaRar/src/context/AppContext.jsx:56 | the state becomes the reducer's result for the action |
| CatalogStore.Store.Fetch | CompaRar/src/context/AppContext.jsx:60-73 | one read returns the oracle's answer for its table, and a read changes nothing in the backend |
| CatalogStore.Store.Send | CompaRar/src/context/AppContext.jsx:164-331 | one write returns the oracle's error, and takes effect only when it succeeds |
| CatalogStore.Store.LoadData | CompaRar/src/context/AppContext.jsx:58-81 | the state becomes the load transition of the old state over the backend's tables |
| CatalogStore.Store.SearchProducts | CompaRar/src/context/AppContext.jsx:87-140 | the state becomes the search's result (`Search.SearchProducts`) for the query over the catalogue as it was at the call |
| CatalogStore.Store.UploadImage | CompaRar/src/context/AppContext.jsx:142-162 | no file means no request, no address and no error. Otherwise one upload is sent; its error is returned, and on success the object is stored and its public address returned |
| CatalogStore.Store.AddProductAndPrice | CompaRar/src/context/AppContext.jsx:164-200 | the backend ends as the add-product plan's cascade does. An upload or product-insert failure is returned as the product error; a price-insert failure is returned as the price error, and the product row then stays. Only full success reloads the catalogue |
| CatalogStore.Store.InsertWithPrice | CompaRar/src/context/AppContext.jsx:174-199 | the two inserts after the upload: the price references the id just given to the product, and the outcome is that of the whole plan's cascade |
| CatalogStore.Store.Step | CompaRar/src/context/AppContext.jsx:306-331 | sending one step of a plan either settles the plan's outcome (on failure, with nothing changed) or extends its successful prefix by one |
| CatalogStore.Store.Finish | CompaRar/src/context/AppContext.jsx:202-331 | the last request of a plan: the backend, the error and the state end as the plan's cascade says, with a reload only on success |
| CatalogStore.Store.AddEstablishment | CompaRar/src/context/AppContext.jsx:202-218 | upload the logo (if any), insert the row, reload on success; the backend ends as the plan's cascade does |
| CatalogStore.Store.UpdateProduct | CompaRar/src/context/AppContext.jsx:220-239 | upload (if any), update the row, reload on success; the backend ends as the plan's cascade does |
| CatalogStore.Store.UpdateEstablishment | CompaRar/src/context/AppContext.jsx:286-304 | as UpdateProduct, on the establishments table and the logo bucket |
| CatalogStore.Store.UpdatePrice | CompaRar/src/context/AppContext.jsx:262-272 | one update writing the amount with the fixed date, then a reload on success |
| CatalogStore.Store.DeletePrice | CompaRar/src/context/AppContext.jsx:274-284 | one deletion, then a reload on success |
| CatalogStore.Store.DeleteProduct | CompaRar/src/context/AppContext.jsx:241-260 | the product's prices first, then the product row; the first failure stops the operation |
| CatalogStore.Store.DeleteEstablishment | CompaRar/src/context/AppContext.jsx:306-331 | prices, then offers, then the establishment row; the first failure stops the operation |
| Backend.UpdateProductRows | CompaRar/src/context/AppContext.jsx:229-232 | the table keeps its length and every row keeps its id and owner; rows with another id are untouched; the row with the id holds the sent name and, as non-NULL text, the sent description, category, image and barcode |
| Backend.UpdateProductRowsIdempotent | CompaRar/src/context/AppContext.jsx:229-232 | sending the same product update twice leaves the table as sending it once |
| Backend.UpdateEstablishmentRows | CompaRar/src/context/AppContext.jsx:295-298 | the table keeps its length and every row keeps its id and owner; rows with another id are untouched; the row with the id holds the sent name and type and, as non-NULL text, the sent address, phone, hours and logo |
| Backend.UpdateEstablishmentRowsIdempotent | CompaRar/src/context/AppContext.jsx:295-298 | sending the same establishment update twice leaves the table as sending it once |
| Backend.UpdatePriceRows | CompaRar/src/context/AppContext.jsx:263-266 | every row keeps its id, product, establishment and owner; rows with another id are untouched; the row with the id holds the new amount and date |
| Backend.UpdatePriceRowsIdempotent | CompaRar/src/context/AppContext.jsx:263-266 | sending the same price update twice leaves the table as sending it once |
| Backend.ApplyFrame | CompaRar/src/context/AppContext.jsx:142-331 | what one successful request (`Apply`) may change: a read changes nothing; only an insert draws an id, exactly the next one, and appends one row carrying it; only an upload touches the stored objects, and it only appends; only the offers delete changes the offers |
| Backend.Cascade | CompaRar/src/context/AppContext.jsx:164-331 | the requests sent are a prefix of the plan; on success the whole plan was sent, and on failure the error is that of the last request sent |
| Backend.CascadeStopsAtFirstError | CompaRar/src/context/AppContext.jsx:306-331 | when step k is the first rejected one, exactly steps 0..k are sent and step k's error is returned |
| Backend.CascadeSucceedsIffNoFaults | CompaRar/src/context/AppContext.jsx:164-331 | an operation reports success exactly when none of its requests is rejected |
| Backend.CascadeEarlierSucceeded | CompaRar/src/context/AppContext.jsx:164-331 | every request sent before the last one was accepted, and the last one too when no error is returned |
| Backend.CascadeFirstFault | CompaRar/src/context/AppContext.jsx:164-331 | when some request of a plan is rejected, the error returned is that of the first rejected request |
| Backend.CascadeNoRollback | CompaRar/src/context/AppContext.jsx:241-331 | the final contents are the combined effect of every request that succeeded; nothing is undone |
| Backend.CascadeAllSucceed | CompaRar/src/context/AppContext.jsx:164-331 | with no rejection, every step is sent and the contents are their combined effect |
| Backend.CascadeFailsAt | CompaRar/src/context/AppContext.jsx:164-331 | when step k is the first rejected one, the contents are the effect of steps 0..k-1 only |
| Backend.DeleteProductRun | CompaRar/src/context/AppContext.jsx:241-260 | the outcome of deleteProduct's plan (`DeleteProductSteps`: the product's prices, then its row) by which of its two requests fails first |
| Backend.DeleteProductOutcome | CompaRar/src/context/AppContext.jsx:241-260 | on success, no price and no product with the id remains, and the removed price rows are exactly the product's. If only the product row fails, the prices stay deleted and the products are untouched. If the first request fails, nothing changes |
| Backend.DeleteEstablishmentEffect | CompaRar/src/context/AppContext.jsx:306-331 | the three deletions together remove the establishment's prices, its offers and its row |
| Backend.DeleteEstablishmentRun | CompaRar/src/context/AppContext.jsx:306-331 | the outcome of deleteEstablishment's plan (`DeleteEstablishmentSteps`: prices, offers, then the row) by which of its three requests fails first |
| Backend.DeleteEstablishmentOutcome | CompaRar/src/context/AppContext.jsx:306-331 | the establishment row is deleted only after its prices and then its offers were deleted. On success nothing references it any more and the products are untouched |
| Backend.DeleteEstablishmentIdempotent | CompaRar/src/context/AppContext.jsx:306-331 | deleting an establishment again after a success, with nothing failing, succeeds and removes nothing more |
| Backend.AddProductEffect | CompaRar/src/context/AppContext.jsx:164-200 | the combined effect of the add-product plan (`AddProductSteps`): the image object (if any), a product row with the next id, and a price row referencing that id with the fixed date |
| Backend.AddProductSucceeds | CompaRar/src/context/AppContext.jsx:164-200 | with nothing failing, exactly one product row and one price row referencing it are appended, and the image is stored only when there was a file |
| Backend.AddProductPriceFails | CompaRar/src/context/AppContext.jsx:187-199 | if only the price insert fails, its error is returned and the new product row stays without a price |
| Backend.AddProductOutcome | CompaRar/src/context/AppContext.jsx:164-200 | an upload or product-insert failure is reported before any price insert is sent. Nothing is uploaded without a file. On success the price references the new product and carries the fixed date, and the product keeps the supplied image address unless a file was uploaded |
| Backend.UploadThenRun | CompaRar/src/context/AppContext.jsx:202-304 | how each plan made of an optional upload and one write (`UploadSteps` followed by the insert or update) ends, for every combination of failures |
| Backend.UploadEffect | CompaRar/src/context/AppContext.jsx:142-162 | an upload stores one object and changes no table |
| Backend.AddEstablishmentOutcome | CompaRar/src/context/AppContext.jsx:202-218 | a failed upload changes nothing and sends no insert, and a failed insert leaves the uploaded logo stored. On success one row is appended with the next id, the form's fields, the owner and the logo's address |
| Backend.UpdateProductOutcome | CompaRar/src/context/AppContext.jsx:220-239 | on success every row with the id takes the form's fields (and the uploaded image's address), and every other row is unchanged. On failure the products are unchanged. No other table changes either way |
| Backend.UpdateEstablishmentOutcome | CompaRar/src/context/AppContext.jsx:286-304 | as UpdateProductOutcome, on the establishments table |
| Backend.DeletePriceOutcome | CompaRar/src/context/AppContext.jsx:274-284 | on success no row with the id remains and every other row is kept; on failure nothing changes |
| Backend.UpdatePriceWritesFixedDate | CompaRar/src/context/AppContext.jsx:262-272 | a successful price update writes the fixed date, whatever date the editor supplied |
| Search.MinPrecio | CompaRar/src/context/AppContext.jsx:102 | the minimum is no larger than any amount and equals one of them |
| Search.AttachPrices | CompaRar/src/context/AppContext.jsx:100-109 | one result per matching product, in order, each carrying its own prices |
| Search.MatchingProductsExact | CompaRar/src/context/AppContext.jsx:95-98 | the matching products are an in-order subsequence of the catalogue, and a product is kept exactly when its name, or a category that is present and non-empty, contains the query ignoring case |
| Search.PricesOfExact | CompaRar/src/context/AppContext.jsx:101 | a product's prices are an in-order subsequence of the price table, and a price is kept exactly when it references that product |
| Search.BlankQueryClearsResults | CompaRar/src/context/AppContext.jsx:88-93 | a blank query is recorded and empties the results without reading the catalogue |
| Search.SearchWritesQueryAndResults | CompaRar/src/context/AppContext.jsx:87-140 | `SearchProducts` changes only the query and the results |
| Search.MinPriceIsMinimum | CompaRar/src/context/AppContext.jsx:100-109 | a result (`WithPrices`) carries exactly its product's prices; its minimum (`MinPriceOf`) is the least of them, or 0 when there are none |
| Search.FiltersSound | CompaRar/src/context/AppContext.jsx:111-125 | every result that survives the filters passes the category, establishment and price-range tests |
| Search.FiltersComplete | CompaRar/src/context/AppContext.jsx:111-125 | every result that passes all three tests survives the filters |
| Search.ApplyFiltersIsOneFilter | CompaRar/src/context/AppContext.jsx:111-125 | the three filters applied one after the other keep exactly the results that pass all three tests at once, in order |
| Search.ResultsSound | CompaRar/src/context/AppContext.jsx:95-137 | every reported product is in the catalogue, matches the query, carries its own prices and passes the filters |
| Search.ResultsComplete | CompaRar/src/context/AppContext.jsx:95-137 | every matching product that passes the filters is reported |
| Search.ResultsOrdered | CompaRar/src/context/AppContext.jsx:127-137 | the results (`SortResults` of the filtered list) are a permutation of the filtered list. They are ordered by minimum price, descending for 'price_desc' and ascending for every other key |
| Search.ResultsStable | CompaRar/src/context/AppContext.jsx:127-137 | results with equal minimum price keep the catalogue's order |
| Search.SearchIdempotent | CompaRar/src/context/AppContext.jsx:87-140 | running the same search twice gives the same state as once |
| Seqs.SortBy | CompaRar/src/context/AppContext.jsx:127-137 | the sort's result is a permutation of its input, ordered by the key |
| Seqs.SortByStable | CompaRar/src/context/AppContext.jsx:127-137 | elements with equal keys keep their relative order |
| Text.TrimEmptyIffBlank | CompaRar/src/context/AppContext.jsx:90 | a trimmed query is empty exactly when every character is white space |
| Text.Lower | CompaRar/src/context/AppContext.jsx:96-97 | the result has the input's length and no capital A-Z; every other character is kept in place, and each capital becomes the small letter at the same alphabet position |
| Text.LowerIdempotent | CompaRar/src/context/AppContext.jsx:96-97 | lower-casing a lower-cased text changes nothing |
| AdminUtils.GetEstablishmentName | CompaRar/src/utils/adminUtils.js:8-11 | the name of the first establishment with the id, or 'Desconocido' when none has it |
| AdminUtils.GetProductName | CompaRar/src/utils/adminUtils.js:13-16 | the name of the first product with the id, or 'Desconocido' when none has it |
| AdminUtils.EstablishmentUnknownIff | CompaRar/src/utils/adminUtils.js:8-11 | 'Desconocido' is returned exactly when no establishment has the id, provided none is named so |
| AdminUtils.ProductUnknownIff | CompaRar/src/utils/adminUtils.js:13-16 | 'Desconocido' is returned exactly when no product has the id, provided none is named so |
| AdminUtils.EstablishmentNameIgnoresLaterRows | CompaRar/src/utils/adminUtils.js:8-11 | rows after the first match never change the name |
| AdminUtils.ProductNameIgnoresLaterRows | CompaRar/src/utils/adminUtils.js:13-16 | rows after the first match never change the name |
| AdminPanel.EmptyTermShowsWholeTable | CompaRar/src/pages/AdminPanel.jsx:162-182 | with no search term each tab shows its whole table, and an unknown tab shows nothing |
| AdminPanel.FilteredData | CompaRar/src/pages/AdminPanel.jsx:162-205 | an unknown tab shows nothing; each known tab shows rows of its own table, never more than the table holds |
| AdminPanel.ProductsTabFilter | CompaRar/src/pages/AdminPanel.jsx:183-190 | the rows shown are an in-order subsequence of the table, and a row is shown exactly when its name or category contains the term |
| AdminPanel.EstablishmentsTabFilter | CompaRar/src/pages/AdminPanel.jsx:183-192 | a row is shown exactly when its name or address contains the term, in table order |
| AdminPanel.PricesTabFilter | CompaRar/src/pages/AdminPanel.jsx:183-196 | a price is shown exactly when its looked-up product or establishment name contains the term, in table order |
| AdminPanel.OffersTabFilter | CompaRar/src/pages/AdminPanel.jsx:183-201 | an offer is shown exactly when its description or its looked-up establishment name contains the term, in table order |
| AdminPanel.OrphanPriceMatchesFallback | CompaRar/src/pages/AdminPanel.jsx:192-196 | a price whose product and establishment are both missing is shown exactly for the terms that match 'Desconocido' |
| AdminPanel.UnknownKindDeletesNothing | CompaRar/src/pages/AdminPanel.jsx:122-159 | a kind with no branch (the offers table passes 'offer') sends no request and changes nothing, yet raises the success toast with an empty title |
| AdminPanel.DeleteSteps | CompaRar/src/pages/AdminPanel.jsx:128-140 | a kind has a deletion plan exactly when it is products, prices or establishments, and no plan has more than three requests |
| AdminPanel.DeletedTitle | CompaRar/src/pages/AdminPanel.jsx:128-140 | the success title is empty exactly for a kind without a branch |
| AdminPanel.DeleteToast | CompaRar/src/pages/AdminPanel.jsx:143-154 | the toast is destructive exactly when the deletion failed, and then carries the error title and the error's message or the default; on success it carries the kind's title; its description is never empty |
| AdminPanel.DeleteDialogDescription | CompaRar/src/pages/AdminPanel.jsx:234-246 | the description is empty exactly when no row is selected. Otherwise it names the product and its prices exactly when confirming runs the product's plan, the price exactly when it runs the price's plan, the establishment exactly when it runs the establishment's plan, and the generic question exactly when confirming sends nothing |
| AdminPanel.Panel.constructor | CompaRar/src/pages/AdminPanel.jsx:46-55 | the panel opens on the products tab with no term, no editor or dialog open, nothing selected and no toast |
| AdminPanel.Panel.HandleDelete | CompaRar/src/pages/AdminPanel.jsx:116-119 | the row is remembered and the dialog opens |
| AdminPanel.Panel.ConfirmDelete | CompaRar/src/pages/AdminPanel.jsx:122-159 | with no row selected nothing happens. Otherwise exactly the row kind's deletion runs, one toast reports its outcome, the catalogue reloads only after a deletion that succeeded, and the dialog ends closed with no row selected |
| AdminPanel.Panel.HandleEdit | CompaRar/src/pages/AdminPanel.jsx:88-113 | for the three editable tables, the row with the id is selected and its editor opens, or nothing happens when no row has it. Any other kind only raises the not-implemented toast |
| ProductDetail.WithEstablishments | CompaRar/src/pages/ProductDetail.jsx:31-36 | every kept entry is one of the prices, paired with the establishment found for it |
| ProductDetail.WithEstablishmentsComplete | CompaRar/src/pages/ProductDetail.jsx:31-36 | every price whose establishment exists is kept |
| ProductDetail.SortedPrices | CompaRar/src/pages/ProductDetail.jsx:16-37 | the list is ordered by amount and never longer than the price table |
| ProductDetail.SortedPricesSound | CompaRar/src/pages/ProductDetail.jsx:16-37 | the list is ordered by amount, and each entry is a price of the product at the establishment found for it |
| ProductDetail.SortedPricesComplete | CompaRar/src/pages/ProductDetail.jsx:16-37 | every price of the product whose establishment exists is listed |
| ProductDetail.MinShownIsLeast | CompaRar/src/pages/ProductDetail.jsx:39 | over the sorted list, the minimum is no larger than any listed amount and is one of them; it is 0 when nothing is listed |
| ProductDetail.MaxShownIsGreatest | CompaRar/src/pages/ProductDetail.jsx:40 | over the sorted list, the maximum is no smaller than any listed amount and is one of them; it is 0 when nothing is listed |
| ProductDetail.OrphanPriceOnlyInSearch | CompaRar/src/pages/ProductDetail.jsx:36 | a price at a missing establishment appears in the search result but not on the product page |
| ProductDetail.MinMaxBound | CompaRar/src/pages/ProductDetail.jsx:39-40 | over the sorted list, every amount lies between the minimum and the maximum |
| ProductDetail.Lines | CompaRar/src/pages/ProductDetail.jsx:164-176 | one line per listed price, in order; the "Mejor precio" badge is on row 0 only, and every later row shows its amount minus the minimum |
| ProductDetail.SurchargesNonNegative | CompaRar/src/pages/ProductDetail.jsx:164-176 | over the list sorted by amount, no surcharge is negative |
| ProductDetail.Savings | CompaRar/src/pages/ProductDetail.jsx:218 | the savings operands are computed exactly when the maximum is positive, as the difference over the maximum; with the minimum between 0 and the maximum the difference lies between 0 and the maximum, so the percentage lies between 0 and 100 |
| ProductDetail.ProductPageOutcome | CompaRar/src/pages/ProductDetail.jsx:15-42 | the page (`ProductPage`) is "not found" exactly when no product has the id. Otherwise the listed amounts lie between the minimum and the maximum, and the difference and every surcharge are non-negative; with no negative amount the savings percentage lies between 0 and 100. Both bounds are 0 when nothing is listed |
| ProductDetail.SavingsInRange | CompaRar/src/pages/ProductDetail.jsx:39-40 | with no negative amount, the savings operands of the page's minimum and maximum give a percentage between 0 and 100 |
| OffersPage.ActiveOffers | CompaRar/src/pages/OffersPage.jsx:14 | exactly the active offers, in order |
| OffersPage.FilteredOffers | CompaRar/src/pages/OffersPage.jsx:16-21 | every active offer for 'all'. Otherwise exactly the active offers whose establishment exists and has the selected type, in order |
| OffersPage.OfTypeIff | CompaRar/src/pages/OffersPage.jsx:18-21 | an offer is of a type exactly when the first establishment with its establishment id has that type; an offer whose establishment is missing is of no type |
| OffersPage.BadgeCounts | CompaRar/src/pages/OffersPage.jsx:111-127 | each type button's count equals the number of offers listed under it, and the two counts together never exceed the 'all' count |
| OffersPage.BadgeCount | CompaRar/src/pages/OffersPage.jsx:111-127 | a type button's count never exceeds the number of active offers, and equals the number of offers listed once that type is selected |
| OffersPage.CeilDiv | CompaRar/src/pages/OffersPage.jsx:38 | the rounded-up quotient is the least integer r with a <= r*b |
| OffersPage.ExpiringSoonIff | CompaRar/src/pages/OffersPage.jsx:34-40 | `IsOfferExpiringSoon` holds exactly when the end lies more than 0 and at most 3 days ahead |
| EstablishmentDetail.EstablishmentPrices | CompaRar/src/pages/EstablishmentDetail.jsx:16 | exactly the establishment's price rows, in order |
| EstablishmentDetail.EstablishmentOffers | CompaRar/src/pages/EstablishmentDetail.jsx:17 | exactly the establishment's active offers, in order |
| EstablishmentDetail.Entry | CompaRar/src/pages/EstablishmentDetail.jsx:32-39 | a price row yields an entry exactly when its product is found and has a non-zero id, and the entry carries that product, the amount and the date |
| EstablishmentDetail.ProductsWithPrices | CompaRar/src/pages/EstablishmentDetail.jsx:32-39 | never more entries than price rows, and a first row that joins a product gives the first entry |
| EstablishmentDetail.ProductsWithPricesCount | CompaRar/src/pages/EstablishmentDetail.jsx:32-39 | one entry per price row that joins a product |
| EstablishmentDetail.ProductsWithPricesSound | CompaRar/src/pages/EstablishmentDetail.jsx:32-39 | every entry comes from one of the rows |
| EstablishmentDetail.ProductsWithPricesComplete | CompaRar/src/pages/EstablishmentDetail.jsx:32-39 | every row that joins a product contributes its entry |
| EstablishmentDetail.EstablishmentPageOutcome | CompaRar/src/pages/EstablishmentDetail.jsx:15-39 | the page (`EstablishmentPage`) is "not found" exactly when no establishment has the id. Otherwise the product count is the number of the establishment's rows that join a product, and every entry comes from such a row |
| EstablishmentDetail.CountsEveryRow | CompaRar/src/pages/EstablishmentDetail.jsx:149 | two price rows for the same product count twice |
| SearchResults.Patch | CompaRar/src/pages/SearchResults.jsx:24-29 | the payload carries exactly one key, with the new value |
| SearchResults.SliderSetsRange | CompaRar/src/pages/SearchResults.jsx:116 | moving the slider to v sets the range to 0..v and keeps the other three filter keys, so the price filter then admits a result exactly when its minimum lies in 0..v |
| SearchResults.FilterChangeRewritesOneKey | CompaRar/src/pages/SearchResults.jsx:24-29 | a filter change rewrites the key it names and nothing else in the state |
| SearchResults.ShownPrices | CompaRar/src/pages/SearchResults.jsx:189 | a card lists the first three attached prices in stored order, or all of them when there are fewer |
| SearchResults.MoreCount | CompaRar/src/pages/SearchResults.jsx:220-227 | the "more prices" link shows exactly when more than three prices are attached |
| SearchResults.ShownPlusMoreIsAll | CompaRar/src/pages/SearchResults.jsx:189-227 | the listed prices and the link's count add up to all attached prices |
| SearchResults.RowsOf | CompaRar/src/pages/SearchResults.jsx:189-210 | one row per price, named by the looked-up establishment, with the badge on row 0 only |
| SearchResults.CardRowsAsWritten | CompaRar/src/pages/SearchResults.jsx:189-206 | a card shows one row per price up to three, in stored order, with the badge on row 0 only |
| SearchResults.BadgeNotOnCheapestAsWritten | CompaRar/src/pages/SearchResults.jsx:189-206 | with prices 900 then 750, the badge sits on 900 while the card's minimum is 750 |
| SearchResults.BadgeOnCheapest | CompaRar/src/pages/SearchResults.jsx:189-206 | with the prices ordered by amount, the badge row is the product's lowest price and equals its minimum |
| SearchResults.SearchOutcome | CompaRar/src/context/AppContext.jsx:87-140 | a search keeps the filters and records the query; a non-blank one lists the results under those filters |
| SearchResults.ResultsPage.constructor | CompaRar/src/pages/SearchResults.jsx:11 | the filter panel starts folded |
| SearchResults.ResultsPage.ToggleFilters | CompaRar/src/pages/SearchResults.jsx:71 | the filter panel's visibility flips |
| SearchResults.ResultsPage.HandleFilterChange | CompaRar/src/pages/SearchResults.jsx:24-29 | SET_FILTERS is dispatched with the one-key payload |
| SearchResults.ResultsPage.RerunSearch | CompaRar/src/pages/SearchResults.jsx:18-22 | the search runs again only when a query is set |
| SearchResults.ResultsPage.ChangeFilter | CompaRar/src/pages/SearchResults.jsx:18-29 | the key is rewritten, and with a non-blank query the results are the search under the new filters; a query that is set but blank once trimmed empties the results, and an unset one keeps them. The query, the tables, the loading flag and the error are kept |
| HomePage.FeaturedOffers | CompaRar/src/pages/HomePage.jsx:29 | at most three offers, all active, in order |
| HomePage.FeaturedOffersAreFirstActive | CompaRar/src/pages/HomePage.jsx:29 | an active offer preceded by fewer than three active ones is featured |
| HomePage.FeaturedEstablishments | CompaRar/src/pages/HomePage.jsx:30 | the first min(4, n) establishments |
| HomePage.PopularProducts | CompaRar/src/pages/HomePage.jsx:31 | the first min(6, n) products |
| HomePage.Home.constructor | CompaRar/src/pages/HomePage.jsx:10 | the search box starts empty and no toast is raised |
| HomePage.Home.SetSearchQuery | CompaRar/src/pages/HomePage.jsx:79-80 | the box holds the typed text |
| HomePage.Home.HandleSearch | CompaRar/src/pages/HomePage.jsx:15-27 | a query that is not blank once trimmed is searched as typed and the results page opens. A blank one raises the "empty search" toast and changes nothing else |
| HomePage.Home.Go | CompaRar/src/pages/HomePage.jsx:18-19 | the query is searched and the results page opens |
| HomePage.Home.WarnEmpty | CompaRar/src/pages/HomePage.jsx:21-25 | exactly the destructive "empty search" toast is added |
| HomePage.Home.QuickTag | CompaRar/src/pages/HomePage.jsx:100-107 | the box shows the tag, the tag is searched and the results page opens |
| AddProductModal.EditRoundTrip | CompaRar/src/components/admin/modals/AddProductModal.jsx:44-53 | opening a product and saving it untouched keeps its id, owner, name and every column that holds text, and turns each NULL column into `''`; the row comes back unchanged exactly when none of its columns is NULL |
| AddProductModal.EditForm | CompaRar/src/components/admin/modals/AddProductModal.jsx:44-53 | the edit form carries the product's name, and each optional column is non-empty exactly when it holds text; the establishment and price start empty, so the create guard would refuse it |
| AddProductModal.GuardNeedsEstablishmentAndPrice | CompaRar/src/components/admin/modals/AddProductModal.jsx:129 | the create guard (`Complete`) refuses the empty form and a form missing the establishment or the price, accepts one with both, and looks at nothing else |
| AddProductModal.DataOfIgnoresPriceFields | CompaRar/src/components/admin/modals/AddProductModal.jsx:106-112 | the product data sent (`DataOf`) does not depend on the establishment or price fields |
| AddProductModal.SavedFormReopensUnchanged | CompaRar/src/components/admin/modals/AddProductModal.jsx:44-53 | saving a form and reopening the saved product gives back the same product data |
| AddProductModal.MessageOr | CompaRar/src/components/admin/modals/AddProductModal.jsx:118 | the error's message when it is non-empty, and the fallback otherwise; with a non-empty fallback the text shown is never empty |
| AddProductModal.UpdateToast | CompaRar/src/components/admin/modals/AddProductModal.jsx:114-125 | an error toast with the message or the default exactly when the update failed, and the success toast otherwise; its title and description are never empty |
| AddProductModal.AddToast | CompaRar/src/components/admin/modals/AddProductModal.jsx:155-165 | an error toast with the message or the default exactly when the addition failed, and the success toast otherwise; its title and description are never empty |
| AddProductModal.Modal.constructor | CompaRar/src/components/admin/modals/AddProductModal.jsx:23-37 | the form starts empty, with no file, no preview, not submitting and no toast |
| AddProductModal.Modal.Init | CompaRar/src/components/admin/modals/AddProductModal.jsx:43-69 | edit mode loads the product's columns and its image as preview, a NULL one as `''`; create mode clears every field, no file is kept, and the establishment and price start empty |
| AddProductModal.Modal.HandleSelectChange | CompaRar/src/components/admin/modals/AddProductModal.jsx:89-91 | only the establishment field changes |
| AddProductModal.Modal.HandleImageChange | CompaRar/src/components/admin/modals/AddProductModal.jsx:77-87 | a chosen file is kept with its preview; no file changes nothing |
| AddProductModal.Modal.Close | CompaRar/src/components/admin/modals/AddProductModal.jsx:94-97 | the modal closes and the edited product is cleared |
| AddProductModal.Modal.HandleSubmit | CompaRar/src/components/admin/modals/AddProductModal.jsx:100-169 | edit mode updates the product whatever the establishment and price hold. Create mode with either one empty raises the "required fields" toast and sends nothing, and otherwise adds the product with its price. The modal closes only on success, and the form never stays submitting |
| AddProductModal.Modal.SubmitEdit | CompaRar/src/components/admin/modals/AddProductModal.jsx:104-126 | the update runs as its cascade says, one toast reports it, and the modal closes only on success |
| AddProductModal.Modal.SubmitCreate | CompaRar/src/components/admin/modals/AddProductModal.jsx:127-166 | the guard sends nothing and raises the toast. Otherwise the addition runs as its cascade says, one toast reports it, and the modal closes only on success |

## Behaviour of the code worth noting

- A successful load does not clear a previously recorded error. LOAD_DATA
  leaves `error` as it was (`AppReducer.LoadDataKeepsError`,
  `AppReducer.ErrorIsSticky`).
- The product form's create-mode guard requires the establishment and the
  price. It does not check the name or the category
  (`AddProductModal.Modal.SubmitCreate`).
- The date written by a price update is always the fixed date, whatever the
  editor supplied (`Backend.UpdatePriceWritesFixedDate`).
- Saving a product from the edit form without touching it still rewrites the
  row. Each NULL column comes back as `''`, because the form reads a NULL
  column as `''` (`AddProductModal.EditRoundTrip`).
- The admin offers table asks for the kind 'offer'. The delete handler has no
  branch for that kind, so it deletes nothing and still reports success
  (`AdminPanel.UnknownKindDeletesNothing`).

## Left out

- Network and storage I/O.
  - The backend client is replaced by the value `Db` and the request oracle
    `fault`.
  - The row order the reads request (`order('nombre')`) is not modelled: the
    tables are kept in stored order.
  - The database assigns ids from a counter, `nextId`.
  - The upload's object path, which the source draws from `Math.random`, is an
    input.
- Asynchrony and React's scheduling are not modelled.
  - Each operation runs to completion before the next one starts, so two
    operations in flight at once are not modelled.
  - A hook's stale closure is not modelled.
  - The search effect on the results page is run right after the filter change
    it reacts to.
- Floating point is not modelled. The amounts are integers, so the average
  price, the savings percentage (`toFixed`) and `parseFloat` are outside the
  model. `ProductDetail.Savings` gives the operands of the percentage, not the
  percentage.
- Dates and clocks.
  - `Date`, `toLocaleDateString` and `Intl.NumberFormat` are left out.
  - The offer's time to expiry, in milliseconds, is an input.
- A NULL product or establishment name, establishment type or offer
  description is not modelled: those columns are plain strings. In the source,
  the catalogue search (`AppContext.jsx:96`) and the admin panel's search
  (`AdminPanel.jsx:186-199`) call `toLowerCase` on them, which throws on NULL.
  The model has no such failure.
- `Text.Lower` folds only the ASCII letters. Full Unicode `toLowerCase` is not
  modelled.
- `Text.IsSpace` covers the ASCII and Latin-1 white space that `trim` removes,
  not every Unicode space.
- A route parameter that does not parse as a number (`parseInt` giving NaN) is
  not modelled: page ids are integers.
- A price text that does not parse is not modelled either: the form's price is
  an amount or empty.
- The product form's per-field text editing (`handleChange`) is left out; the
  form record is an input.
- The image preview's data URL, which a `FileReader` produces, is an input.
- Presentational components, animation and styling are left out.
- Left out as outside this model:
  - sign-in, sign-up and sign-out;
  - the establishment and price editors (`AddEstablishmentModal.jsx`,
    `EditPriceModal.jsx`);
  - the toasts of buttons that are not implemented (offer, feature, contact and
    directions clicks).
- The signed-in user's id is a constant of the store (`user`), not a call to
  the auth client.

## Findings

| source | as written | input that shows it | evidently intended | confidence | as-written member | corrected member |
|---|---|---|---|---|---|---|
| CompaRar/src/pages/SearchResults.jsx:189-206 | each result card lists the attached prices in stored order and puts the "Mejor precio" badge on the first of them | a product with a 900 price stored before a 750 price: the badge is on 900 while the card's minimum is 750 | the badge marks the cheapest price, so the card lists the prices by ascending amount | not executed | SearchResults.BadgeNotOnCheapestAsWritten | SearchResults.BadgeOnCheapest |
