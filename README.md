# Invoice ledger and its totals

This project models the core of an invoice-creation front end. A user adds line items (name, quantity, rate) to a product ledger, previews the invoice with 18% GST, and exports it. The model covers:

- the ledger reducers (`addProduct`, `removeProduct`, `clearProducts`), as a class `ProductSlice.ProductStore` whose `products` field the methods reassign;
- the line-item arithmetic frozen at insertion (`total = qty * rate`, `gst = total * 0.18`), over exact `real`s;
- the `reduce` folds behind the subtotal, GST total and grand total on the preview page, and behind the footer of the item-entry page;
- the export handler's outcome rules: clear the ledger only on success, and keep it and show a message on failure;
- the item-entry submit guard, the form reset and the "next" guard;
- the registration form's ordered checks, including an exact model of the regular expression `/^[^\s@]+@[^\s@]+\.[^\s@]+$/`.

Modules:

- `Outcomes` (outcomes.dfy): the shapes of a caught failure and the message fallback shared by the pages.
- `Folds` (folds.dfy): `Sum`, a left fold from 0 matching `Array.prototype.reduce`, with lemmas for append, permutation, pointwise addition, scaling and non-negativity.
- `ProductSlice` (product_slice.dfy): `Product`, `NewProduct`, `Without` (the filter), `CountId` and the store class.
- `GeneratePdfPage` (generate_pdf_page.dfy): the totals, the button's `disabled` rule and the `Preview` class.
- `AddProductPage` (add_product_page.dfy): the guard, the footer grand total and the `Form` class.
- `RegisterPage` (register_page.dfy): the email pattern and the registration `Form` class.

Abstractions:

- Ids come from `Date.now().toString()`. They are a parameter of `Add` and `Submit`, and they are not assumed unique.
- Each network call (`generateInvoice`, `register`) is an `Outcome` parameter: `Succeeded`, or `Failed` with an axios error (which may carry a response message), an `Error` instance, or any other thrown value.
- An export failure may carry a response message (`AxiosError(Some(m))`), which over-approximates the code. `generateInvoice` posts with `responseType: 'blob'` (src/services/invoiceService.ts:5-6), so an HTTP error's `err.response.data` is a Blob. Its `message` is then undefined, and in practice the preview page always shows "Failed to generate PDF" for such errors. No proof depends on this.
- The asynchronous export is split into the synchronous start (`BeginGenerate`) and the settlement (`FinishGenerate`). `HandleGeneratePdf` runs the two in sequence.

Some things about the code are worth knowing, because an invoice ledger might be expected to behave otherwise:

- The store itself validates nothing. Only the item-entry page's guard rejects bad input.
- Ids can collide, and `removeProduct` then removes every line carrying the id (`CollidingAddsRemovedTogether`).
- Removal returns nothing.
- The exporter receives the raw lines, not values rounded to two decimals.

## Model

| member | source | states |
|---|---|---|
| `ProductSlice.Product.Consistent` | src/features/productSlice.ts:26-27 | a consistent line's GST is 0.18 times quantity times rate |
| `ProductSlice.NewProduct` | src/features/productSlice.ts:25-35 | the pushed line carries the payload's name, qty and rate and the given id, and satisfies `total == qty*rate` and `gst == total*0.18` |
| `ProductSlice.Without` | src/features/productSlice.ts:39 | a line is kept iff it was in the list and its id differs; the result is never longer |
| `ProductSlice.WithoutAppend` | src/features/productSlice.ts:39 | filtering distributes over concatenation, so kept lines stay in their original relative order |
| `ProductSlice.WithoutAbsent` | src/features/productSlice.ts:39 | removing an id that no line carries leaves the list unchanged |
| `ProductSlice.WithoutIdempotent` | src/features/productSlice.ts:39 | removing the same id twice equals removing it once |
| `ProductSlice.WithoutLength` | src/features/productSlice.ts:39 | the new length is the old length minus the number of lines carrying the id |
| `ProductSlice.CountIdDistinct` | src/features/productSlice.ts:30-39 | when ids are distinct, an id is carried by exactly one line if present and by none otherwise |
| `ProductSlice.CollidingAddsRemovedTogether` | src/features/productSlice.ts:29-39 | two appended lines with the same id are both taken out by one removal |
| `ProductSlice.ProductStore.Valid` | src/features/productSlice.ts:24-43 | every stored line satisfies the frozen arithmetic, so its GST is 0.18 times quantity times rate; every reducer keeps it |
| `ProductSlice.ProductStore.constructor` | src/features/productSlice.ts:16-18 | the initial ledger is empty and valid |
| `ProductSlice.ProductStore.Add` | src/features/productSlice.ts:24-37 | the old list with exactly one `NewProduct` appended; earlier lines unchanged; consistency kept; distinct ids kept when the id is fresh |
| `ProductSlice.ProductStore.Remove` | src/features/productSlice.ts:38-40 | the new list is the filter of the old one; its length drops by the count of the id; an absent id changes nothing; with distinct ids a present id costs exactly one line; consistency kept |
| `ProductSlice.ProductStore.Clear` | src/features/productSlice.ts:41-43 | the list is empty and valid |
| `Folds.Sum` | src/pages/GeneratePDFPage.tsx:17-18 | the `reduce(…, 0)` left fold; the fold of an empty list is the initial 0 (its algebra is in `SumAppend`, `SumPermutation`, `SumPointwise`, `SumScaled`, `SumNonnegative`) |
| `Folds.SumAppend` | src/pages/GeneratePDFPage.tsx:17-18 | the reduce over a concatenation is the sum of the reduces over the parts |
| `Folds.SumPermutation` | src/pages/GeneratePDFPage.tsx:17-18 | the reduce gives the same value for any permutation of the list |
| `Folds.SumPointwise` | src/pages/AddProductPage.tsx:173 | folding `f + g` equals the fold of `f` plus the fold of `g` |
| `Folds.SumScaled` | src/features/productSlice.ts:27 | folding values that are `c` times others equals `c` times their fold |
| `Folds.SumNonnegative` | src/pages/AddProductPage.tsx:161-173 | if every folded value is non-negative, so is the sum |
| `Outcomes.Message` | src/pages/GeneratePDFPage.tsx:40-44 | the shown text is the failure's carried message when there is one, else the fallback (the same rule as src/pages/RegisterPage.tsx:31-35) |
| `GeneratePdfPage.Subtotal` | src/pages/GeneratePDFPage.tsx:17 | 0 on an empty ledger and non-negative when every line total is; also the footer subtotal at src/pages/AddProductPage.tsx:161 (split, order and GST facts in `TotalsAppend`, `TotalsPermutationInvariant`, `GstIsRateOfSubtotal`) |
| `GeneratePdfPage.GstAmount` | src/pages/GeneratePDFPage.tsx:18 | 0 on an empty ledger and non-negative when every line GST is; also the footer GST at src/pages/AddProductPage.tsx:164 |
| `GeneratePdfPage.GrandTotal` | src/pages/GeneratePDFPage.tsx:19 | 0 on an empty ledger and non-negative when every line total and GST are |
| `GeneratePdfPage.GenerateDisabled` | src/pages/GeneratePDFPage.tsx:146 | the button is disabled whenever an export is in flight or the ledger is empty, and enabled otherwise |
| `GeneratePdfPage.TotalsAppend` | src/pages/GeneratePDFPage.tsx:17-19 | each of the three totals over a concatenation is the sum of that total over the parts |
| `GeneratePdfPage.TotalsPermutationInvariant` | src/pages/GeneratePDFPage.tsx:17-19 | the three totals are unchanged by any reordering of the ledger |
| `GeneratePdfPage.GstIsRateOfSubtotal` | src/pages/GeneratePDFPage.tsx:17-19 | on consistent lines the GST total is 0.18 times the subtotal, and the grand total is 1.18 times the subtotal |
| `GeneratePdfPage.PenAndNotebookTotals` | src/pages/GeneratePDFPage.tsx:17-19 | ten pens at 2 and five notebooks at 8 total 60, with GST 10.8 and grand total 70.8 |
| `GeneratePdfPage.Preview.constructor` | src/pages/GeneratePDFPage.tsx:11-12 | the page starts with no error and not generating |
| `GeneratePdfPage.Preview.BeginGenerate` | src/pages/GeneratePDFPage.tsx:22-23 | `isGenerating` becomes true and `error` becomes empty; the ledger is outside its frame, so nothing is cleared before the call settles |
| `GeneratePdfPage.Preview.FinishGenerate` | src/pages/GeneratePDFPage.tsx:36-48 | success clears the ledger and navigates; failure keeps the ledger and sets the message or "Failed to generate PDF"; `isGenerating` is false after either |
| `GeneratePdfPage.Preview.HandleGeneratePdf` | src/pages/GeneratePDFPage.tsx:21-49 | the exporter gets the ledger as it was; success leaves an empty ledger, no error, a zero grand total and a disabled button; failure keeps the ledger, shows the message, and leaves the button disabled iff the ledger is empty |
| `AddProductPage.SubmitGuard` | src/pages/AddProductPage.tsx:19 | a payload the guard admits freezes a non-negative total and GST |
| `AddProductPage.FooterGrandTotal` | src/pages/AddProductPage.tsx:173 | the footer's sum of `total + gst` equals the preview's `subtotal + gstAmount` (src/pages/GeneratePDFPage.tsx:19) |
| `AddProductPage.CanGoNext` | src/pages/AddProductPage.tsx:27-31 | "next" navigates iff the preview's generate button is enabled with nothing generating (src/pages/GeneratePDFPage.tsx:146) |
| `AddProductPage.AcceptedLineNonnegative` | src/pages/AddProductPage.tsx:19 | a line that passed the guard and froze its fields has `total >= 0` and `gst >= 0` |
| `AddProductPage.AcceptedTotalsNonnegative` | src/pages/AddProductPage.tsx:161-173 | a ledger filled through the guard has a non-negative footer subtotal, GST total and grand total |
| `AddProductPage.Form.constructor` | src/pages/AddProductPage.tsx:10-12 | the form starts with name "", qty 1 and rate 0 |
| `AddProductPage.Form.Submit` | src/pages/AddProductPage.tsx:17-25 | an add is dispatched iff name is non-empty, qty > 0 and rate >= 0; an accepted add appends one line and resets the form to "", 1, 0; a rejected submit changes neither the ledger nor the form; guard-accepted ledgers stay guard-accepted |
| `RegisterPage.IndexOf` | src/pages/RegisterPage.tsx:22 | returns the first position of the character, or none when the character is absent |
| `RegisterPage.IndexOfFirst` | src/pages/RegisterPage.tsx:22 | an occurrence with none before it is the one found |
| `RegisterPage.IsValidEmail` | src/pages/RegisterPage.tsx:22-23 | the check accepts exactly the strings the regular expression matches, in both directions |
| `RegisterPage.SplitAcceptedMatches` | src/pages/RegisterPage.tsx:22-23 | every string the first-`@` split accepts is `L@D.T` with three non-empty parts free of whitespace and `@` |
| `RegisterPage.SplitAccepted` | src/pages/RegisterPage.tsx:22-23 | a given `L@D.T` split, at any `.` after the `@`, is accepted |
| `RegisterPage.PatternSplitAccepted` | src/pages/RegisterPage.tsx:22-23 | every string the pattern matches is accepted by the first-`@` split |
| `RegisterPage.ValidEmailShape` | src/pages/RegisterPage.tsx:22 | an accepted address has exactly one `@` and some `.` after it |
| `RegisterPage.Form.constructor` | src/pages/RegisterPage.tsx:9-13 | all fields and the error start empty |
| `RegisterPage.Form.Submit` | src/pages/RegisterPage.tsx:15-38 | mismatched passwords give "Passwords do not match" and nothing else runs; an invalid email then gives "Please enter a valid email address"; `register` runs iff both checks pass; success leaves the error empty and navigates; failure shows the message or "Registration failed" |

## Left out

- Floating-point arithmetic and `toFixed(2)` display rounding (src/pages/AddProductPage.tsx:136-142). Quantities, rates and totals are exact reals, so `NaN` and infinite inputs are not modelled.
- `Date.now()` as a clock: the id is an input.
- Network and export plumbing: the axios instance and its token interceptor (src/services/api.ts), the blob POST (src/services/invoiceService.ts) and the anchor download (src/pages/GeneratePDFPage.tsx:27-34). The model keeps only their success or failure.
- The interleaving of the async handlers. The export is a start step and a settlement step, and the registration call is one atomic step.
- RegisterPage.Form.Submit: the reset of `error` to "" at the start is in the body, but the contract shows it only on the paths that do not overwrite it.
- src/pages/LoginPage.tsx: a network call, credential dispatch and navigation. Its only logic is the same message fallback as `Outcomes.Message`.
- Routing and UI: `ProtectedRoute` and the routes (src/App.tsx), the navbar's button selection, the button style tables, and all layout.
- The Redux wiring in src/app/hooks.ts, which has no logic.
- Browser constraint validation and value sanitisation (`required`, `min`, `step`, `type="email"`). The browser admits only whole quantities of at least 1 (src/pages/AddProductPage.tsx:62-69) and rates in steps of 0.01 (src/pages/AddProductPage.tsx:79). It also strips newlines and surrounding whitespace from the email field and applies its own format check before `handleSubmit` runs. The model takes the values as the handlers receive them, so `SubmitGuard` admits a quantity such as 0.5.
