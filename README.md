# InBudgetPrintablesCo storefront logic, modelled in Dafny

This project models the parts of the storefront that hold logic rather than
markup:

- **The checkout dialog** (`src/components/CheckoutDialog.tsx`). It is a
  three-step wizard: details, then payment, then confirmation. It has two
  validators that report every failing field at once, and a test of the
  e-mail shape against `^[^\s@]+@[^\s@]+\.[^\s@]+$`. It also has two
  looser checks that the component declares but never calls:
  `isDetailsValid` asks only that every detail field be non-empty, and
  `isPaymentValid` asks, for the method `"credit-card"` only, that the name,
  month and year be non-empty, the card number be 16 characters long and
  the CVV 3 characters long. The card inputs pass through digit
  sanitisers, which strip non-digits and cut the result to 16, 2, 2 or 3
  characters. The component's state (`step`, `formData`, `paymentData`,
  `detailsErrors`, `paymentErrors`) is the class `CheckoutDialog.Dialog`,
  and its handlers are the class's methods. The parent's `open` flag, which
  `onOpenChange` sets, is a field too. The two-second close callback that a
  successful payment schedules is a counter of pending callbacks plus an
  explicit `CloseTimerFires` event. Each handler wired to a control may
  run only while the dialog is open and on the step that renders that
  control: the detail inputs, Cancel and Continue on the details step
  (lines 206-408); the method select, Back and Process Payment on the
  payment step (lines 410-607); the card inputs on the payment step while
  the selected method contains "card" (lines 431-572). The class invariant
  `Dialog.Valid`, which every handler requires and keeps and which
  `ResetForm` establishes from any state, states what follows: the
  payment and confirmation steps are only ever shown with details that
  passed validation, and the confirmation only with its close callback
  pending.
- **The shop page's `filtered` list** (`src/pages/Shop.tsx`). The catalog is
  narrowed by the active category, by a case-insensitive search and by an
  inclusive price range. It is then ordered by one of five stable sorts.
  `handleCategory` and the `"all"` default of the category parameter are
  modelled too.
- **The product page** (`src/pages/ProductDetail.tsx`). It covers the lookup
  by route id, the "already in the cart" test, the related products (the
  first four of the same category, excluding the product itself) and the
  Add to Cart button, which is disabled once the product is in the cart.

Layout of the Dafny modules:

| file | module | contents |
|---|---|---|
| `seqs.dfy` | `Seqs` | `Option`, and `Filter`, `Any`, `Find`, `Take` for the array methods `filter`, `some`, `find`, `slice(0, n)`, with their lemmas |
| `text.dfy` | `Text` | the ECMAScript white-space class, `\d`, ASCII `toLowerCase`, `includes`, `trim` |
| `catalog.dfy` | `Catalog` | the `Product` record (price in cents, rating in tenths of a star) and the cart line shape |
| `checkout_validation.dfy` | `CheckoutValidation` | the two forms, the validators' error records, the e-mail test, `isDetailsValid` and `isPaymentValid`, the sanitisers |
| `checkout_dialog.dfy` | `CheckoutDialog` | the `Dialog` class and its handlers, plus scenario methods that drive it |
| `shop.dfy` | `Shop` | the active category, the three filters, the five sorts, the `filtered` pipeline |
| `product_detail.dfy` | `ProductDetail` | lookup, in-cart test, related products, the Add button |

Behaviour of the code worth noting:

- The Cancel button only calls `onOpenChange(false)`. It does not discard
  the entered data. Reopening the dialog shows the same step and the same
  fields.
- Nothing cancels the close callback that a successful payment schedules.
  If the dialog is dismissed and reopened before the callback runs, the old
  callback still closes and resets it. `CheckoutDialog.StaleCloseScenario`
  shows this sequence.
- `isPaymentValid` applies its card checks only to the exact method
  `"credit-card"`. `validatePaymentForm` applies them to every method whose
  name contains `"card"`.

## Model

| member | source | states |
|---|---|---|
| `Seqs.Filter` | src/pages/Shop.tsx:34 | `filter`: the result is no longer than the input and every kept element passes the test |
| `Seqs.FilterSubMultiset` | src/pages/Shop.tsx:29-46 | filtering never adds an element nor duplicates one: the result is a sub-multiset of the input |
| `Seqs.FilterMembers` | src/pages/Shop.tsx:34 | an element is in the filtered list exactly when it is in the input and passes the test |
| `Seqs.FilterMembership` | src/pages/Shop.tsx:46 | the same membership equivalence, for every element at once |
| `Seqs.FilterCons` | src/pages/Shop.tsx:34 | filtering a list with a head is the kept head followed by the filtered tail |
| `Seqs.FilterConsAfter` | src/pages/Shop.tsx:62-63 | putting a failing head behind a filtered prefix leaves the filter's output order unchanged (used for sort stability) |
| `Seqs.PartitionedSplit` | src/pages/Shop.tsx:62-63 | a list in which no passing element follows a failing one is its passing elements followed by its failing ones |
| `Seqs.FilterKeepsAll` | src/pages/Shop.tsx:33-35 | when every element passes, filtering returns the list unchanged |
| `Seqs.FilterDropsAll` | src/pages/Shop.tsx:34 | when no element passes, filtering returns the empty list |
| `Seqs.FilterFilter` | src/pages/Shop.tsx:29-46 | two filters in a row equal one filter by the conjunction of their tests |
| `Seqs.FilterExtensional` | src/pages/Shop.tsx:34 | filters whose tests agree on the list's elements give the same result |
| `Seqs.FilterAppend` | src/components/CheckoutDialog.tsx:466-468 | filtering distributes over concatenation |
| `Seqs.Any` | src/pages/ProductDetail.tsx:15 | `some` is true exactly when some element passes the test |
| `Seqs.FindIndex` | src/pages/ProductDetail.tsx:13 | the position `find` stops at: every earlier element fails, and the element there passes unless it is the end |
| `Seqs.Find` | src/pages/ProductDetail.tsx:13 | `find` yields nothing exactly when no element passes; otherwise it yields the first passing element |
| `Seqs.Take` | src/pages/ProductDetail.tsx:33 | `slice(0, n)` is a prefix of length `min(n, length)` |
| `Text.IsWhitespace` | src/components/CheckoutDialog.tsx:89 | definition: the ECMAScript white-space and line-terminator characters, which are the `\s` of the e-mail pattern and what `trim` strips; `Text.TrimStart`, `Text.TrimEnd` and `CheckoutValidation.IsEmailMatchesPattern` state their contracts in its terms |
| `Text.LowerChar` | src/pages/Shop.tsx:39-41 | lower-casing maps `A`–`Z` to `a`–`z` and leaves every other character alone |
| `Text.ToLower` | src/pages/Shop.tsx:39-41 | lower-casing keeps the length and lower-cases each character in place |
| `Text.LowerCharWhitespace` | src/pages/Shop.tsx:38-39 | lower-casing neither creates nor removes white space |
| `Text.TrimStart` | src/pages/Shop.tsx:38 | leading trim removes exactly the leading white space: what remains is a suffix that does not start with white space |
| `Text.TrimEnd` | src/pages/Shop.tsx:38 | trailing trim removes exactly the trailing white space: what remains is a prefix that does not end with white space |
| `Text.Trim` | src/pages/Shop.tsx:38 | definition: `trimEnd` after `trimStart`; `Text.TrimEmptyIffBlank` states its contract: the result is empty exactly when the text is all white space |
| `Text.TrimEmptyIffBlank` | src/pages/Shop.tsx:38 | `search.trim()` is empty exactly when the search text is all white space |
| `Text.BlankUnderLower` | src/pages/Shop.tsx:38-39 | two texts with the same lower-case form are blank together |
| `Text.Includes` | src/pages/Shop.tsx:41 | definition: the query occurs in the text at some position; `Shop.BySearchKeeps` and `CheckoutValidation.CreditCardIsCardMethod` use it for the search and the card-method tests |
| `CheckoutValidation.Collect` | src/components/CheckoutDialog.tsx:84-97 | definition: starting from `{}`, one conditional assignment per key in key order; `CheckoutValidation.CollectAt` states its contract |
| `CheckoutValidation.CollectAt` | src/components/CheckoutDialog.tsx:84-99 | a record built by one conditional assignment per key holds a key exactly when it was tested and its check gave a message, and holds that message |
| `CheckoutValidation.AllDetailsFieldsComplete` | src/components/CheckoutDialog.tsx:37-47 | the details form has exactly nine fields |
| `CheckoutValidation.EmptyDetails` | src/components/CheckoutDialog.tsx:37-47 | definition: the nine empty strings of the initial `formData`; `CheckoutValidation.EmptyDetailsHasNineErrors` states what the validator reports for it |
| `CheckoutValidation.WithDetail` | src/components/CheckoutDialog.tsx:57-59 | `{...formData, [name]: value}` sets the named field and leaves the other eight unchanged |
| `CheckoutValidation.DetailsFieldError` | src/components/CheckoutDialog.tsx:86-96 | definition: the message one field's `if` assigns: "… is required" when empty, "Please enter a valid email" for a non-empty malformed e-mail, none otherwise; `CheckoutValidation.DetailsErrorsAt` states that it is the record's entry |
| `CheckoutValidation.DetailsErrors` | src/components/CheckoutDialog.tsx:83-99 | definition: `Collect` of `DetailsFieldError` over the nine fields in source order; `DetailsErrorsAt`, `DetailsErrorKeys` and `DetailsValidIff` state its contract |
| `CheckoutValidation.DetailsErrorsAt` | src/components/CheckoutDialog.tsx:83-100 | a field has an error entry exactly when it is empty, or it is the e-mail and lacks the e-mail shape; the entry is "… is required" or "Please enter a valid email" accordingly |
| `CheckoutValidation.DetailsErrorKeys` | src/components/CheckoutDialog.tsx:83-97 | the fields with error entries are exactly the empty ones, plus the e-mail when it is filled in but malformed |
| `CheckoutValidation.EmptyDetailsHasNineErrors` | src/components/CheckoutDialog.tsx:83-97 | on the all-empty form all nine fields are reported missing, with their "is required" messages |
| `CheckoutValidation.DetailsValidIff` | src/components/CheckoutDialog.tsx:83-100 | the details pass exactly when every field is non-empty and the e-mail has the e-mail shape |
| `CheckoutValidation.IsDetailsValid` | src/components/CheckoutDialog.tsx:69-81 | definition: every one of the nine fields is non-empty; `ValidatedDetailsArePresent` and `MalformedEmailOnlyError` relate it to the validator |
| `CheckoutValidation.ValidatedDetailsArePresent` | src/components/CheckoutDialog.tsx:69-100 | details that pass `validateDetailsForm` also pass `isDetailsValid` |
| `CheckoutValidation.MalformedEmailOnlyError` | src/components/CheckoutDialog.tsx:69-100 | with all fields filled and a malformed e-mail, `isDetailsValid` passes but the validator reports exactly one error, on the e-mail |
| `CheckoutValidation.IsEmail` | src/components/CheckoutDialog.tsx:89 | definition: a scan with no white space, a first `@` not at the start, no second `@`, and a `.` in the domain that is neither its first nor its last character; `IsEmailMatchesPattern` proves it equal to the pattern's language |
| `CheckoutValidation.IsEmailMatchesPattern` | src/components/CheckoutDialog.tsx:89 | the e-mail scan accepts exactly the strings that `^[^\s@]+@[^\s@]+\.[^\s@]+$` matches |
| `CheckoutValidation.EmailRejections` | src/components/CheckoutDialog.tsx:89 | any white space, no `@`, a leading `@` or two `@` signs make an e-mail invalid |
| `CheckoutValidation.NoDotDomainIsNotEmail` | src/components/CheckoutDialog.tsx:89 | `"john@doe"` is rejected |
| `CheckoutValidation.NoAtSignIsNotEmail` | src/components/CheckoutDialog.tsx:89 | `"johndoe.com"` is rejected |
| `CheckoutValidation.WellFormedEmail` | src/components/CheckoutDialog.tsx:89 | `"john@example.com"` is accepted |
| `CheckoutValidation.AllPaymentFieldsComplete` | src/components/CheckoutDialog.tsx:48-55 | the payment form has exactly five card fields besides the method |
| `CheckoutValidation.InitialPayment` | src/components/CheckoutDialog.tsx:48-55 | definition: empty card fields and the method "credit-card"; the `Dialog` constructor and `Dialog.ResetForm` establish it (their `Pristine` postcondition) |
| `CheckoutValidation.IsCardMethod` | src/components/CheckoutDialog.tsx:118 | definition: the method name includes "card"; `CreditCardIsCardMethod` and `NonCardPaymentAccepted` state which methods pass it and what failing it implies |
| `CheckoutValidation.WithPayment` | src/components/CheckoutDialog.tsx:61-63 | `{...paymentData, [name]: value}` sets the named card field and leaves the other fields and the method unchanged |
| `CheckoutValidation.PaymentFieldError` | src/components/CheckoutDialog.tsx:118-130 | definition: none for a method without "card"; otherwise the message of the field's `if`/`else if`; `PaymentErrorsAt` and `CardPaymentErrorsAt` state its meaning |
| `CheckoutValidation.PaymentErrors` | src/components/CheckoutDialog.tsx:115-133 | definition: `Collect` of `PaymentFieldError` over the five card fields in source order; `PaymentErrorsAt`, `CardPaymentErrorsAt` and `NonCardPaymentAccepted` state its contract |
| `CheckoutValidation.PaymentErrorsAt` | src/components/CheckoutDialog.tsx:115-134 | a card field has an error entry exactly when its check gives a message, and holds that message |
| `CheckoutValidation.CardPaymentErrorsAt` | src/components/CheckoutDialog.tsx:118-130 | for a card method: name, month and year error iff empty; number iff empty or not 16 long; CVV iff empty or not 3 long; no range check on month or year |
| `CheckoutValidation.NonCardPaymentAccepted` | src/components/CheckoutDialog.tsx:118 | a method whose name does not contain "card" yields no errors, whatever the card fields hold |
| `CheckoutValidation.PaypalAccepted` | src/components/CheckoutDialog.tsx:115-134 | method `"paypal"` always passes |
| `CheckoutValidation.CreditCardIsCardMethod` | src/components/CheckoutDialog.tsx:118 | `"credit-card"` and `"debit-card"` both contain "card" |
| `CheckoutValidation.IsPaymentValid` | src/components/CheckoutDialog.tsx:102-113 | definition: for exactly "credit-card", name, month and year non-empty, a 16-character number and a 3-character CVV; true for any other method; `ValidatedPaymentIsValid`, `CreditCardChecksAgree` and `DebitCardChecksDisagree` relate it to the validator |
| `CheckoutValidation.ValidatedPaymentIsValid` | src/components/CheckoutDialog.tsx:102-134 | a payment that passes `validatePaymentForm` also passes `isPaymentValid` |
| `CheckoutValidation.CreditCardChecksAgree` | src/components/CheckoutDialog.tsx:102-134 | for `"credit-card"` the two payment checks agree |
| `CheckoutValidation.DebitCardChecksDisagree` | src/components/CheckoutDialog.tsx:102-134 | for `"debit-card"` with empty card fields `isPaymentValid` passes while the validator reports all five fields |
| `CheckoutValidation.CardExamples` | src/components/CheckoutDialog.tsx:118-130 | a complete credit-card entry passes; a six-digit card number yields exactly the "must be 16 digits" error |
| `CheckoutValidation.DigitsOnly` | src/components/CheckoutDialog.tsx:466-467 | `replace(/\D/g, "")` leaves only digits, keeps every digit of the input and adds nothing |
| `CheckoutValidation.Sanitize` | src/components/CheckoutDialog.tsx:466-468 | a sanitised value is all digits, at most `cap` long, and is the first `min(cap, digit count)` digits of the input in order |
| `CheckoutValidation.DigitsOnlyOfDigits` | src/components/CheckoutDialog.tsx:467 | a digit string passes through digit stripping unchanged |
| `CheckoutValidation.SanitizeIdempotent` | src/components/CheckoutDialog.tsx:466-468 | sanitising a sanitised value changes nothing |
| `CheckoutValidation.SanitizeFixedPoints` | src/components/CheckoutDialog.tsx:493-500 | the values a sanitiser leaves alone are exactly the digit strings no longer than its cap |
| `CheckoutValidation.SanitizeIgnoresExtraDigits` | src/components/CheckoutDialog.tsx:553-557 | once the cap is reached, further typed characters have no effect |
| `CheckoutDialog.Dialog.Valid` | src/components/CheckoutDialog.tsx:136-151 | the class invariant: off the details step the details are complete, the e-mail well formed and no details errors recorded; on the confirmation step no payment errors are recorded and a close callback is pending. The constructor establishes it, every handler requires and ensures it, and `ResetForm` establishes it from any state |
| `CheckoutDialog.Dialog.constructor` | src/components/CheckoutDialog.tsx:28-55 | the dialog starts on the details step with empty forms, no errors, method "credit-card" and no pending close, in a state satisfying `Valid` |
| `CheckoutDialog.Dialog.HandleDetailsChange` | src/components/CheckoutDialog.tsx:57-59 | on the details step of the open dialog, only the named detail field changes; `Valid` is kept |
| `CheckoutDialog.Dialog.HandlePaymentChange` | src/components/CheckoutDialog.tsx:61-63 | on the payment step of the open dialog with a card method selected, only the named card field changes; `Valid` is kept |
| `CheckoutDialog.Dialog.HandlePaymentMethodChange` | src/components/CheckoutDialog.tsx:65-67 | on the payment step of the open dialog, only the payment method changes; `Valid` is kept |
| `CheckoutDialog.Dialog.HandleCardNumberInput` | src/components/CheckoutDialog.tsx:465-469 | on the payment step with a card method selected, the card number becomes the input sanitised to at most 16 digits; nothing else changes |
| `CheckoutDialog.Dialog.HandleExpiryMonthInput` | src/components/CheckoutDialog.tsx:493-500 | on the payment step with a card method selected, the month becomes the input sanitised to at most 2 digits; nothing else changes |
| `CheckoutDialog.Dialog.HandleExpiryYearInput` | src/components/CheckoutDialog.tsx:524-531 | on the payment step with a card method selected, the year becomes the input sanitised to at most 2 digits; nothing else changes |
| `CheckoutDialog.Dialog.HandleCvvInput` | src/components/CheckoutDialog.tsx:553-557 | on the payment step with a card method selected, the CVV becomes the input sanitised to at most 3 digits; nothing else changes |
| `CheckoutDialog.Dialog.ValidateDetailsForm` | src/components/CheckoutDialog.tsx:83-100 | stores the details error record; returns true iff it is empty, iff all fields are present and the e-mail is well formed |
| `CheckoutDialog.Dialog.ValidatePaymentForm` | src/components/CheckoutDialog.tsx:115-134 | stores the payment error record; returns true iff it is empty |
| `CheckoutDialog.Dialog.HandleNext` | src/components/CheckoutDialog.tsx:136-140 | on the details step of the open dialog: records the details errors; the step becomes payment exactly when there are none, that is when every field is present and the e-mail well formed; otherwise it stays on details |
| `CheckoutDialog.Dialog.HandleProcessPayment` | src/components/CheckoutDialog.tsx:142-151 | on the payment step of the open dialog: records the payment errors; with none, the step becomes confirmation and one close callback is scheduled, otherwise nothing else changes; the confirmation is only reached with validated details |
| `CheckoutDialog.Dialog.ResetForm` | src/components/CheckoutDialog.tsx:154-177 | step details, both error records empty, every field empty, method "credit-card" |
| `CheckoutDialog.Dialog.Back` | src/components/CheckoutDialog.tsx:597 | on the payment step of the open dialog, only the step changes, to details; the entered details are kept |
| `CheckoutDialog.Dialog.OnOpenChange` | src/components/CheckoutDialog.tsx:180 | on any step, only the parent's open flag changes |
| `CheckoutDialog.Dialog.Cancel` | src/components/CheckoutDialog.tsx:398 | on the details step of the open dialog, the dialog closes and no form state is reset |
| `CheckoutDialog.Dialog.CloseTimerFires` | src/components/CheckoutDialog.tsx:147-150 | a scheduled callback closes the dialog and resets the forms, whatever step is showing and whether or not the dialog was reopened |
| `CheckoutDialog.TypeDetails` | src/components/CheckoutDialog.tsx:57-59 | on the details step, typing all nine fields in turn leaves the form equal to the entry typed |
| `CheckoutDialog.TypeCard` | src/components/CheckoutDialog.tsx:440-557 | on the payment step, typing digit strings within the caps into the card inputs leaves exactly those values in the card fields, and the method unchanged |
| `CheckoutDialog.ReachPayment` | src/components/CheckoutDialog.tsx:57-140 | a fresh dialog given a complete details entry and Continue reaches the payment step with the entry kept and the payment form untouched |
| `CheckoutDialog.EmptySubmissionScenario` | src/components/CheckoutDialog.tsx:136-140 | no contract: its body asserts that Continue on a fresh dialog stays on the details step with nine errors |
| `CheckoutDialog.DetailsScenario` | src/components/CheckoutDialog.tsx:136-140 | no contract: its body asserts that for any complete entry Continue reaches the payment step with no errors, and that Back then returns to the details with the entry kept |
| `CheckoutDialog.ShortCardNumberScenario` | src/components/CheckoutDialog.tsx:118-151 | no contract: its body asserts that a card number shorter than 16 digits keeps the payment step, records "Card number must be 16 digits" and schedules no close |
| `CheckoutDialog.PaymentScenario` | src/components/CheckoutDialog.tsx:142-177 | no contract: its body asserts that a complete credit-card entry confirms and schedules one close, and that the close callback then leaves the dialog closed and pristine |
| `CheckoutDialog.StaleCloseScenario` | src/components/CheckoutDialog.tsx:142-151 | no contract: its body asserts that after a PayPal confirmation, closing and reopening shows the confirmation again, and the old callback then closes and resets the dialog |
| `Shop.GetCategory` | src/pages/Shop.tsx:21 | `get("category")` is the value of the first `category` parameter, or nothing when there is none |
| `Shop.ActiveCategory` | src/pages/Shop.tsx:21 | a missing or empty `category` parameter means `"all"`; otherwise it is the parameter's value |
| `Shop.HandleCategory` | src/pages/Shop.tsx:69-75 | `"all"` clears the parameters; any other id sets exactly `category` to that id |
| `Shop.HandleCategoryShows` | src/pages/Shop.tsx:21-75 | after a click on a category pill the page shows that category (`"all"` for the empty id) |
| `Shop.NoParamsShowsAll` | src/pages/Shop.tsx:21 | with no parameters the active category is `"all"` |
| `Shop.ByCategory` | src/pages/Shop.tsx:32-34 | definition: the catalog unchanged for "all", otherwise filtered by equal category; `Shop.ByCategoryIsFilter` states its contract |
| `Shop.BySearch` | src/pages/Shop.tsx:37-43 | definition: the list unchanged when the search trims to nothing, otherwise filtered by the lower-cased query; `BySearchIsFilter`, `BySearchKeeps` and `SearchIgnoresCase` state its contract |
| `Shop.ByPrice` | src/pages/Shop.tsx:46 | definition: filtered by both inclusive price bounds; `Shop.ByPriceInRange` states its contract |
| `Shop.ByCategoryIsFilter` | src/pages/Shop.tsx:32-35 | for `"all"` the category step drops nothing; otherwise every result has the active category |
| `Shop.BySearchIsFilter` | src/pages/Shop.tsx:37-43 | the search step is a filter by "blank search, or the product matches the lower-cased search" |
| `Shop.BySearchKeeps` | src/pages/Shop.tsx:37-43 | a blank search keeps everything; any other search keeps exactly the products whose lower-cased title or description contains the lower-cased, untrimmed search text |
| `Shop.SearchIgnoresCase` | src/pages/Shop.tsx:37-43 | two search texts with the same lower-case form keep the same products |
| `Shop.ByPriceInRange` | src/pages/Shop.tsx:46 | every kept product's price lies within both inclusive bounds, and every such product is kept |
| `Shop.IdNumber` | src/pages/Shop.tsx:59-60 | definition: `Number(id)` as the decimal value of an all-digit id, 0 for any other id (see "## Left out"); `Shop.SortOrders` states the order it gives under "newest" |
| `Shop.Key` | src/pages/Shop.tsx:49-63 | definition: the sort key of each option, ascending; `Shop.Compare` states that each comparator is the difference of these keys, and `SortOrders`, `SortBySorted` and `FeaturedSort` state the orders it induces |
| `Shop.Compare` | src/pages/Shop.tsx:49-64 | each comparator, as written, is the difference of the option's sort keys, so it is a consistent ordering |
| `Shop.Insert` | src/pages/Shop.tsx:49-64 | an insertion grows the list by one |
| `Shop.SortBy` | src/pages/Shop.tsx:49-64 | a sort keeps the list's length |
| `Shop.InsertPermutation` | src/pages/Shop.tsx:49-64 | an insertion adds exactly the inserted product |
| `Shop.SortByPermutation` | src/pages/Shop.tsx:49-64 | every sort is a permutation of its input |
| `Shop.InsertFrom` | src/pages/Shop.tsx:49-64 | every element of an insertion is the inserted product or an old element |
| `Shop.InsertSorted` | src/pages/Shop.tsx:49-64 | inserting into a list ordered by the key keeps it ordered |
| `Shop.InsertSortedFront` | src/pages/Shop.tsx:49-64 | a product that does not compare after the head of an ordered list can go in front of it |
| `Shop.InsertSortedBehind` | src/pages/Shop.tsx:49-64 | the head of an ordered list stays in front when the inserted product goes behind it |
| `Shop.SortBySorted` | src/pages/Shop.tsx:49-64 | every sort leaves the list ordered by its key |
| `Shop.InsertStable` | src/pages/Shop.tsx:49-64 | insertion keeps the order among equal keys: the new product goes before the old ones with its key |
| `Shop.InsertStableBehind` | src/pages/Shop.tsx:49-64 | the stability step when the inserted product goes behind the head |
| `Shop.SortByStable` | src/pages/Shop.tsx:49-64 | products that share a sort key keep their relative order |
| `Shop.SortOrders` | src/pages/Shop.tsx:49-61 | price-asc gives non-decreasing prices; price-desc non-increasing prices; rating non-increasing ratings; newest non-increasing `Number(id)` |
| `Shop.FeaturedSplit` | src/pages/Shop.tsx:62-63 | a list ordered by the featured key is its featured products followed by the others |
| `Shop.FeaturedSort` | src/pages/Shop.tsx:62-63 | the default sort puts every featured product before every other one and keeps the input order within each group |
| `Shop.FilterSteps` | src/pages/Shop.tsx:29-46 | the three filtering steps together are one filter of the catalog by category, search and price |
| `Shop.FilteredIsPermutation` | src/pages/Shop.tsx:29-67 | `filtered` is a permutation of the catalog's products that pass the three tests: nothing is added, duplicated or lost |
| `Shop.FilteredSound` | src/pages/Shop.tsx:29-67 | every shown product passes the three tests, and the list is in the selected sort's order |
| `Shop.FilteredFeatured` | src/pages/Shop.tsx:29-67 | under the default sort the list is the passing featured products in catalog order, then the other passing products in catalog order |
| `Shop.InitialView` | src/pages/Shop.tsx:21-24 | definition: the given parameters, an empty search, the featured sort and the range 0 to 1000 cents; `Shop.OpeningView` states what it shows |
| `Shop.Filtered` | src/pages/Shop.tsx:29-67 | definition: the category, search and price steps, then the sort; `FilterSteps`, `FilteredIsPermutation`, `FilteredSound` and `FilteredFeatured` state its contract |
| `Shop.OpeningView` | src/pages/Shop.tsx:21-67 | on first load with no category, every product priced from 0 to 10 dollars is shown, featured ones first |
| `ProductDetail.Lookup` | src/pages/ProductDetail.tsx:13 | the product is the first catalog entry with the route id; there is none when the id is missing or no entry has it |
| `ProductDetail.LookupOwnId` | src/pages/ProductDetail.tsx:13 | in a catalog with unique ids, a product's own id finds that product |
| `ProductDetail.InCart` | src/pages/ProductDetail.tsx:15 | in the cart iff some cart line's product has the product's id; false when there is no product |
| `ProductDetail.InCartWithLine` | src/pages/ProductDetail.tsx:15 | a cart holding a line for the product counts it as in the cart, whatever the quantity |
| `ProductDetail.InCartById` | src/pages/ProductDetail.tsx:15 | being in the cart depends on the id alone |
| `ProductDetail.Related` | src/pages/ProductDetail.tsx:31-33 | at most 4 related products, each in the product's category and with a different id |
| `ProductDetail.RelatedAreFirstFour` | src/pages/ProductDetail.tsx:31-33 | the related products are a prefix, in catalog order, of the qualifying products: four of them when at least four qualify, and exactly the list of qualifying products otherwise |
| `ProductDetail.RelatedFromCatalog` | src/pages/ProductDetail.tsx:31-33 | every related product is from the catalog, and the product is never related to itself |
| `ProductDetail.Render` | src/pages/ProductDetail.tsx:13-33 | "not found" exactly when the lookup fails; otherwise the page's product is the first catalog entry with the route id, its in-cart flag is true iff a cart line has that id, and its related list is `Related` of that product |
| `ProductDetail.AddEnabled` | src/pages/ProductDetail.tsx:117 | definition: a found page whose product is not in the cart; `ClickAdd`, `ClickAddOnlyNew` and `AddedProductDisablesButton` state its contract |
| `ProductDetail.ClickAdd` | src/pages/ProductDetail.tsx:114-118 | a click hands the product to the cart exactly when the button is enabled |
| `ProductDetail.ClickAddOnlyNew` | src/pages/ProductDetail.tsx:114-118 | the page hands the product to the cart exactly when no cart line has its id |
| `ProductDetail.AddedProductDisablesButton` | src/pages/ProductDetail.tsx:15-118 | once the cart holds a line for a catalog product, its page is found and the button does nothing |

## Left out

- The cart store (`@/contexts/CartContext`): `src/contexts/CartContext` is not part of this model. `addItem`, `removeItem`, `updateQuantity`, `total` and the item count are therefore not modelled. The cart appears only as a sequence of (product, quantity) lines that the product page reads.
- All JSX markup and styling: the rendering of error messages, the category pills, the image gallery and its `activeImage` index, and the order total display.
- The UI library and hook plumbing (`useState`, `useMemo`, `useSearchParams`, `useParams`): hook state is plain class fields or function inputs. Parsing the query string into `URLSearchParams` is not modelled; the parameters are a sequence of name/value pairs.
- Time: the two-second delay of the close callback is not modelled. Each scheduled callback is one count in `pendingCloses`, and `CloseTimerFires` is the event of one callback running. The code never cancels a callback, so the model has no cancellation either.
- Floating point: prices are whole cents and ratings whole tenths of a star. The `toFixed(2)` formatting, `maxPrice` (`Math.ceil(Math.max(...))`) and the `Number(e.target.value)` parsing of the price-range inputs are left out. The default price range of 0 to 10 dollars is the range 0 to 1000 cents.
- `toLowerCase` is modelled on ASCII letters only. Other Unicode case mappings are not modelled.
- `Shop.IdNumber`: `Number(id)` is modelled only for ids made of decimal digits, which is what every catalog id is. Any other id reads as 0, whereas JavaScript gives `NaN`, or parses signs, white space and hexadecimal forms.
- `Shop.SortBy`: the engine's own sorting algorithm is not modelled. Stable sorting by a consistent comparator has a unique result, and the model computes it by stable insertion sort.
- `CheckoutValidation.DetailsErrors`, `CheckoutValidation.PaymentErrors`: the error record's keys are field values of a datatype rather than JavaScript property names. `Object.keys` order is not modelled, only whether the record is empty.
- `CheckoutDialog.Dialog.ValidateDetailsForm`, `CheckoutDialog.Dialog.ValidatePaymentForm`: the record is computed by the fold `Collect`, one conditional assignment per field in source order, rather than by nine (or five) separate `if` statements on a local variable. The result is the same record.
- `CheckoutDialog.Dialog.HandlePaymentChange`: the source wires this handler only to the cardholder-name input. The model accepts any card field name, as the handler's own code would.
- The views `Cart.tsx`, `ProductCard.tsx`, `Index.tsx`, `Categories.tsx`, `Navbar.tsx`, `Footer.tsx` and `Layout.tsx`, and the static catalog data in `src/data/products.ts`: only the `Product` record's shape is used.
