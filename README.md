# Storefront pages: a Dafny model

This project models the logic of the storefront pages of a multi-tenant
shop front end (Next.js): the checkout page's coupon evaluator and payment
step, the discount badge shown on every product line, the cart panel's
minus, plus and remove buttons, the catalogue filter and category picker of
the home page, the terms page's line classifier, the tenant lookup by the
first label of the Host header, and the custom document's head tags and
initial props.

Modules, one per concern:

- `Text` (text.dfy): JavaScript's `split` with a one-character separator,
  `includes` and ASCII `toLowerCase`, and decimal numerals; `Join` (the
  inverse of `split`) and `IndexOf` (a first occurrence) are reference
  definitions for stating their properties.
- `Discount` (discount.dfy): `calculateDiscount`, with JavaScript's division
  by zero and `toFixed(0)` written out.
- `Subdomain` (subdomain.dfy): `getFirstSubdomain`.
- `Email` (email.dfy): `validateEmail`, a recogniser proved equal to the
  meaning of its regular expression.
- `CartButtons` (cart.dfy): which call each cart button makes to the cart
  store, and a `CartPanel` class that records them.
- `Catalogue` (catalogue.dfy): `filteredProducts`, the category toggle and
  the home page's filter state as a class.
- `Terms` (terms.dfy): the heading/paragraph classification of the terms.
- `Checkout` (checkout.dfy): `setCouponHandle`, `proceedToPayment` and the
  checkout page's state as a class whose methods are the handlers.
- `DocumentHead` (document.dfy): the head tags of `Document` and
  `getInitialProps`.

The remote API is not called anywhere: each handler takes the answer it
awaits as a parameter (`CouponResponse`, `PaymentResponse`, the store
lookups of `getInitialProps`), and the requests it would send are recorded
in the page state. The clock is the parameter `now`, in milliseconds.

The code clamps neither the discount badge (`Discount.SaleAboveListIsNegative`,
`Discount.ZeroListPrice`) nor the amount to pay after a coupon
(`Checkout.CouponAmountBounds`). The cart store is the react-use-cart
library, whose behaviour the pages do not show, so only the calls the
buttons make are modelled.

## Model

| member | source | states |
|---|---|---|
| Text.Split | src/pages/checkout.tsx:691 | `split` with a one-character separator yields one piece more than there are separators, and no piece holds the separator |
| Text.JoinSplit | src/pages/terms.tsx:285 | `split` loses nothing: gluing its pieces back with the separator (the reference inverse `Join`) gives the string |
| Text.SplitJoin | src/pages/terms.tsx:285 | splitting a join of separator-free pieces gives back the pieces |
| Text.SplitFirst | src/pages/index.tsx:453-454 | the first piece is a prefix; there are several pieces exactly when the separator occurs, and then the first piece ends right before the first separator |
| Text.IndexOf | src/pages/checkout.tsx:691-692 | reference definition: the position of the first occurrence, or the length when there is none; it locates where `parts[0]` ends |
| Text.IncludesIffOccurs | src/pages/index.tsx:79 | `includes` holds exactly when the needle occurs at some position of the haystack |
| Text.DigitsRoundTrip | src/pages/feedbacks.tsx:20 | reading back a printed whole number gives the number |
| Text.CountPositive | src/pages/terms.tsx:285 | a character occurs a positive number of times exactly when it is in the string |
| Discount.RoundHalfUp | src/pages/checkout.tsx:30 | `toFixed(0)` rounds a magnitude to the nearest whole number, within one half |
| Discount.NonZeroListPrice | src/pages/checkout.tsx:27-33 | for a non-zero list price the badge is `toFixed(0)` of the exact percentage and the sentinel rule never fires |
| Discount.DiscountWithinListPrice | src/pages/index.tsx:36-42 | a sale price between 0 and a positive list price gives digits whose value is between 0 and 100 and nearest to the true percentage |
| Discount.EqualPricesGiveZero | src/pages/checkout.tsx:27-33 | equal non-zero prices give "0" |
| Discount.FreeItemGivesHundred | src/pages/feedbacks.tsx:17-23 | a sale price of 0 under a positive list price gives "100" |
| Discount.SaleAboveListIsNegative | src/pages/terms.tsx:23-29 | a sale price above a positive list price gives "-" and the rounded mark-up, unclamped |
| Discount.MarkupIsNotClamped | src/pages/checkout.tsx:30-32 | list price 10 and sale price 30 give "-200" |
| Discount.SmallMarkupPrintsMinusZero | src/pages/index.tsx:39-41 | a mark-up under half a percent prints "-0" |
| Discount.ZeroListPrice | src/pages/feedbacks.tsx:20-22 | a zero list price gives "0" for a positive sale price, "NaN" for 0 and "Infinity" for a negative one; the last two are not numerals |
| Discount.NeverMinusInfinity | src/pages/checkout.tsx:32 | the result is never "-Infinity" |
| Discount.NumeralUnlessListPriceZero | src/pages/index.tsx:36-42 | for a non-zero list price the result is always a numeral |
| Discount.DiscountPercent | src/pages/checkout.tsx:27-33 | the badge with the zero list price guarded: always a numeral, "0" for a zero list price, the source's value otherwise |
| Discount.MissingListPrice | src/pages/checkout.tsx:356-359 | with `comparation` undefined lodash leaves the sale price as the quotient, so the badge prints 100 times the sale price; 50 shows "5000" |
| Discount.NullListPrice | src/pages/index.tsx:424-427 | a `null` `comparation` counts as 0: "0" for a positive sale price, "NaN" for 0, "Infinity" for a negative one |
| Discount.GuardedBadge | src/pages/index.tsx:421-427 | the badge with a missing, `null` or zero list price shown as "0": always a numeral, the source's value for a non-zero list price |
| Subdomain.GetFirstSubdomain | src/pages/checkout.tsx:689-693 | the result is a prefix of the host and holds no '.' |
| Subdomain.FirstSubdomainCases | src/pages/index.tsx:451-455 | no or empty host gives ""; a host without '.' comes back unchanged; otherwise the result is the text before the first '.' |
| Subdomain.FirstSubdomainUnique | src/pages/_document.tsx:41-45 | the result is the only dot-free prefix that is the whole host or followed by '.' |
| Subdomain.DottedHostExamples | src/pages/terms.tsx:318-319 | "a.b.c" gives "a" and ".x.com" gives "" |
| Subdomain.PlainHostExamples | src/pages/terms.tsx:316-320 | "localhost:3000" is unchanged and no host gives "" |
| Email.TrailingLetters | src/pages/checkout.tsx:88 | the length of the run of ASCII letters that ends the string |
| Email.ValidateEmailIffPattern | src/pages/checkout.tsx:87-90 | the recogniser accepts exactly the strings the regular expression matches |
| Email.PatternPositions | src/pages/checkout.tsx:88 | wherever the expression matches, its '@' is the first '@' and its '.' the one before the trailing letters |
| Email.ValidEmailHasOneAt | src/pages/checkout.tsx:88 | an accepted address holds exactly one '@' |
| Email.OnlyAtIsAt | src/pages/checkout.tsx:88 | in a match no character other than the one at its '@' position is an '@' |
| Email.EmailExamples | src/pages/checkout.tsx:87-90 | "", "a@b.c" and "a@.co" are rejected, "a@b.co" is accepted |
| CartButtons.MinusCall | src/pages/checkout.tsx:367-372 | the minus button calls the store exactly when the quantity (missing as 0) is above 1, asking for one less and never below 1 |
| CartButtons.PlusCall | src/pages/feedbacks.tsx:172-176 | the plus button asks for one more, a missing quantity counting as 0 |
| CartButtons.TrashCall | src/pages/feedbacks.tsx:181-184 | the remove button removes exactly the line it was rendered for |
| CartButtons.ButtonsNeverAskBelowOne | src/pages/index.tsx:233-253 | for quantities the store can hold no button asks for less than 1 |
| CartButtons.MinusUndoesPlus | src/pages/terms.tsx:188-207 | minus after plus asks for the original quantity; at 1 minus asks for nothing |
| CartButtons.CartPanel.constructor | src/pages/feedbacks.tsx:160-184 | a panel starts with its lines and no calls made |
| CartButtons.CartPanel.Minus | src/pages/feedbacks.tsx:160-166 | records the minus call, if any, and keeps every recorded quantity at least 1 |
| CartButtons.CartPanel.Plus | src/pages/index.tsx:245-249 | records the plus call |
| CartButtons.CartPanel.Trash | src/pages/terms.tsx:209-212 | records the removal of that line |
| Catalogue.FilterProducts | src/pages/index.tsx:77-82 | no more products than the catalogue, each passing the category, search and visibility tests |
| Catalogue.FilterIsSubsequence | src/pages/index.tsx:77-82 | the shown products keep catalogue order |
| Catalogue.FilterKeepsExactly | src/pages/index.tsx:77-82 | a product is shown as often as it is listed when it passes the tests, never otherwise |
| Catalogue.UnfilteredShowsPublic | src/pages/index.tsx:80 | with no category and no search a catalogue of public products is shown whole |
| Catalogue.FilterTests | src/pages/index.tsx:78-79 | an empty category or search matches all; a category matches by equality; the search matches exactly when the lower-cased query occurs in the lower-cased name |
| Catalogue.FilterIdempotent | src/pages/index.tsx:77-82 | filtering the shown products again changes nothing |
| Catalogue.ToggleCategory | src/pages/index.tsx:364 | the selection becomes "" exactly when the picked category was selected (or is ""), the picked one otherwise |
| Catalogue.ToggleTwice | src/pages/index.tsx:363-364 | picking the same category twice ends cleared, unless it was selected to begin with |
| Catalogue.CatalogueView.constructor | src/pages/index.tsx:73-75 | no category, picker closed, empty search |
| Catalogue.CatalogueView.SelectCategory | src/pages/index.tsx:363-366 | toggles the selection and closes the picker; after picking a new category only products of that category are listed |
| Catalogue.CatalogueView.SetOpen | src/pages/index.tsx:339 | the picker's open flag follows `onOpenChange` |
| Catalogue.CatalogueView.SetSearchQuery | src/pages/index.tsx:390 | the search box sets the query |
| Terms.LeadingDigits | src/pages/terms.tsx:286 | the length of the run of digits that starts a line |
| Terms.NumberedHeadingIffPattern | src/pages/terms.tsx:286 | the recogniser agrees with `^[0-9]+\.` |
| Terms.BlocksFollowLines | src/pages/terms.tsx:285 | absent or empty terms give no block; otherwise one block per line, newlines + 1 of them, carrying the lines in order |
| Terms.BlocksRejoin | src/pages/terms.tsx:285-299 | the block texts joined with '\n' give back the terms |
| Terms.HeadingRule | src/pages/terms.tsx:286 | line 0 is a heading; a later line is a heading exactly when the expression matches it |
| Terms.ParagraphExamples | src/pages/terms.tsx:286-297 | "1 Foo", ".x", "a1." are paragraphs after line 0; "12. Pagamento" is a heading |
| Checkout.EvaluateCoupon | src/pages/checkout.tsx:171-200 | the coupon applies exactly when the answer is ok and it is neither exhausted, expired nor below the minimum; then the discount is `discount` percent of the cart total and discount plus amount to pay is the cart total |
| Checkout.CouponRejectionOrder | src/pages/checkout.tsx:171-192 | the rejection reported is the first failing check: server error, exhausted, expired, below minimum |
| Checkout.CouponAmountBounds | src/pages/checkout.tsx:194-195 | above 100 percent the amount to pay is negative; between 0 and 100 it stays between 0 and the cart total |
| Checkout.CouponRejectionExamples | src/pages/checkout.tsx:179-192 | one use of one allowed is exhausted; a minimum of 100 on 50 is below the minimum; missing `maxUses`/`minPrice` and an expiry equal to now apply |
| Checkout.FirstFailingGuard | src/pages/checkout.tsx:96-112 | no guard fails exactly when a method is selected, the terms are accepted and the e-mail is valid; the first failing guard is reported: no method, else terms not accepted, else an invalid e-mail |
| Checkout.SubmittedEmailMatchesPattern | src/pages/checkout.tsx:108 | an e-mail that passes the guards is non-empty and matches the regular expression |
| Checkout.ResponseOutcome | src/pages/checkout.tsx:132-150 | navigation exactly on an ok answer whose `checkoutUrl` is not null, to that URL; the server's message exactly on an answer that is not ok; the unknown-error toast exactly on an exception; staying on the page exactly on an ok answer with a null `checkoutUrl` |
| Checkout.EnabledButtonLeavesEmailGuard | src/pages/checkout.tsx:631-632 | on a page whose pay button is enabled only the e-mail guard can fail, and none fails exactly when the e-mail is valid |
| Checkout.CheckoutPage.constructor | src/pages/checkout.tsx:67-77 | the amount to pay starts as the cart total, no discount, nothing selected, nothing sent |
| Checkout.CheckoutPage.CartChanged | src/pages/checkout.tsx:69 | a new cart total and new lines leave the amount to pay as it was |
| Checkout.CheckoutPage.SelectPayment | src/pages/checkout.tsx:79-81 | selects the payment method |
| Checkout.CheckoutPage.SelectDelivery | src/pages/checkout.tsx:83-85 | selects the delivery method |
| Checkout.CheckoutPage.SetEmail | src/pages/checkout.tsx:71 | sets the e-mail to send to |
| Checkout.CheckoutPage.SetTermsAccepted | src/pages/checkout.tsx:618-623 | the checkbox sets the terms flag |
| Checkout.CheckoutPage.SetCouponCode | src/pages/checkout.tsx:589-591 | the coupon box sets the code |
| Checkout.CheckoutPage.ApplyCoupon | src/pages/checkout.tsx:154-207 | sends the code and store; the outcome is `EvaluateCoupon`'s; only an applied coupon writes the discount and amount to pay, every rejection and exception leaves them; discount plus amount to pay stays the total they were priced from |
| Checkout.CheckoutPage.ProceedToPayment | src/pages/checkout.tsx:92-152 | a failing guard sends nothing and reports itself; otherwise the amount to pay (not the cart total), method, store, e-mail and items are sent and the outcome follows the answer; the button is enabled again on every path |
| Checkout.CouponThenPayScenario | src/pages/checkout.tsx:121-127 | a 10 percent coupon on 200 makes the payment request carry 180 |
| Checkout.StaleTotalScenario | src/pages/checkout.tsx:69 | after the cart grows from 100 to 200 the payment request still carries 100 |
| Checkout.TermsNotAcceptedScenario | src/pages/checkout.tsx:102-106 | without accepted terms no payment request is sent |
| DocumentHead.TitleFallback | src/pages/_document.tsx:15 | the one title is the store's when truthy, "404 - Loja não encontrada" otherwise |
| DocumentHead.AlwaysAndImageTags | src/pages/_document.tsx:20-21 | `og:type` is always there; the large-image card exactly when the image is truthy |
| DocumentHead.IconFollowsFavIcon | src/pages/_document.tsx:14 | the icon link exactly when the favicon is truthy, pointing at it |
| DocumentHead.DescriptionTagsFollowDescription | src/pages/_document.tsx:16-23 | the description, `og:description` and `twitter:description` tags exactly when the description is truthy, carrying it |
| DocumentHead.TitleMetasFollowTitle | src/pages/_document.tsx:18-22 | `og:title` and `twitter:title` exactly when the title is truthy, carrying it |
| DocumentHead.ImageMetasFollowImage | src/pages/_document.tsx:17-24 | `og:image` and `twitter:image` exactly when the image is truthy, carrying it |
| DocumentHead.TagCount | src/pages/_document.tsx:14-24 | the head holds 2 tags plus 1 for the favicon, 2 for the title, 3 each for description and image |
| DocumentHead.GetInitialProps | src/pages/_document.tsx:34-73 | without a request the rendered props come back unchanged; any props returned keep the rendered page |
| DocumentHead.InitialPropsCases | src/pages/_document.tsx:41-72 | the lookup uses the host's first label; no store gives the rendered props unchanged; a missing store record rejects; otherwise exactly the four document fields are replaced |
| DocumentHead.StoreTitleReachesHead | src/pages/_document.tsx:47-72 | a store found for `loja.wizesale.com` under `loja` puts its title in the head |

## Left out

- Network I/O: every request to the commerce API, and the server-side props of the checkout, catalogue and terms pages; the answers are parameters.
- The cart store library: how it merges lines, what a quantity of 0 does, the cart total and persistence; only the calls the buttons make are modelled.
- Favourites on the checkout page: read from session storage and parsed as JSON, both external; the toggle lives on the product page, which is not part of this model.
- Toasts, navigation, cookies and `document.body` styling: they appear only as outcome values (`CouponRejection`, `PaymentOutcome`) and as the `storeId` value.
- Floating point: arithmetic is over `real`; binary rounding, `toFixed(0)`'s exponent form from 1e21 upwards and the `toFixed(2)` currency strings are not modelled.
- Dates: `expiresAt` is taken as already parsed to milliseconds, missing when absent, null or empty; invalid date strings are not modelled.
- Concurrency: each handler is one sequential step; interleaved clicks and stale closures over React state are not modelled.
- `toLowerCase` beyond ASCII letters, and the category picker's own value normalisation, are not modelled.
- Operands other than the optional list price are taken as numbers: a missing sale price, `discount` or `uses`, or a non-numeric string, is not modelled.
- Checkout.CheckoutPage.ProceedToPayment: a `Router.push` that throws after an ok answer is not modelled; the request is recorded even when the network call itself fails.
- `src/components/Crisp.tsx` (a chat widget call) and `src/pages/404.tsx` (a redirect) hold no logic to model; JSX layout is rendering only.

## Findings

| source | as written | input that shows it | evidently intended | confidence | as-written member | corrected member |
|---|---|---|---|---|---|---|
| src/pages/checkout.tsx:30-32 | only the "-Infinity" that a zero list price gives for a positive sale price is replaced by "0" | list price 0 with sale price 0 prints "NaN"; with sale price -5 prints "Infinity" | a zero list price shows a 0 percent badge | not executed | Discount.ZeroListPrice | Discount.DiscountPercent |
| src/pages/index.tsx:424-427 | an optional `comparation` that is undefined is passed to lodash, which returns the other operand | list price undefined with sale price 50 prints "5000" | a missing list price shows a 0 percent badge | not executed | Discount.MissingListPrice | Discount.GuardedBadge |
