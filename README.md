# ShopSense storefront state, modelled in Dafny

ShopSense is a single-page storefront: it loads a product catalog from a remote
API, lets the visitor filter it, keeps a shopping cart, logs users in against an
in-memory account list and runs a mock checkout. All of its behaviour lives in
one global `state` object in `app.js` and in the event handlers that change it.

This project models that state and those handlers with the display code peeled
away:

- `Store.Store` (store.dfy) is the `state` object: catalog, visible products,
  filter criteria, cart, accounts, session and current page. Its methods are the
  handlers (`addToCart`, `removeFromCart`, `updateCartItemQuantity`,
  `updateProductQuantity`, `applyFilters`, `clearFilters`, `loadProducts`,
  `handleLogin`, `handleSignup`, `handleLogout`, `navigateTo`,
  `handleAuthButton`, `proceedToCheckout`, `placeOrder`). Each method states the
  complete new state. Each also keeps the object invariant `Valid()`:
  - the visible products are an order-preserving sub-list of the catalog;
  - cart ids are unique and every quantity is at least 1;
  - account e-mails are unique;
  - the session user is a registered account;
  - every quantity selector shows at least 1.
- The per-product quantity selector (the `qty-<id>` counter on each product
  card) is the field `pickQuantity`. A product without an entry shows 1.
  `addToCart` reads it and resets it to 1. Re-rendering the grid (`applyFilters`,
  `loadProducts`) resets all of them. The clamp in `updateProductQuantity` keeps
  it at 1 or more. That clamp is why cart quantities never fall below 1.
- Pure logic is written as functions with lemmas:
  - the filter predicate and `filter` (filters.dfy);
  - the category facet list (catalog.dfy);
  - the cart lookup, removal and sums (cart.dfy);
  - credential lookup (auth.dfy);
  - payment-field checks and card-number grouping (payment.dfy);
  - lower-casing and substring search (text.dfy);
  - generic sequence facts (lists.dfy).
- scenarios.dfy walks through the cart, sign-up/login and checkout-gate examples
  of the storefront by calling the handlers and reasoning from their contracts
  (the cart totals also unfold `Cart.Summarize`); the search examples are
  lemmas about `Filters.Filter` on one sample product.

Prices, ratings and money are exact `real`s. Tax is exactly one tenth of the
subtotal.

Behaviour of the code worth knowing:
- `loadProducts` makes the visible list a copy of the whole catalog without
  applying the current criteria (app.js:48-49). So the invariant is "sub-list
  of the catalog", not "equal to the filter of the catalog".
- "Clear filters" restores a price ceiling of 1000 (app.js:271). It shows the
  whole catalog only when every price lies in [0, 1000] and every rating is
  non-negative (`Filters.ClearedShowsCatalog`).
- The facet list is `'all'` followed by the distinct categories (app.js:62). A
  product category spelled `all` would therefore be listed twice.
- The card-number length check runs on the field after formatting (app.js:342,
  391-392). The separators count toward its length, so a field holding 11 or
  more non-whitespace characters passes, whatever spacing was typed
  (`Payment.FormattedCardLengthCheck`).

## Model

| member | source | states |
|---|---|---|
| `Store.Store.constructor` | app.js:3-20 | initial state: empty catalog, visible list and cart; default criteria; the one demo account; no session; home page |
| `Store.Store.LoadProducts` | app.js:35-59 | on success catalog and visible list both become the fetched list; on failure both are unchanged; `ok` reports which; selectors reset; invariant kept |
| `Store.Store.ApplyFilters` | app.js:246-265 | criteria become the lower-cased search and the given bounds; visible list is exactly the catalog products meeting all four predicates, in catalog order; selectors reset |
| `Store.Store.ClearFilters` | app.js:267-276 | criteria become the defaults; a catalog within the default bounds is then shown whole |
| `Store.Store.PickedQuantity` | app.js:164-165 | the quantity the product's selector shows, 1 when it was never changed; `Store.Store.UpdateProductQuantity` keeps it at least 1 and `Store.Store.AddToCart` adds it and resets it to 1 |
| `Store.Store.UpdateProductQuantity` | app.js:208-213 | the selector becomes max(1, shown + change), so it never drops below one |
| `Store.ClampQuantity` | app.js:211 | the result is at least 1 and equals the input whenever the input is at least 1 |
| `Store.Store.AddToCart` | app.js:162-184 | an existing line for the id only gains the selector's quantity (cart length unchanged); otherwise exactly one snapshot line of the product is appended; ids stay unique, quantities positive; badge and subtotal rise by exactly the added units and their cost; selector shows 1 |
| `Store.Store.RemoveFromCart` | app.js:186-191 | cart becomes the lines with other ids; absent id leaves it unchanged; present id deletes just that line and lowers badge and subtotal by its share |
| `Store.Store.UpdateCartItemQuantity` | app.js:193-206 | absent id: cart unchanged; otherwise the line's quantity becomes old + change, or the line is removed when that is at most 0; invariant kept |
| `Store.Store.Login` | app.js:420-441 | succeeds iff some account has exactly this e-mail and password, then the session is that account and the page is home; otherwise session and page are unchanged |
| `Store.Store.Signup` | app.js:443-472 | succeeds iff the e-mail is not registered; success appends exactly the new account, logs it in and goes home; failure changes nothing; e-mails stay unique |
| `Store.Store.Logout` | app.js:474-479 | session cleared, page home |
| `Store.Store.NavigateTo` | app.js:290-313 | the page becomes the requested one, except the profile page of an anonymous visitor, which lands on the login page |
| `Store.Landing` | app.js:495-499 | the page differs from the requested one exactly when the profile page is requested without a session, and then it is the login page; so a logged-in visitor asking for the profile gets it |
| `Store.Store.HandleAuthButton` | app.js:399-405 | profile page with a session, login page without |
| `Store.Store.ProceedToCheckout` | app.js:315-328 | anonymous: sent to login; session and empty cart: blocked, page unchanged; session and non-empty cart: checkout page |
| `Store.Store.PlaceOrder` | app.js:331-384 | verdict is the payment check; on acceptance the cart is emptied and the confirmation page shown; on rejection nothing changes |
| `Payment.ValidatePayment` | app.js:341-357 | accepted iff card length >= 13, expiry is digit-digit-slash-digit-digit and CVV length is 3; otherwise the first failing check, in that order, is the one reported |
| `Payment.ExpiryFormatOk` | app.js:348 | `/^\d{2}\/\d{2}$/`: exactly five characters, digits at 0, 1, 3 and 4 and a slash at 2; `Payment.ValidatePayment` reports `InvalidExpiry` exactly when it fails after a passing card check |
| `Payment.IsWhitespace` | app.js:391 | the characters of the `\s` class; `Payment.StripWhitespace` removes exactly these |
| `Payment.StripWhitespace` | app.js:391 | the result has no whitespace, is an order-preserving sub-list of the input and is shorter by exactly the number of whitespace positions, so it is every non-whitespace character in order; a whitespace-free input comes back unchanged |
| `Payment.StripConcat` | app.js:391 | stripping a concatenation strips each part |
| `Payment.StripUndoesGrouping` | app.js:392 | stripping the separators from a grouped number gives back the number |
| `Payment.FormatKeepsCharacters` | app.js:391-392 | formatting keeps every non-whitespace character typed, in order |
| `Payment.FormatIdempotent` | app.js:391-392 | formatting a formatted field changes nothing |
| `Payment.GroupByFourLayout` | app.js:392 | the grouped number has one space after each full block of four that is followed by more characters, at every fifth position, and the input characters everywhere else |
| `Payment.FormattedCardLengthCheck` | app.js:342 | whatever the field held, the length check on the formatted field passes iff it has at least 11 non-whitespace characters |
| `Payment.GroupByFour` | app.js:392 | the `.{1,4}` blocks joined by single spaces; its layout (length, a space at every fifth position, the input elsewhere) is `Payment.GroupByFourLayout` and stripping the spaces restores the input (`Payment.StripUndoesGrouping`) |
| `Payment.FormatCardNumber` | app.js:391-392 | the input handler's new field value; it keeps the typed characters (`Payment.FormatKeepsCharacters`) and is stable under a second keystroke event (`Payment.FormatIdempotent`) |
| `Catalog.FindProduct` | app.js:163 | the first product in catalog order carrying the id, or none exactly when no product has it |
| `Catalog.Categories` | app.js:62 | the facet list; what it holds and in which order is `Catalog.CategoriesSpec` |
| `Catalog.CategoriesOf` | app.js:62 | the category of each product, position by position, in catalog order |
| `Catalog.CategoriesSpec` | app.js:61-62 | facet list starts with `'all'`, then every product's category once, nothing else, in first-seen order |
| `Lists.DistinctSpec` | app.js:62 | de-duplication keeps exactly the input's elements, each once, ordered by first occurrence |
| `Lists.Distinct` | app.js:62 | the `[...new Set(xs)]` de-duplication; `Lists.DistinctSpec` gives its elements, their uniqueness and first-seen order |
| `Lists.FirstIndex` | app.js:62 | the first position holding the element, or the length when none does |
| `Filters.MakeCriteria` | app.js:247-253 | the stored search is `Text.Lower` of the typed search, so it has the same length and no upper-case letter; the other criteria are kept as given |
| `Filters.Matches` | app.js:256-260 | the conjunction of the search, category, price-range and rating predicates; case-blind search is `Filters.SearchIgnoresCase` and the empty search is `Filters.EmptySearchMatchesAll` |
| `Filters.Filter` | app.js:255-262 | the visible list is no longer than the catalog; it is an order-preserving sub-list (`Filters.FilterIsSublist`) holding exactly the matching products (`Filters.FilterMembers`) |
| `Filters.FilterIsSublist` | app.js:255 | the visible list is an order-preserving sub-list of the catalog |
| `Filters.FilterMembers` | app.js:255-262 | a product is visible iff it is in the catalog and meets all four predicates |
| `Filters.FilterIdempotent` | app.js:255-262 | filtering the visible list again with the same criteria gives the same list |
| `Filters.FilterKeepsAll` | app.js:255-262 | when every product meets the criteria the whole catalog is visible |
| `Filters.EmptyPriceRangeHidesAll` | app.js:258 | a minimum price above the maximum hides every product |
| `Filters.EmptySearchMatchesAll` | app.js:256 | with an empty search only the category, price and rating predicates decide |
| `Filters.SearchIgnoresCase` | app.js:246-256 | lower-casing the typed search or the title does not change whether a product matches |
| `Filters.ClearedShowsCatalog` | app.js:267-276 | after clearing, a catalog with prices in [0, 1000] and non-negative ratings is shown whole |
| `Text.LowerChar` | app.js:247 | an upper-case ASCII letter becomes the letter 32 code points later, which is lower-case; every other character is unchanged |
| `Text.Lower` | app.js:247 | lower-casing keeps the length and sends each A–Z letter at every position to its lower-case form, leaving every other character as it was; the result has no upper-case letter and is a fixed point (`Text.LowerIsIdempotent`) |
| `Text.Includes` | app.js:256 | the scanning `includes`; it holds iff the search occurs at some position (`Text.IncludesIffOccurs`) |
| `Text.LowerIsIdempotent` | app.js:247 | a lower-cased string has no upper-case letter and lower-casing it again changes nothing |
| `Text.IncludesIffOccurs` | app.js:256 | `includes` holds iff the search string occurs at some position of the title |
| `Text.IncludedCharsOccur` | app.js:256 | every character of an included string occurs in the including one |
| `Text.EmptyIsIncluded` | app.js:256 | the empty search is included in every title |
| `Cart.FindLine` | app.js:167 | the index of the first line with the id, or none exactly when no line has it |
| `Cart.FoundLineIsOnly` | app.js:194 | with unique ids the line found is the only line for that product |
| `Cart.MergeKeepsInvariant` | app.js:169-170 | raising the found line's quantity keeps it the line found, keeps ids unique and quantities positive |
| `Cart.AppendKeepsInvariant` | app.js:171-179 | appending a line for an absent id makes it the line found and keeps ids unique and quantities positive |
| `Cart.Snapshot` | app.js:172-178 | the line appended for a new product copies its id, title, price and image and carries the selected quantity; `Cart.AppendKeepsInvariant` makes it the line found for the id |
| `Cart.RemoveLine` | app.js:187 | the id filter of the cart; its result is `Cart.RemoveLineSpec`, and with unique ids it deletes just the found line (`Cart.RemoveUniqueLine`) |
| `Cart.RemoveLineSpec` | app.js:187 | removal keeps exactly the lines with other ids, as an order-preserving sub-list |
| `Cart.RemoveAbsentIsNoop` | app.js:187 | removing an absent id leaves the cart unchanged |
| `Cart.RemoveIdempotent` | app.js:187 | removing twice equals removing once |
| `Cart.RemoveUniqueLine` | app.js:186-200 | with unique ids removal deletes just the found line, keeping the others in order |
| `Cart.RemoveKeepsInvariant` | app.js:187 | removal keeps ids unique and quantities positive |
| `Cart.ItemCount` | app.js:217 | the badge's sum of quantities; it counts units (`Cart.BadgeCountsUnits`) and adds up over concatenation (`Cart.SumsOfConcat`) |
| `Cart.LineTotal` | app.js:242 | one line's price times its quantity; `Cart.Subtotal` adds these up and `Cart.SumsOfUpdate`/`Cart.SumsOfDelete` shift by them |
| `Cart.Subtotal` | app.js:242 | the sum of price times quantity; non-negative (`Cart.SubtotalNonNegative`) and additive (`Cart.SumsOfConcat`) |
| `Cart.SumsOfConcat` | app.js:215-243 | badge count and subtotal add up over concatenated carts |
| `Cart.SumsOfUpdate` | app.js:169-197 | changing one line changes badge and subtotal by that line's difference only |
| `Cart.SumsOfDelete` | app.js:187 | deleting a line lowers badge and subtotal by exactly its share |
| `Cart.BadgeCountsUnits` | app.js:215-219 | the badge counts units: at least the number of lines, equal only when every line has quantity 1 |
| `Cart.SubtotalNonNegative` | app.js:241-243 | non-negative prices give a non-negative subtotal |
| `Cart.Summarize` | app.js:221-229 | subtotal is the sum of price times quantity, tax is a tenth of it, total is 1.1 times it, all zero for an empty cart |
| `Auth.EmailTaken` | app.js:451 | some registered account has the e-mail; `Store.Store.Signup` is refused exactly when it holds and `Auth.SignupKeepsEmailsUnique` relies on its negation |
| `Auth.FindUser` | app.js:426 | finds a registered account with exactly this e-mail and password, or none exactly when there is no such account |
| `Auth.SignupKeepsEmailsUnique` | app.js:451-460 | appending an account whose e-mail is not taken keeps e-mails unique |
| `Auth.LoginFindsOwnAccount` | app.js:426 | with unique e-mails an account's own credentials find that very account |
| `Scenarios.RedSearchKeepsShirt` | app.js:255-262 | searching "red" keeps the product titled "Red Shirt" |
| `Scenarios.BlueSearchHidesShirt` | app.js:255-262 | searching "blue" hides it |

## Left out

- DOM rendering is not modelled. This covers `renderProducts`, `renderCart`,
  `renderCheckout`, the summary text, `updateFilterCount`, `updatePriceDisplay`,
  `updateAuthButton`, `switchAuthTab`, the inline error messages and form
  resets. These only write to the display. The values they show are the model's
  functions: `Cart.ItemCount`, `Cart.Summarize`, `Catalog.Categories`, `Filters.Filter`.
- The network request in `loadProducts` is not modelled. Its outcome is the
  parameter `fetched`, and the loading/error indicators are the `ok` result.
- `showToast` and its timers, and `toggleDarkMode`, are left out. They are
  display-only.
- The order id (`Math.random`) and the delivery date (`Date`, locale formatting)
  are left out. They are random or clock-dependent and only displayed.
  `placeOrder` also reads the name, e-mail and address fields without checking
  them, so they are not parameters.
- `parseInt`/`parseFloat` of input values and their NaN results are not
  modelled. Handlers take the parsed numbers.
- Floating-point money and `toFixed(2)` rounding are not modelled. Money is
  exact.
- `Text.Lower` lower-cases ASCII letters only. JavaScript's `toLowerCase`
  follows Unicode.
- String lengths count Dafny characters, not UTF-16 code units.
- `Store.Store.NavigateTo` takes a page of the enumeration. The source's branch
  for an unknown page name (no element found, nothing changes) cannot arise.
- The event-listener registrations are left out. Only the grouping expression
  they run is modelled (`Payment.FormatCardNumber`).
