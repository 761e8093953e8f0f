# Storefront core: cart, catalog, display mode and quote checkout

A Dafny model of the logic inside a React storefront that sells graduation
and promotional articles. The model covers four pieces:

- **The cart store** (`src/context/CartContext.tsx`). This is a list of line
  items with four operations: add, update quantity, remove and clear. It also
  has a derived total and a sanitiser that rebuilds the list from local
  storage when the page loads. Each operation is a pure function on
  `seq<CartItem>`. The class `Cart.CartStore` holds the current list and the
  last value written to storage, and its methods apply those functions. The
  intended invariant `Cart.Valid` says that every quantity is at least 1 and
  that there is at most one item per id.
- **The catalog pipeline** (`src/pages/CatalogPage.tsx`). It covers the
  lead-time parser, the five filter stages (category, badge, price bucket,
  availability, lead-time cap) and the comparator sort with its four orders.
  The sort is modelled as a stable insertion sort over a rank, as JavaScript's
  `Array.prototype.sort` is stable. The badge toggle and the mode → category
  effect are modelled too.
- **The display-mode store** (`src/context/ThemeContext.tsx`). It covers the
  two modes, validated loading from storage, the toggle and the set. The class
  `Theme.ModeStore` holds the mode and the persisted string.
- **The quote-request page** (`src/pages/CartPage.tsx`). It covers the
  quantity buttons and input, the contact form with its three validators and
  the submit handler. The class `Checkout.QuotePage` holds the form, the
  errors, the status banner and the `submitted` flag. It shares a
  `Cart.CartStore` with the rest of the page.

The modules are:

| Module | File | Contents |
|---|---|---|
| `Products` | `products.dfy` | Record types from `src/data/types.ts` and a fixture from `src/data/products.ts` |
| `Seqs` | `seqs.dfy` | `filter` and `map`, with their facts |
| `Sorting` | `sorting.dfy` | The stable sort |
| `Text` | `text.dfy` | `\d`, `\s` and `trim` |
| `Cart` | `cart.dfy` | The cart store |
| `Theme` | `theme.dfy` | The display-mode store |
| `Catalog` | `catalog.dfy` | The catalog pipeline |
| `Checkout` | `checkout.dfy` | The quote-request page |

Storage is a parameter:

- `hasWindow` says whether `window` exists.
- The cart key's value is given already parsed, as `Cart.StoredCart`.
- The mode key's value is an `Option<string>`.
- A React effect that writes storage after each state change is modelled as
  part of the method that changes that state. The ghost predicate `Saved`
  (storage holds the serialised cart) is established by the constructors and
  preserved by every method.

## Model

| member | source | states |
|---|---|---|
| Seqs.Filter | src/pages/CatalogPage.tsx:45 | `filter` keeps exactly the elements that satisfy the predicate: every kept element is in the input and satisfies it, and every satisfying input element is kept |
| Seqs.FilterSubMultiset | src/pages/CatalogPage.tsx:45 | a filter keeps each element at most as often as the input has it |
| Seqs.Map | src/context/CartContext.tsx:65-67 | `map` keeps the length and applies the function at every position |
| Seqs.FilterAppend | src/pages/CatalogPage.tsx:45 | filtering distributes over concatenation, so input order is kept |
| Seqs.FilterMember | src/context/CartContext.tsx:84 | an element is kept if and only if it is in the input and satisfies the predicate |
| Seqs.FilterKeepsAll | src/context/CartContext.tsx:79 | a filter that every element passes returns the input unchanged |
| Seqs.FilterNone | src/context/CartContext.tsx:84 | a filter that no element passes returns the empty list |
| Seqs.FilterTwice | src/pages/CatalogPage.tsx:45-64 | two filters in a row equal one filter by the conjunction |
| Seqs.FilterMonotone | src/pages/CatalogPage.tsx:45-64 | a weaker predicate keeps a super-multiset of the elements, and no fewer of them |
| Seqs.FilterDistinctKeys | src/context/CartContext.tsx:79 | elements with pairwise different keys still have pairwise different keys after filtering |
| Sorting.Insert | src/pages/CatalogPage.tsx:66-77 | one insertion step adds exactly the new element (multiset) |
| Sorting.SortBy | src/pages/CatalogPage.tsx:66-77 | the sort returns a permutation of its input (same length, same multiset) |
| Sorting.InsertSorted | src/pages/CatalogPage.tsx:66-77 | inserting into a sorted list keeps it sorted |
| Sorting.SortSorted | src/pages/CatalogPage.tsx:66-77 | the sort's output is non-decreasing by rank |
| Sorting.SortSameElements | src/pages/CatalogPage.tsx:66-77 | every input element is in the output and every output element is in the input |
| Sorting.InsertStable | src/pages/CatalogPage.tsx:66-77 | inserting puts the new element after every element of equal rank |
| Sorting.SortStable | src/pages/CatalogPage.tsx:66-77 | for each rank, the elements of that rank appear in the output in their input order (stability) |
| Sorting.InsertTie | src/pages/CatalogPage.tsx:74-75 | inserting an element tied with all the others appends it |
| Sorting.SortAllTied | src/pages/CatalogPage.tsx:74-75 | when the comparator ties every pair (`default: return 0`), the order is unchanged |
| Sorting.SortPair | src/pages/CatalogPage.tsx:66-77 | two elements are swapped exactly when the second ranks strictly lower |
| Text.TrimStartFacts | src/pages/CartPage.tsx:57 | `trimStart` removes a white-space prefix and leaves a suffix that does not start with white space |
| Text.TrimEndFacts | src/pages/CartPage.tsx:57 | `trimEnd` removes a white-space suffix and leaves a prefix that does not end with white space |
| Text.TrimEnds | src/pages/CartPage.tsx:57 | a trimmed string is empty, or neither starts nor ends with white space |
| Text.TrimSlice | src/pages/CartPage.tsx:57 | the trimmed string is a slice of the original, and everything cut off on either side is white space |
| Text.BlankIffAllSpace | src/pages/CartPage.tsx:57 | `!s.trim()` holds if and only if every character of `s` is white space |
| Text.TrimIdempotent | src/pages/CartPage.tsx:57 | `trim` is idempotent: trimming a trimmed string changes nothing (a property of the `trim` the validator applies, not a second trim in the code) |
| Cart.ItemAdded | src/context/CartContext.tsx:61-71 | with the id present, only that item's quantity goes up by 1 and length, order and products stay; with the id absent, the product is appended with quantity 1 after the unchanged earlier items |
| Cart.Clamp | src/context/CartContext.tsx:77 | `Math.max(0, Math.floor(q))`: never negative; 0 exactly when q < 1; otherwise the largest whole number not above q |
| Cart.QuantityUpdated | src/context/CartContext.tsx:73-81 | the result is no longer than the input, has only positive quantities, and keeps every positive item of another id (the full effect is `Cart.QuantityUpdatedEffect`) |
| Cart.ItemRemoved | src/context/CartContext.tsx:83-85 | no item with the id is left, every item of another id is kept, and nothing new appears |
| Cart.TotalOf | src/context/CartContext.tsx:91-94 | `reduce` of price × quantity from 0; non-negative when prices and quantities are |
| Cart.AmountOneMore | src/context/CartContext.tsx:92 | one more unit adds exactly the price to the line's amount |
| Cart.Sanitise | src/context/CartContext.tsx:39-42 | the surviving entries have a non-empty id and a positive quantity, and there are no more of them than stored entries |
| Cart.InitialCart | src/context/CartContext.tsx:29-47 | no window, a missing or empty value, a parse failure or a non-array all give `[]`; an array gives `Sanitise` of its entries, no more of them than stored, all with positive quantities |
| Cart.Serialize | src/context/CartContext.tsx:58 | the stored array has one entry per item |
| Cart.SanitiseSnoc | src/context/CartContext.tsx:39-42 | appending a stored entry appends its item exactly when it survives, so stored order is kept |
| Cart.SanitiseSerialized | src/context/CartContext.tsx:29-58 | loading what was saved gives back exactly the saved items that have a non-empty id and a positive quantity, in order |
| Cart.SaveThenLoad | src/context/CartContext.tsx:29-58 | save then load is the identity if and only if every item has a positive quantity and a non-empty id |
| Cart.SanitiseKeepsDuplicateIds | src/context/CartContext.tsx:39-42 | the sanitiser lets two entries with the same id through, so unique ids are not established on load |
| Cart.SanitiseDropsInvalidEntries | src/context/CartContext.tsx:39-42 | entries with a non-positive quantity or an empty id are dropped |
| Cart.ItemAddedValid | src/context/CartContext.tsx:61-71 | adding preserves `Valid` |
| Cart.QuantityUpdatedValid | src/context/CartContext.tsx:73-81 | on a list with unique ids, updating gives a valid list, and its filter removes the zero quantities |
| Cart.ItemRemovedValid | src/context/CartContext.tsx:83-85 | removing preserves `Valid` |
| Cart.WithQuantityAt | src/context/CartContext.tsx:76-78 | with unique ids, the map stage changes only the item with the id, and sets it to the clamped quantity |
| Cart.QuantityUpdatedOverwrites | src/context/CartContext.tsx:73-81 | the old quantity of the item being updated does not affect the result |
| Cart.FilterPositiveReplaced | src/context/CartContext.tsx:79 | after one item of a positive list is replaced, the filter keeps the list, or drops exactly that item when its quantity is not positive |
| Cart.QuantityUpdatedAt | src/context/CartContext.tsx:73-81 | on a valid cart, the item with the id gets the clamped quantity in place, or is removed when that is 0; every other item keeps its value and position |
| Cart.QuantityUpdatedSame | src/context/CartContext.tsx:73-81 | on a valid cart (unique ids, positive quantities), requesting the quantity an item already has changes nothing |
| Cart.QuantityUpdatedToZero | src/context/CartContext.tsx:73-81 | on a cart of positive quantities, a request that clamps to 0 removes every item with the id and nothing else, which is exactly removeItem |
| Cart.QuantityUpdatedEffect | src/context/CartContext.tsx:73-81 | on any cart of positive quantities, duplicate ids included: a request clamping to 0 equals removeItem; otherwise the length is kept and every item with the id, at its own position, gets the clamped quantity while every other item is unchanged |
| Cart.ItemAddedPositive | src/context/CartContext.tsx:61-71 | adding keeps every quantity at least 1 |
| Cart.ItemRemovedPositive | src/context/CartContext.tsx:83-85 | removing keeps every quantity at least 1 |
| Cart.QuantityUpdatedUnknown | src/context/CartContext.tsx:73-81 | on a cart of positive quantities, updating an unknown id changes nothing |
| Cart.ItemRemovedUnknown | src/context/CartContext.tsx:83-85 | removing an unknown id changes nothing |
| Cart.TotalAppend | src/context/CartContext.tsx:91-94 | the total is additive over concatenation |
| Cart.TotalReplaceAt | src/context/CartContext.tsx:91-94 | replacing one line changes the total by the difference of the two lines' amounts |
| Cart.ItemAddedAt | src/context/CartContext.tsx:62-68 | with unique ids, adding a present product is an in-place raise of that one item by 1 |
| Cart.ItemAddedTotal | src/context/CartContext.tsx:61-94 | with unique ids, adding a product raises the total by one unit price: the stored item's price when the product is present, the product's price otherwise |
| Cart.ItemAddedTotalAt | src/context/CartContext.tsx:61-94 | with unique ids, adding a present product raises the total by the stored item's price |
| Cart.AddToEmptyCart | src/context/CartContext.tsx:61-94 | adding the Birrete Signature to an empty cart gives one unit and a total of 14990 |
| Cart.AddAgain | src/context/CartContext.tsx:61-94 | adding it again gives two units and a total of 29980 |
| Cart.UpdateToZeroEmptiesCart | src/context/CartContext.tsx:73-81 | updating the only item to 0 empties the cart |
| Cart.CartStore.constructor | src/context/CartContext.tsx:54-59 | the initial list is `getInitialCart`'s, all its quantities are positive, and with a window it is written back at once |
| Cart.CartStore.Save | src/context/CartContext.tsx:56-59 | with a window, storage holds the serialised list; without one, storage is untouched |
| Cart.CartStore.AddItem | src/context/CartContext.tsx:61-71 | the list becomes `ItemAdded` of the old one, is saved, stays valid, and keeps its quantities positive |
| Cart.CartStore.UpdateQuantity | src/context/CartContext.tsx:73-81 | the list becomes `QuantityUpdated` of the old one, is saved, stays valid, and has only positive quantities |
| Cart.CartStore.RemoveItem | src/context/CartContext.tsx:83-85 | the list becomes `ItemRemoved` of the old one, is saved, stays valid, and keeps its quantities positive |
| Cart.CartStore.ClearCart | src/context/CartContext.tsx:87-89 | the list becomes empty, valid (so trivially of positive quantities) and totals 0, and is saved |
| Theme.ModeName | src/context/ThemeContext.tsx:4 | a mode's stored name is "graduation" or "corporate" |
| Theme.InitialMode | src/context/ThemeContext.tsx:16-27 | the mode is corporate exactly when there is a window and the stored string is "corporate"; an exact stored name is returned as is; anything else, or no window, gives graduation |
| Theme.Toggled | src/context/ThemeContext.tsx:46 | the toggle always changes the mode |
| Theme.ToggleTwice | src/context/ThemeContext.tsx:46 | toggling twice is the identity |
| Theme.SavedModeReloads | src/context/ThemeContext.tsx:21-39 | loading a written mode name gives the same mode back |
| Theme.ModeStore.Reloads | src/context/ThemeContext.tsx:16-40 | in any saved state with a window, a reload restores the current mode |
| Theme.ModeStore.constructor | src/context/ThemeContext.tsx:34-40 | the initial mode is `getInitialMode`'s, and with a window it is written at once |
| Theme.ModeStore.Save | src/context/ThemeContext.tsx:36-40 | with a window, storage holds the mode's name; without one, storage is untouched |
| Theme.ModeStore.SetMode | src/context/ThemeContext.tsx:34-45 | after `setMode(m)` the mode is m, and it is saved |
| Theme.ModeStore.ToggleMode | src/context/ThemeContext.tsx:46 | the mode becomes the other one, and it is saved |
| Catalog.FirstRunNone | src/pages/CatalogPage.tsx:40-41 | the regex finds no match if and only if the string has no ASCII digit |
| Catalog.ParseLeadTimeInfinite | src/pages/CatalogPage.tsx:38-42 | the result is `Infinite` if and only if the lead time is missing or has no digit (the empty string has none) |
| Catalog.FirstRunAt | src/pages/CatalogPage.tsx:40-41 | the value is read from the first digit in the string, wherever it stands |
| Catalog.LeadingValueStops | src/pages/CatalogPage.tsx:40-41 | reading stops at the end of the digit run, so the match is maximal |
| Catalog.LeadingValueSnoc | src/pages/CatalogPage.tsx:41 | each further digit multiplies the value by 10 and adds that digit |
| Catalog.LeadingValueIsDecimal | src/pages/CatalogPage.tsx:41 | the value read is the exact decimal value of the digit run (what `Number(match[1])` gives for runs whose value is below 2^53) |
| Catalog.ParseFirstRun | src/pages/CatalogPage.tsx:38-42 | when the first digit of the text stands at k and the digit run from there ends at m, the lead time is the decimal value of that run |
| Catalog.ParseEntregaDays | src/pages/CatalogPage.tsx:38-42 | "Entrega dd días" parses to the two-digit number dd |
| Catalog.BirreteLeadTime | src/pages/CatalogPage.tsx:38-42 | "Entrega 10 días" parses to 10 |
| Catalog.StoleLeadTime | src/pages/CatalogPage.tsx:38-42 | "Entrega 15 días" parses to 15 |
| Catalog.TunicaLeadTime | src/pages/CatalogPage.tsx:38-42 | "Entrega 20 días" parses to 20 |
| Catalog.ParseFindsInnerDigits | src/pages/CatalogPage.tsx:40 | the digit run need not lead: "x7" parses to 7 |
| Catalog.ByCategory | src/pages/CatalogPage.tsx:45 | exactly the products of the selected category are kept |
| Catalog.ByBadge | src/pages/CatalogPage.tsx:46-50 | an empty badge list keeps everything; otherwise exactly the products whose badge is listed are kept |
| Catalog.ByPrice | src/pages/CatalogPage.tsx:51-56 | exactly the products whose price lies in the bucket are kept |
| Catalog.ByAvailability | src/pages/CatalogPage.tsx:57-60 | 'all' keeps everything; otherwise exactly the products with that availability are kept, and one without availability is dropped |
| Catalog.ByLeadTime | src/pages/CatalogPage.tsx:61-64 | 'all' keeps everything; a cap keeps exactly the products whose parsed lead time is within it, so `Infinite` is always dropped |
| Catalog.CategoryStage | src/pages/CatalogPage.tsx:45 | the category stage is a filter by its predicate |
| Catalog.BadgeStage | src/pages/CatalogPage.tsx:46-50 | the badge stage, including its `length ? … : byCategory` shortcut, is a filter by its predicate |
| Catalog.PriceStage | src/pages/CatalogPage.tsx:51-56 | the price stage is a filter by its predicate |
| Catalog.AvailabilityStage | src/pages/CatalogPage.tsx:57-60 | the availability stage, including its 'all' shortcut, is a filter by its predicate |
| Catalog.LeadTimeStage | src/pages/CatalogPage.tsx:61-64 | the lead-time stage, including its 'all' shortcut, is a filter by its predicate |
| Catalog.FilterSame | src/pages/CatalogPage.tsx:45-64 | filters by predicates that agree on the list give the same result |
| Catalog.StagedIsOneFilter | src/pages/CatalogPage.tsx:44-64 | the five stages in a row equal one filter by the conjunction of the five predicates |
| Catalog.FilteredMembers | src/pages/CatalogPage.tsx:44-79 | the sorted pipeline's output has exactly the matching catalog products, and no more products than the catalog |
| Catalog.FilteredProducts | src/pages/CatalogPage.tsx:44-79 | every output product is a matching catalog product, every matching catalog product is output, and the output is no longer than the catalog |
| Catalog.FilteredSubMultiset | src/pages/CatalogPage.tsx:44-79 | the output is a reordering of a subsequence of the catalog (sub-multiset) |
| Catalog.FilteredIsSortedFilter | src/pages/CatalogPage.tsx:44-79 | the output is the stable sort of one filter of the catalog |
| Catalog.FilteredStages | src/pages/CatalogPage.tsx:44-64 | every output product has the selected category, a listed badge when badges are selected, a price in the bucket, the selected availability, and a finite lead time within the cap |
| Catalog.RelevanceKeepsCatalogOrder | src/pages/CatalogPage.tsx:74-75 | 'relevance' keeps the post-filter catalog order |
| Catalog.PriceAscOrder | src/pages/CatalogPage.tsx:68-69 | 'price-asc' output is non-decreasing by price |
| Catalog.PriceDescOrder | src/pages/CatalogPage.tsx:70-71 | 'price-desc' output is non-increasing by price |
| Catalog.LeadTimeOrder | src/pages/CatalogPage.tsx:72-73 | 'lead-time' output is non-decreasing by parsed lead time, with `Infinite` last |
| Catalog.LeadRankLe | src/pages/CatalogPage.tsx:72-73 | the comparator's sign on two lead times agrees with the order on lead times, with Infinite − Infinite (NaN) counted as a tie |
| Catalog.TiesKeepCatalogOrder | src/pages/CatalogPage.tsx:66-77 | in every order, products that compare equal keep their catalog order |
| Catalog.Narrower | src/pages/CatalogPage.tsx:44-79 | a stricter set of filters gives a sub-multiset of the products and no more of them |
| Catalog.LowerCapNarrows | src/pages/CatalogPage.tsx:61-64 | lowering the lead-time cap never enlarges the result |
| Catalog.CapNarrows | src/pages/CatalogPage.tsx:61-64 | any cap gives no more products than 'all' |
| Catalog.BadgesNarrow | src/pages/CatalogPage.tsx:46-50 | any badge selection gives no more products than no selection |
| Catalog.PriceRangeNarrows | src/pages/CatalogPage.tsx:51-56 | any bucket gives no more products than 'all' |
| Catalog.AvailabilityNarrows | src/pages/CatalogPage.tsx:57-60 | any availability gives no more products than 'all' |
| Catalog.OtherCategory | src/pages/CatalogPage.tsx:45 | a product of another category never matches |
| Catalog.FirstThreeOfSix | src/pages/CatalogPage.tsx:45 | in a six-product catalog whose last three are of another category, only the first three can survive |
| Catalog.Within15Filter | src/pages/CatalogPage.tsx:44-64 | with graduation products of 15, 10 and 20 days, a 15-day cap keeps the first two in catalog order |
| Catalog.Within15Order | src/pages/CatalogPage.tsx:44-79 | sorted 'price-asc', the cheaper of those two comes first |
| Catalog.GraduationWithin15Example | src/pages/CatalogPage.tsx:44-79 | on the fixture catalog, 'graduaciones' with a 15-day cap sorted 'price-asc' gives the Birrete Signature, then the Estola Magna |
| Catalog.BadgeAddedWidens | src/pages/CatalogPage.tsx:46-50 | adding a badge to a non-empty selection never shrinks the result (badges are ORed) |
| Catalog.NewOnlyFilter | src/pages/CatalogPage.tsx:46-50 | with badges {Nuevo}, only the Nuevo product of the category survives |
| Catalog.NewOrTopFilter | src/pages/CatalogPage.tsx:46-50 | with badges {Nuevo, Top ventas}, both the Top ventas and the Nuevo products survive |
| Catalog.SecondBadgeWidens | src/pages/CatalogPage.tsx:44-79 | on the fixture catalog, going from {Nuevo} to {Nuevo, Top ventas} widens the result from one product to two |
| Catalog.BadgeToggled | src/pages/CatalogPage.tsx:32-36 | the toggle flips whether the badge is selected and leaves every other badge's membership as it was |
| Catalog.BadgeToggledKeepsOthers | src/pages/CatalogPage.tsx:32-36 | apart from the toggled badge, the list keeps its entries in their order |
| Catalog.BadgeToggledTwice | src/pages/CatalogPage.tsx:32-36 | toggling twice restores membership |
| Catalog.PreferredCategory | src/pages/CatalogPage.tsx:83 | graduation mode prefers 'graduaciones', and the other mode prefers 'marketing' |
| Catalog.CategoryForMode | src/pages/CatalogPage.tsx:82-85 | after a mode change, the selected category is the mode's preferred one |
| Checkout.FoundQuantityFirst | src/pages/CartPage.tsx:29 | the quantity found is that of the first item with the id |
| Checkout.FoundQuantityAbsent | src/pages/CartPage.tsx:29 | without an item of that id, the current quantity counts as 0 |
| Checkout.FoundQuantityAt | src/pages/CartPage.tsx:29 | with unique ids, the quantity found is that of the one item with the id |
| Checkout.ButtonRequest | src/pages/CartPage.tsx:29-30 | the request is `max(0, current + delta)`: never negative, at least `current + delta`, and 0 or exactly `current + delta` |
| Checkout.ClampWhole | src/context/CartContext.tsx:77 | the cart's floor-and-clamp keeps a whole, non-negative request unchanged |
| Checkout.ButtonOnItem | src/pages/CartPage.tsx:28-32 | on a valid cart, a button with step delta sets the item's quantity to `quantity + delta` in place, or removes the item when that is not positive |
| Checkout.ButtonEffect | src/pages/CartPage.tsx:28-32 | on any cart of positive quantities, duplicate ids included: a request of 0 removes every item with the id; otherwise every item with the id gets the requested quantity at its own position and the others are unchanged |
| Checkout.ButtonOnUnknown | src/pages/CartPage.tsx:28-32 | a button for an id not in the cart changes nothing |
| Checkout.PlusOnItem | src/pages/CartPage.tsx:28-32 | on a valid cart, the + button raises the item's quantity by 1 |
| Checkout.MinusOnItem | src/pages/CartPage.tsx:28-32 | on a valid cart, the − button lowers a quantity of 2 or more by 1 |
| Checkout.FoundAfterRaise | src/pages/CartPage.tsx:29 | on a valid cart, after a raise by one, the current quantity read is the raised one |
| Checkout.MinusAfterRaise | src/pages/CartPage.tsx:28-32 | on a valid cart, the − button undoes a raise by one |
| Checkout.PlusThenMinus | src/pages/CartPage.tsx:28-32 | on a valid cart, + then − on the same item gives the cart back |
| Checkout.InputRequest | src/pages/CartPage.tsx:34-38 | NaN requests nothing; a number requests `max(0, value)`, which is never negative |
| Checkout.InputRequestSameUpdate | src/pages/CartPage.tsx:37 | the `max(0, ·)` in front of updateQuantity does not change its effect, since the cart clamps at 0 anyway |
| Checkout.Set | src/pages/CartPage.tsx:42 | editing sets the named field and leaves the other three as they were |
| Checkout.AllPlainIff | src/pages/CartPage.tsx:54 | the left-to-right scan agrees with "every character is `[^\s@]`" |
| Checkout.HasDotIff | src/pages/CartPage.tsx:54 | the scan finds a '.' if and only if the string has one |
| Checkout.DotInsideIff | src/pages/CartPage.tsx:54 | the domain has a '.' strictly inside it, with characters on both sides, if and only if the check holds |
| Checkout.IndexOfIsFirst | src/pages/CartPage.tsx:54 | the index found is the first occurrence, or the length when there is none |
| Checkout.IndexOfAt | src/pages/CartPage.tsx:54 | the first occurrence is the index found |
| Checkout.EmailPatternIsValid | src/pages/CartPage.tsx:54 | every string the regex matches is accepted by the check |
| Checkout.EmailValidIsPattern | src/pages/CartPage.tsx:54 | every string the check accepts is matched by the regex |
| Checkout.EmailPatternAt | src/pages/CartPage.tsx:54 | a split at '@' and '.' into three non-empty `[^\s@]+` parts is a regex match |
| Checkout.EmailPatternIff | src/pages/CartPage.tsx:54 | the check accepts exactly the strings `/^[^\s@]+@[^\s@]+\.[^\s@]+$/` matches |
| Checkout.EmailValidShape | src/pages/CartPage.tsx:54 | an accepted email has no white space and exactly one '@' |
| Checkout.PhonePatternIff | src/pages/CartPage.tsx:55 | the check accepts exactly the strings `/^\+?\d[\d .-]{7,}$/` matches |
| Checkout.PhoneValidShape | src/pages/CartPage.tsx:55 | an accepted phone has at least 8 characters, starts with '+' or a digit, and continues with digits, spaces, '.' and '-' only |
| Checkout.Validated | src/pages/CartPage.tsx:52-72 | there is a name error if and only if the trimmed name is empty; an email error if and only if the trimmed email is empty (required) or fails the regex (invalid); a phone error if and only if the trimmed phone is non-empty and fails the regex; never an error for the message; each error carries its fixed text |
| Checkout.ValidatedMessages | src/pages/CartPage.tsx:57-69 | every error text is non-empty |
| Checkout.ValidatedEmptyIff | src/pages/CartPage.tsx:81-83 | there are no errors if and only if the name is non-blank, the email is non-blank and valid, and the phone is blank or valid |
| Checkout.BlankEmailRequired | src/pages/CartPage.tsx:61-62 | an all-white-space email gets the "required" error |
| Checkout.BlankPhoneAccepted | src/pages/CartPage.tsx:67 | an all-white-space phone gets no error |
| Checkout.ErrorCleared | src/pages/CartPage.tsx:43-48 | the edited field's error goes when it has a non-empty message; every other field's error stays, unchanged |
| Checkout.StatusAfterEdit | src/pages/CartPage.tsx:49 | an error banner is cleared and any other banner stays |
| Checkout.QuotePage.constructor | src/pages/CartPage.tsx:19-24 | the page starts with the empty form, no errors, no banner and `submitted` false |
| Checkout.QuotePage.HandleQuantityButton | src/pages/CartPage.tsx:28-32 | the cart becomes the button's update of the old one, is saved, stays valid, and has only positive quantities |
| Checkout.QuotePage.HandleQuantityInput | src/pages/CartPage.tsx:34-38 | NaN leaves the cart and storage untouched; a number updates the cart with `max(0, value)`, which is saved and leaves only positive quantities; storage stays in step with the cart in both cases, and the cart stays valid |
| Checkout.QuotePage.HandleInputChange | src/pages/CartPage.tsx:40-50 | only the edited field changes, only its error is removed, an error banner is cleared, and the page stays well formed |
| Checkout.QuotePage.HandleSubmit | src/pages/CartPage.tsx:74-94 | an empty cart sets the "add products" error and changes nothing else; validation errors are stored with the "review fields" error and the cart is kept; otherwise errors are cleared, the success banner is shown, `submitted` is set, the cart is emptied and saved, and the form is reset; in every branch storage stays in step with the cart |

## Left out

- JSX rendering, the page layout, `console.warn`, the analytics pushes to
  `window.dataLayer` and the add-to-cart feedback timer are left out. They have
  no state that the logic reads.
- `window.localStorage`, `JSON.parse` and `JSON.stringify` are abstract.
  - The cart key's value is given already parsed, as `Cart.StoredCart`.
  - The mode key's value is an `Option<string>`.
  - `document.documentElement.dataset.themeMode` is not modelled.
  - React's scheduling of effects, `useMemo` and `useCallback` is not modelled.
    An effect's write happens inside the method that changes the state.
- Cart.InitialCart: stored quantities are whole numbers in the model. A
  fractional stored quantity such as 0.5, which the sanitiser accepts, cannot be
  represented, and neither can NaN or Infinity.
- Cart.CartStore.constructor: the mount effect writes the loaded list back to
  storage immediately. This follows the code at lines 56-59 rather than a
  reading in which nothing is written before the first change.
- Cart.Sanitise: a stored entry is a well-typed product with a quantity. The
  sanitiser checks only a truthy id and a positive numeric quantity, so an
  entry without a price (which makes `total` NaN) or with a truthy non-string
  id such as 5 survives in the code but cannot be represented here.
- Storage failures are not modelled. `getInitialMode` reads storage outside
  any `try`, and both persistence effects write without one, so a storage that
  throws (disabled, or over quota) makes the provider fail. Theme.InitialMode,
  Cart.CartStore.Save and Theme.ModeStore.Save always succeed.
- Catalog.LeadingValueIsDecimal: lead times are exact naturals. In the code
  `Number(match[1])` is a double, so a digit run above 2^53 is rounded and one
  of about 309 digits or more becomes Infinity; such runs can tie in the
  'lead-time' sort, or tie with a missing lead time, in the code but not here.
- Prices and quantities are `int`. JavaScript's double arithmetic, with its
  rounding and overflow, is not modelled. The requested quantity of
  updateQuantity is a `real`, so that `Math.floor` is visible.
- Checkout.QuotePage.HandleQuantityInput: `Number(event.target.value)` is not
  modelled. The input arrives already converted, with `None` for NaN. The
  conversion's rules (the empty string gives 0, white space is trimmed, and so
  on) are left out.
- Checkout.Field: only the four named inputs of the form are keys. An input
  with any other `name` attribute cannot be represented.
- `formatCurrency` (`src/utils/format`) is not part of this model, because it
  only formats the total for display.
- Products.Fixture: the fixture keeps the id, name, price, category, lead time
  and badge of each catalog entry. The descriptive texts, image addresses and
  other optional fields are left empty or absent.
- The sort is modelled as an insertion sort with its stability proved. The
  engine's actual algorithm is not modelled, but a stable sort by a consistent
  comparator has only one possible result.
- Behaviour that differs from what the page's intent suggests follows the code:
  - The sanitiser accepts any positive numeric quantity and keeps duplicate ids
    (`Cart.SanitiseKeepsDuplicateIds`). The lemmas that require a valid cart
    or unique ids (`Checkout.PlusThenMinus`, `Cart.ItemAddedTotal` and the
    others whose rows say so) do not cover such a loaded cart; on it, + then −
    can change the cart and adding can raise the total by more than one
    price. `Cart.QuantityUpdatedEffect` and `Checkout.ButtonEffect` do cover it.
  - `parseLeadTime` takes the first digit run anywhere in the string
    (`Catalog.ParseFindsInnerDigits`).
  - Adding a second badge can widen the catalog result
    (`Catalog.SecondBadgeWidens`).
