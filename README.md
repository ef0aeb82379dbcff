# Botika RBT storefront: menu card, menu search and checkout, in Dafny

This project models the logic in three React components of the Botika RBT storefront:

- **The menu item card** (`MenuItemCard.tsx`). It defines `calculatePrice`, the unit price of an
  item from its effective or base price, the chosen size variation and the counted add-ons, although
  nothing calls it and the card shows no price. It keeps the add-on
  selection under the remove / replace / append rule of `updateAddOnQuantity`. When adding to the
  cart, it flattens the counted selection into one add-on per unit. It groups the catalogue
  add-ons by category and chooses which button to show (Unavailable, Added, Customize, Add).
- **The menu** (`Menu.tsx`). Its search keeps the items whose lower-cased name or description
  contains the trimmed, lower-cased query, then drops later items with an already seen
  lower-cased name. It reads the catalogue id back out of a cart line id, in both the
  `:::CART:::` format and the older `-` format. It sums the quantities of the cart lines holding
  the item's plain configuration. Its `onUpdateQuantity` closure decides whether a quantity
  change updates the first such line, adds the item, or does nothing.
- **The checkout** (`Checkout.tsx`). It appends three built-in payment methods after the fetched
  ones and looks up the chosen method. It checks whether the details form is complete and models
  the two-step details/payment flow. It also builds the order text that is sent to the messaging
  link, with its one line per cart line.

The modules are:

- `Wrappers`: `Option`.
- `Seqs`: subsequences, `Filter`, and keep-first-by-key.
- `Text`: the JavaScript string operations the components use, namely `trim`, ASCII
  `toLowerCase`/`toUpperCase`, `includes`, `indexOf`, `join`/`split` and decimal digits.
- `Catalog`: the records the components receive.
- `MenuItemCard`, `Menu` and `Checkout`: one module per component.

The state each component updates in place is a class:

- `MenuItemCard.Card` holds the dialog flag, the chosen variation and the add-on selection.
  `Card.Valid()` says the selection has unique ids and counts of at least 1.
- `Checkout.Session` holds the step and the form fields. `Session.Valid()` says the payment step
  is only reached with valid details.

Loops in the source are methods with loop invariants, proved against a specification function:

- `calculatePrice` is `CalculatePrice`, specified by `UnitPrice`.
- The `seen`-set filter is `DedupByName`, specified by `KeepFirstBy`.
- The `groupedAddOns` reduce is `GroupAddOns`, specified by `Filter` per category.

Three facts of the code shape the model:

- A variation adds its `price` field (MenuItemCard.tsx:28).
- An effective price of `0` falls back to the base price, because of `||` (MenuItemCard.tsx:26).
- Cart line ids carry a time/random suffix after `:::CART:::` (Menu.tsx:77), so the model reads
  ids back and does not compute them.

Prices are numbers in the source. The model uses `int`.

## Model

| member | source | states |
|---|---|---|
| MenuItemCard.CalculatePrice | src/components/MenuItemCard.tsx:24-34 | the returned price is the base price (effective price unless missing or zero), plus the selected variation's price, plus price times count of every selected add-on |
| MenuItemCard.BasePrice | src/components/MenuItemCard.tsx:26-28 | the effective price is used exactly when it is present and non-zero; otherwise the base price is |
| MenuItemCard.UnitPrice | src/components/MenuItemCard.tsx:26-32 | with non-negative variation and add-on prices and counts, the unit price is never below the base price |
| MenuItemCard.AddOnsTotalNonNegative | src/components/MenuItemCard.tsx:30-32 | with non-negative prices and counts the add-on total is not negative |
| MenuItemCard.AddOnsTotalAppend | src/components/MenuItemCard.tsx:30-32 | the add-on total of two selections one after the other is the sum of their totals |
| MenuItemCard.FindIndex | src/components/MenuItemCard.tsx:56 | the index is that of the first entry with the id, or -1 when no entry has it |
| MenuItemCard.UpdatedSelection | src/components/MenuItemCard.tsx:54-73 | quantity 0 removes every entry with the id and keeps the others in order; otherwise, when the id is present, only its first entry changes, and only in its count; when absent, the new entry is appended at the end |
| MenuItemCard.RemoveSplices | src/components/MenuItemCard.tsx:58-60 | with unique ids, removal deletes exactly the one entry with the id |
| MenuItemCard.SubseqKeepsUnique | src/components/MenuItemCard.tsx:60 | a subsequence of a selection with unique ids has unique ids |
| MenuItemCard.UpdatePreservesUniqueIds | src/components/MenuItemCard.tsx:54-73 | no update introduces a second entry for an id |
| MenuItemCard.UpdatePreservesValid | src/components/MenuItemCard.tsx:54-73 | an update with a count of at least 0 keeps ids unique and every stored count at least 1 |
| MenuItemCard.DecrementedCount | src/components/MenuItemCard.tsx:202-203 | one less than the stored count of the add-on, or 0 when it is not selected or its count is 0; never negative over a valid selection |
| MenuItemCard.IncrementedCount | src/components/MenuItemCard.tsx:215-216 | one more than the stored count of the add-on, or 1 when it is not selected or its count is 0; over a valid selection 1 only for a new add-on, else at least 2 |
| MenuItemCard.ButtonsPreserveValid | src/components/MenuItemCard.tsx:197-226 | the counts the minus, plus and add buttons pass all keep the selection valid, so a count never drops to 0 or below while stored |
| MenuItemCard.AddOnsTotalReplace | src/components/MenuItemCard.tsx:63-67 | replacing one entry changes the add-on total by the difference of that entry's price times count |
| MenuItemCard.IncrementAddsOneUnit | src/components/MenuItemCard.tsx:214-216 | pressing plus raises the add-on total by exactly one unit price of that add-on (the stored one when selected, the given one otherwise) |
| MenuItemCard.IncrementPresent | src/components/MenuItemCard.tsx:63-67 | raising a stored count by one raises the add-on total by that entry's price |
| MenuItemCard.IncrementAbsent | src/components/MenuItemCard.tsx:68-71 | appending a new add-on with count 1 raises the add-on total by its price |
| MenuItemCard.Repeat | src/components/MenuItemCard.tsx:47 | `Array(n).fill(x)` is n copies of x |
| MenuItemCard.Expand | src/components/MenuItemCard.tsx:46-48 | the flat list has as many add-ons as the selection's counts add up to, none of them carrying a quantity |
| MenuItemCard.ListPriceAppend | src/components/MenuItemCard.tsx:46-48 | the unit-by-unit price of two lists one after the other is the sum of their prices |
| MenuItemCard.ListPriceRepeat | src/components/MenuItemCard.tsx:47 | n copies of an add-on cost n times its price |
| MenuItemCard.ExpandPreservesPrice | src/components/MenuItemCard.tsx:44-49 | pricing the flat list handed to the cart one unit at a time gives the add-on total that `calculatePrice` computes for the counted selection |
| MenuItemCard.ExpandAppend | src/components/MenuItemCard.tsx:46-48 | flattening distributes over concatenation of selections |
| MenuItemCard.ExpandBlock | src/components/MenuItemCard.tsx:46-48 | entry k fills one consecutive block of the flat list, as many copies of its cleared add-on as its count, right after the blocks of the entries before it |
| MenuItemCard.FilterNone | src/components/MenuItemCard.tsx:77-79 | a category not seen so far has an empty group |
| MenuItemCard.GroupsSnoc | src/components/MenuItemCard.tsx:76-80 | creating the group if missing and pushing the next add-on keeps every group equal to the add-ons of its category so far |
| MenuItemCard.GroupsOfProperties | src/components/MenuItemCard.tsx:75-82 | an exact grouping has each group in catalogue order, in one category, holding every occurrence of its add-ons |
| MenuItemCard.GroupAddOns | src/components/MenuItemCard.tsx:75-82 | the keys are exactly the categories that occur; each group is a subsequence of the add-ons, all of its category, and holds every occurrence of each of its add-ons |
| MenuItemCard.ButtonFor | src/components/MenuItemCard.tsx:100-121 | Unavailable exactly when the item is unavailable; Added exactly when available with a positive quantity; Customize or Add otherwise, by whether the item has variations or add-ons |
| MenuItemCard.FirstVariation | src/components/MenuItemCard.tsx:19-21 | the first variation is selected initially, and none when there are none |
| MenuItemCard.Card.constructor | src/components/MenuItemCard.tsx:18-22 | the dialog is closed, the first variation is chosen, the selection is empty |
| MenuItemCard.Card.HandleAddToCart | src/components/MenuItemCard.tsx:36-42 | a customisable item opens the dialog and adds nothing; any other item adds one unit with no variation and no add-ons |
| MenuItemCard.Card.HandleCustomizedAddToCart | src/components/MenuItemCard.tsx:44-52 | adds one unit with the chosen variation and the flat add-on list, closes the dialog and empties the selection |
| MenuItemCard.Card.UpdateAddOnQuantity | src/components/MenuItemCard.tsx:54-73 | the selection becomes its update; a count of at least 0 keeps it valid |
| MenuItemCard.Card.DecrementAddOn | src/components/MenuItemCard.tsx:201-204 | the selection is updated with `(current || 1) - 1` and stays valid |
| MenuItemCard.Card.IncrementAddOn | src/components/MenuItemCard.tsx:214-217 | the selection is updated with `(current || 0) + 1` and stays valid |
| MenuItemCard.Card.AddAddOn | src/components/MenuItemCard.tsx:226 | the selection is updated with count 1 and stays valid |
| MenuItemCard.Card.SelectVariation | src/components/MenuItemCard.tsx:163 | the chosen size becomes the selected variation |
| MenuItemCard.Card.CloseCustomization | src/components/MenuItemCard.tsx:136 | the dialog closes and the selection is kept |
| Menu.DedupByName | src/components/Menu.tsx:28-37 | the result keeps each item whose lower-cased name has not occurred earlier, in order |
| Menu.FilterItemsBySearch | src/components/Menu.tsx:19-38 | the result is all items for a blank query, otherwise the first match of each lower-cased name |
| Menu.BlankQueryKeepsAll | src/components/Menu.tsx:20 | a query of whitespace only returns the list unchanged, duplicates included |
| Menu.SearchSound | src/components/Menu.tsx:22-26 | every item a non-blank search returns has the needle in its lower-cased name or description |
| Menu.SearchKeepsOrder | src/components/Menu.tsx:19-38 | the search result is a subsequence of the catalogue list |
| Menu.SearchDistinctNames | src/components/Menu.tsx:28-37 | no two results of a non-blank search have the same lower-cased name |
| Menu.SearchComplete | src/components/Menu.tsx:22-37 | every matching item's lower-cased name is represented in the result |
| Menu.SearchKeepsFirstMatch | src/components/Menu.tsx:28-37 | each result is the first match with its lower-cased name |
| Menu.CatalogIdOf | src/components/Menu.tsx:77-79 | the extracted id is a prefix of the cart line id |
| Menu.CatalogIdOfTagged | src/components/Menu.tsx:78-79 | `id + ":::CART:::" + suffix` reads back as `id` whenever the marker does not start inside `id` |
| Menu.CatalogIdOfLegacy | src/components/Menu.tsx:79 | without the marker, `id + "-" + suffix` reads back as `id` when `id` has no `-` |
| Menu.CatalogIdOfPlain | src/components/Menu.tsx:79 | an id with neither the marker nor `-` is its own catalogue id |
| Menu.LegacyIdLosesHyphenatedSuffix | src/components/Menu.tsx:79 | without the marker, any `-` shortens the id, and the result has no `-` |
| Menu.IsDefaultLine | src/components/Menu.tsx:80-82 | a matching line's id starts with the item id, and the line has no variation and no add-ons |
| Menu.DefaultQuantity | src/components/Menu.tsx:76-86 | with non-negative line quantities the count shown is between 0 and the cart's total quantity |
| Menu.SumQuantitiesBounds | src/components/Menu.tsx:76-86 | filtering lines with non-negative quantities gives a sum between 0 and the unfiltered sum |
| Menu.SumQuantitiesAppend | src/components/Menu.tsx:86 | the summed quantity of two runs of lines is the sum of their sums |
| Menu.DefaultQuantitySnoc | src/components/Menu.tsx:76-86 | a line added at the end adds its quantity exactly when it is the item's plain configuration |
| Menu.DefaultQuantityIgnoresOtherLines | src/components/Menu.tsx:76-86 | a line of another item, or one with a variation or add-ons, does not change the count wherever it stands |
| Menu.DefaultQuantityNoMatch | src/components/Menu.tsx:76-86 | with no matching line the count is 0 |
| Menu.SumQuantitiesPositive | src/components/Menu.tsx:86 | a non-empty run of lines with positive quantities sums to at least 1 |
| Menu.CardShowsAdded | src/components/Menu.tsx:76-96 | with positive line quantities, an available card shows Added exactly when its plain configuration is in the cart |
| Menu.RouteQuantityUpdate | src/components/Menu.tsx:89-107 | the first matching line is updated to the new quantity exactly when one exists; otherwise the item is added only for a positive quantity, and nothing happens otherwise |
| Checkout.EffectivePaymentMethods | src/components/Checkout.tsx:30-66 | the fetched methods come first, in order, followed by Gcash/Maya, Bank Transfer and Cash (Onsite) |
| Checkout.FindMethod | src/components/Checkout.tsx:75 | the result is the first method with the id, and none exactly when no method has it |
| Checkout.FindMethodAppend | src/components/Checkout.tsx:75 | looking up in two lists one after the other finds the first list's method when it has one |
| Checkout.EffectiveLookup | src/components/Checkout.tsx:66-75 | a fetched method shadows a built-in one with the same id; otherwise the built-in one is found |
| Checkout.BuiltInAlwaysFound | src/components/Checkout.tsx:30-75 | the three built-in ids always resolve to a method |
| Checkout.PaymentText | src/components/Checkout.tsx:111 | the payment line shows the first matching method's name when it is not empty, and the raw id when that name is empty or no method matches |
| Checkout.FindMethodFirst | src/components/Checkout.tsx:75 | the method at the first index holding the id is the one found |
| Checkout.DefaultPaymentMethod | src/components/Checkout.tsx:69-73 | an existing choice is kept, and so is any choice over an empty list; a missing one becomes the first method's id, or `cash` when that id is empty |
| Checkout.DefaultPaymentNeverEmpty | src/components/Checkout.tsx:69-73 | over the effective list the choice is never left empty |
| Checkout.IsDetailsValid | src/components/Checkout.tsx:125-126 | valid details always have a name and a contact; outside delivery those two suffice; for delivery an address is needed as well |
| Checkout.DetailsValidity | src/components/Checkout.tsx:125-126 | fields made only of whitespace count as filled in, for every such input; delivery without an address is invalid; the initial form is invalid |
| Checkout.Session.constructor | src/components/Checkout.tsx:16-23 | the flow starts on the details step with pickup, Gcash/Maya and empty fields |
| Checkout.Session.EditDetails | src/components/Checkout.tsx:177-263 | a change to one of the six form fields on the details step replaces the fields, leaves the payment method alone and keeps the flow valid |
| Checkout.Session.ProceedToPayment | src/components/Checkout.tsx:271-272 | the payment step is entered only when the details are valid |
| Checkout.Session.BackToDetails | src/components/Checkout.tsx:293 | the back arrow returns to the details step |
| Checkout.Session.SelectPaymentMethod | src/components/Checkout.tsx:311 | only the payment method changes, and the flow stays valid |
| Checkout.Session.SettlePaymentMethod | src/components/Checkout.tsx:69-73 | the effect fills in a missing payment method, after which it is never empty |
| Checkout.AddOnLabel | src/components/Checkout.tsx:101-104 | a label starts with the add-on's name, and is the name alone unless the quantity is above 1 |
| Checkout.AddOnLabelReadsBack | src/components/Checkout.tsx:101-105 | after the name, a quantity above 1 follows as ` x` and digits that parse back to it |
| Checkout.AddOnLabels | src/components/Checkout.tsx:101-105 | one label per add-on, in order |
| Checkout.ItemLine | src/components/Checkout.tsx:96-107 | every line starts with the bullet and the item name, and a plain line is exactly that |
| Checkout.ItemLineIsOneLine | src/components/Checkout.tsx:95-107 | when no name holds a line break, the item line has none |
| Checkout.ItemLines | src/components/Checkout.tsx:95-108 | one text line per cart line, in cart order |
| Checkout.ItemsSectionLines | src/components/Checkout.tsx:95-108 | splitting the item section at line breaks gives back exactly the per-line texts |
| Checkout.ItemsSectionIgnoresQuantities | src/components/Checkout.tsx:95-108 | line quantities do not appear in the item section |
| Checkout.OrderBody | src/components/Checkout.tsx:86-115 | the untrimmed text starts with the inquiry heading, ends with the closing sentence and holds the details heading followed by the item section |
| Checkout.OrderText | src/components/Checkout.tsx:85-116 | trimming removes only the template's opening line break and closing indentation, so the order text is the body and holds the details heading followed by the item section |
| Checkout.SandwichShape | src/components/Checkout.tsx:85-116 | a text of five parts starts with the first, ends with the last and contains the middle one |
| Checkout.EndsAreVisible | src/components/Checkout.tsx:86-115 | a text that begins with the heading and ends with the footer begins with the cart emoji and ends with the pill emoji, neither of which trimming removes |
| Checkout.NonDeliveryIgnoresAddress | src/components/Checkout.tsx:91 | for a non-delivery order the address and landmark fields do not affect the text |
| Checkout.OrderTextIgnoresQuantities | src/components/Checkout.tsx:85-116 | line quantities do not affect the order text |
| Text.TrimStart | src/components/Menu.tsx:20 | drops exactly the leading whitespace: the result is a suffix that does not start with whitespace |
| Text.TrimEnd | src/components/Menu.tsx:20 | drops exactly the trailing whitespace: the result is a prefix that does not end with whitespace |
| Text.Trim | src/components/Menu.tsx:20-22 | the result is a contiguous piece of the input with only whitespace before and after it, neither starting nor ending with whitespace, and empty exactly when the input is blank |
| Text.TrimPiece | src/components/Menu.tsx:20-22 | where the two cuts of trimming fall: all cut characters are whitespace |
| Text.TrimSurrounded | src/components/Checkout.tsx:116 | trimming whitespace around a body that starts and ends with visible characters gives the body |
| Text.ToLower | src/components/Menu.tsx:22-24 | lower-casing keeps the length and maps each character on its own |
| Text.Capitalize | src/components/Checkout.tsx:90 | only the first character is upper-cased and the rest is kept |
| Text.ContainsIffOccurs | src/components/Menu.tsx:24-25 | `includes` holds exactly when the needle occurs at some position |
| Text.ContainsInfix | src/components/Checkout.tsx:94-108 | a string contains every part it is concatenated from |
| Text.IndexOf | src/components/Menu.tsx:78-79 | the position found is the first occurrence, and none means no occurrence |
| Text.JoinAvoids | src/components/Checkout.tsx:105 | joining parts without a character, using a separator without it, gives a text without it |
| Text.SplitJoin | src/components/Checkout.tsx:108 | splitting at a character what was joined with it gives back the parts |
| Text.NatToString | src/components/Checkout.tsx:103 | a count is written as a non-empty run of decimal digits |
| Text.ParseNatToString | src/components/Checkout.tsx:103 | the written count reads back as itself |
| Seqs.Filter | src/components/Menu.tsx:23-26 | the result keeps exactly the elements satisfying the predicate |
| Seqs.FilterMultiset | src/components/MenuItemCard.tsx:60 | each kept element keeps its number of occurrences and each dropped one has none |
| Seqs.KeepFirstDistinct | src/components/Menu.tsx:28-37 | no two kept elements share a key |
| Seqs.KeepFirstKeys | src/components/Menu.tsx:28-37 | the kept elements have the same set of keys as the input |
| Seqs.KeepFirstIsFirst | src/components/Menu.tsx:28-37 | each kept element is the first in the input with its key |

## Left out

- The cart store itself (`addToCart`, `updateQuantity`, the line ids it makes and its totals) is not part of this model. Cart lines are inputs here, and the store calls are returned as values (`AddToCartCall`, `QuantityRoute`).
- The catalogue, payment-method and site-settings fetch hooks are out: the fetched methods are a parameter, and the delivery-enabled flag only affects rendering.
- Opening the messaging link is out: `encodeURIComponent`, `window.open` and `window.scrollTo` are I/O. The model stops at the order text.
- Rendering, styling and JSX structure are out. So is the category heading text (`category.replace('-', ' ')`), which only affects the display.
- `GeneralInquiries`, `Cart`, `Header`, `SubNav` and `App` are not part of this model.
- Text.ToLower: maps only ASCII A-Z, because JavaScript's full Unicode case mapping (which can change the length) is not modelled. The same holds for Text.Capitalize.
- Text.Capitalize: works on one character, while `charAt` works on UTF-16 code units; the service types are ASCII.
- MenuItemCard.CalculatePrice: `calculatePrice` is defined but never called and the card shows no price; it is modelled for what it computes. It uses integer prices, not JavaScript floating-point numbers, so no rounding is modelled.
- MenuItemCard.GroupAddOns: returns a map, so the order in which the dialog lists the categories (insertion order, integer-like keys first) is not modelled. The order inside each group is.
- MenuItemCard.GroupAddOns: `groups` starts as `{}`, so a category named like an `Object.prototype` member (`constructor`, `toString`, `__proto__` and the like) finds an inherited value at line 77, skips the initialisation and makes the `push` at line 80 throw a `TypeError`. The model groups such an add-on like any other and does not model that failure.
- An absent optional list (`variations`, `addOns`, `selectedAddOns`) is modelled as an empty sequence. Every use in these components treats the two alike.
- MenuItemCard.Card.HandleCustomizedAddToCart: requires the card's invariant, because `Array(n)` throws for a negative count. The card's own buttons never store one.
- MenuItemCard.Card.UpdateAddOnQuantity: promises validity only for counts of at least 0. Passing a negative count directly would store it, as the source does.
- Checkout.Session.EditDetails: stands for the six field setters of the details form (name, contact, service type, address, landmark, notes) at once.
- Checkout.Session.ProceedToPayment: models the disabled button as a guard on the step change. The handler alone sets the step unconditionally.
- Menu.CatalogIdOf: the older `-` format truncates catalogue ids that themselves contain `-`. This is modelled as written, and `Menu.LegacyIdLosesHyphenatedSuffix` states it.
- Menu.RouteQuantityUpdate: the id the card passes to `onUpdateQuantity` is ignored, as in the source. The card never calls it: it destructures the prop but has no control that uses it.
