# Sakura Sushi ordering page — a Dafny model

This project models the logic of the single page of the Sakura Sushi
delivery site (`src/pages/Index.tsx`). A visitor browses a fixed catalog of
six dishes, filters it by category and by a search text, adds dishes to a
cart, changes quantities, marks favourites, and fills in an order form.
The form is checked before the order is placed.

The model has these parts:

- `Seqs`: `Array.prototype.filter` and the sequence facts the rest relies on.
- `Text`: JavaScript white space, `trim`, `toLowerCase` and `includes`.
- `Phone`: the phone pattern, as a list of one-character atoms with a backtracking matcher.
- `Email`: the e-mail pattern, stated by its meaning (some substring matches) and decided by an automaton with six named states that is proved equal to it.
- `Menu`: the catalog entries, the catalog, and the category and search filter.
- `Cart`: cart lines and the three cart updaters as pure functions on sequences; the two totals as sums.
- `Favorites`: the favourites toggle.
- `OrderForms`: the form, the field update, the validation messages, and the validation itself. The validation is a method that builds the errors check by check, proved equal to a field-by-field definition.
- `Sessions`: the page state as a class `Session` (cart, favourites, form, errors) whose methods are the page's event handlers.

Behaviour that follows the code exactly:

- Submitting a valid order empties the cart but does not reset the form.
- `updateQuantity` stores any non-zero quantity, negative ones included. The cart's minus button passes the current quantity minus one, so a quantity of 1 goes to 0 and the line is removed.
- In the phone pattern `[7|8]` is a bracket class. It accepts `7`, `8` and also `|`. The `+` and the country digit are each optional on their own.
- A phone made of white space only is not empty. It therefore gets the format message, which overwrites the "required" one.
- The e-mail pattern is not anchored. A value passes when any part of it has the form `\S+@\S+\.\S+`.

## Model

| member | source | states |
|---|---|---|
| Seqs.Filter | src/pages/Index.tsx:177-183 | `filter` keeps exactly the elements that pass the test and never lengthens the sequence |
| Seqs.FilterIsSubseq | src/pages/Index.tsx:177-183 | what `filter` keeps stays in its original order: the result is a subsequence |
| Seqs.FilterKeepsAll | src/pages/Index.tsx:177-183 | when every element passes, filtering returns the sequence unchanged |
| Seqs.FilterIdempotent | src/pages/Index.tsx:161-163 | filtering twice by the same test is filtering once |
| Seqs.FilterFilter | src/pages/Index.tsx:177-183 | two chained filters equal one filter by the conjunction of the two tests |
| Seqs.FilterAppend | src/pages/Index.tsx:262-268 | filtering distributes over concatenation |
| Seqs.SubseqPairwise | src/pages/Index.tsx:161-163 | a relation that holds between all ordered pairs of a sequence holds in every subsequence, such as one produced by `filter` |
| Seqs.SubseqMembers | src/pages/Index.tsx:161-163 | every element of a subsequence is an element of the sequence |
| Text.TrimStart | src/pages/Index.tsx:238-240 | the start of `trim`: a suffix of the input; what it drops is all white space; it starts with a non-space character or is empty |
| Text.TrimEnd | src/pages/Index.tsx:238-240 | the end of `trim`: a prefix of the input; what it drops is all white space; it ends with a non-space character or is empty |
| Text.TrimStartEmpty | src/pages/Index.tsx:238-240 | trimming the start leaves nothing exactly when the string is all white space |
| Text.TrimEndEmpty | src/pages/Index.tsx:238-240 | trimming the end leaves nothing exactly when the string is all white space |
| Text.TrimEmptyIffBlank | src/pages/Index.tsx:238-240 | `!s.trim()` holds exactly when `s` consists of white space only, which is how the model's `Blank` is defined |
| Text.Trim | src/pages/Index.tsx:238-240 | `trim` is `TrimEnd` after `TrimStart`; `TrimEmptyIffBlank` gives it its meaning for the form: nothing is left exactly when the value is white space only |
| Text.LowerChar | src/pages/Index.tsx:180-182 | `toLowerCase` on one character: ASCII capitals move up by 32; characters outside ASCII capitals and the basic Cyrillic block are unchanged |
| Text.LowerIdempotent | src/pages/Index.tsx:180-182 | lower-casing twice is lower-casing once |
| Text.Lower | src/pages/Index.tsx:180-182 | `toLowerCase` applied character by character; its properties are `LowerIdempotent`, `Menu.QueryCaseInsensitive` and, on Russian text, `Menu.SalmonSearch` |
| Text.Contains | src/pages/Index.tsx:180-182 | `includes`: the needle occurs at some position of the string; `ContainsSlice` and `Menu.SearchByName` state when it holds |
| Text.ContainsSlice | src/pages/Index.tsx:180-182 | `includes` finds every slice of a string inside that string |
| Phone.MandatoryFrom | src/pages/Index.tsx:242 | counts the atoms of a pattern suffix that must consume a character; there are never more of them than atoms |
| Phone.IsPhone | src/pages/Index.tsx:242-243 | the phone pattern matches the whole value; its meaning is stated by `DigitsOnlyPhone`, `PhoneLength`, `FormattedIsPhone` and `PhoneHasDigit` |
| Phone.MatchLength | src/pages/Index.tsx:242 | an anchored match consumes at least one character per mandatory atom and at most one per atom |
| Phone.MatchMandatory | src/pages/Index.tsx:242 | in a match, every mandatory atom is matched by some character of the input |
| Phone.MatchOneEach | src/pages/Index.tsx:242 | a string whose characters are accepted one by one by the atoms matches |
| Phone.FormattedIsPhone | src/pages/Index.tsx:242-245 | every number written as `+7 (ddd) ddd-dd-dd` passes the phone check |
| Phone.PlaceholderIsPhone | src/pages/Index.tsx:389 | the phone field's placeholder `+7 (999) 123-45-67` passes the check |
| Phone.PhoneLength | src/pages/Index.tsx:242 | every accepted phone is 10 to 18 characters long |
| Phone.ShortNumberRejected | src/pages/Index.tsx:242-245 | `123` fails the check |
| Phone.PhoneHasDigit | src/pages/Index.tsx:242-245 | every accepted phone contains a digit, so it is not blank |
| Phone.PatternCounts | src/pages/Index.tsx:242 | the pattern has ten mandatory digit atoms, all after the optional `[+]?[7|8]?` prefix |
| Phone.PatternDigitTail | src/pages/Index.tsx:242 | after the prefix, every atom is a mandatory digit or an optional class that accepts no digit |
| Phone.DigitTailMatch | src/pages/Index.tsx:242 | on a string of digits, such a pattern tail matches exactly when the length equals its number of mandatory atoms |
| Phone.DigitsOnlyPhone | src/pages/Index.tsx:242-245 | a string of digits passes exactly when it has ten digits, or eleven with a leading 7 or 8 |
| Phone.BarPrefixAccepted | src/pages/Index.tsx:242 | as written, `[7|8]` also accepts `|`, so `|` followed by ten digits passes |
| Email.SearchIffMatchAt | src/pages/Index.tsx:247 | `test` finds a match somewhere exactly when there is a shortest match: one non-space character, `@`, non-space characters, `.`, one non-space character |
| Email.AfterAtStep | src/pages/Index.tsx:247 | reading one character extends a run of non-space characters after an `@` exactly when the character is not white space |
| Email.MatchStep | src/pages/Index.tsx:247 | reading one character completes a match exactly when it is non-space and follows a `.` that is itself after `\S@\S+` |
| Email.RunIsLevel | src/pages/Index.tsx:247 | after any input the automaton's state is the one that describes the text read so far |
| Email.IsEmailIffSearch | src/pages/Index.tsx:247-249 | the automaton accepts exactly the strings in which the unanchored pattern `\S+@\S+\.\S+` finds a match |
| Email.AddressAccepted | src/pages/Index.tsx:247-249 | every `user@host.domain` with non-empty parts free of white space passes |
| Email.PlaceholderIsEmail | src/pages/Index.tsx:401 | the e-mail field's placeholder `your@email.com` passes |
| Email.EmailHasAtAndDot | src/pages/Index.tsx:247-249 | every accepted e-mail contains an `@` and a later `.` |
| Email.IsEmail | src/pages/Index.tsx:247 | the automaton ends in its `Found` state; `IsEmailIffSearch` proves this is exactly when `\S+@\S+\.\S+` matches some part of the value |
| Menu.FilteredMenuItems | src/pages/Index.tsx:177-183 | the shown dishes are a subsequence of the catalog, in catalog order, and are exactly the dishes in the selected category whose name or description contains the query, ignoring letter case (all dishes for an empty query) |
| Menu.ShowAll | src/pages/Index.tsx:177-183 | with `all` selected and an empty query the whole catalog is shown, in order |
| Menu.QueryCaseInsensitive | src/pages/Index.tsx:180-182 | the search gives the same answer for a query and for its lower-cased form |
| Menu.OnlySelectedCategory | src/pages/Index.tsx:178 | with one category selected, every shown dish belongs to it |
| Menu.SearchByName | src/pages/Index.tsx:180-182 | searching for a dish's own name, in any letter case, shows that dish |
| Menu.InCategory | src/pages/Index.tsx:178 | the category filter: every item passes under `all`, otherwise only the selected category's; `OnlySelectedCategory` and `ShowAll` state its effect |
| Menu.MatchesQuery | src/pages/Index.tsx:179-182 | the search filter: an empty query, or the lower-cased query inside the lower-cased name or description; `QueryCaseInsensitive`, `SearchByName` and `SalmonSearch` state its effect |
| Menu.SalmonSearch | src/pages/Index.tsx:180-182 | the Russian query `ЛОСОСЬ` lower-cases to `лосось` and shows the salmon nigiri from the page's catalog |
| Cart.AddToCart | src/pages/Index.tsx:147-159 | if a line has the item's id, every line keeps its item and only the lines with that id gain one; otherwise the old lines are kept and a line with quantity 1 is appended; afterwards the item has a line |
| Cart.RemoveFromCart | src/pages/Index.tsx:161-163 | the result is a subsequence of the cart holding exactly the lines with another id; no line has the id; an absent id changes nothing |
| Cart.UpdateQuantity | src/pages/Index.tsx:165-175 | quantity 0 is exactly `removeFromCart`; any other value sets the quantity of the lines with the id and leaves the rest unchanged; no id gains a line |
| Cart.SumAppend | src/pages/Index.tsx:185-186 | a sum over the cart with one more line adds that line's term |
| Cart.SumEqual | src/pages/Index.tsx:185-186 | two carts whose lines have equal terms, position by position, have equal sums |
| Cart.SumExt | src/pages/Index.tsx:185-186 | two term functions that agree on every line give the same sum |
| Cart.SumForIsSum | src/pages/Index.tsx:185-186 | the sum over the lines of one id equals a sum of any term that is 0 on the other ids |
| Cart.SumPointwise | src/pages/Index.tsx:185-186 | carts that differ in one line have sums that differ by the change in that line's term |
| Cart.SumSingle | src/pages/Index.tsx:185-186 | when only one line contributes, the sum is that line's term |
| Cart.SumNone | src/pages/Index.tsx:185-186 | when no line contributes, the sum is 0 |
| Cart.TotalItems | src/pages/Index.tsx:186 | `totalItems`, the sum of the quantities; `AddToCartTotals`, `RemoveTotals` and `UpdateQuantityTotals` state how each cart operation changes it |
| Cart.TotalPrice | src/pages/Index.tsx:185 | `totalPrice`, the sum of price times quantity; `AddToCartTotals`, `TwoAndOne` and `TwoNigiriOnePhiladelphia` state its value |
| Cart.SumRemove | src/pages/Index.tsx:161-163 | removing an id's lines takes exactly their share off any sum over the cart |
| Cart.QuantityOfLine | src/pages/Index.tsx:147-159 | with one line per id, the share of an id is its line's term, and 0 when it has no line |
| Cart.UniqueLine | src/pages/Index.tsx:147-159 | with one line per id, no other line has the id of a given line |
| Cart.AddToCartUnique | src/pages/Index.tsx:147-159 | `addToCart` keeps at most one line per id |
| Cart.AddToCartTotals | src/pages/Index.tsx:147-159 | `addToCart` raises `totalItems` by 1, and raises `totalPrice` by the item's price when the lines with that id carry that price |
| Cart.AddToCartQuantity | src/pages/Index.tsx:147-159 | `addToCart` raises the quantity of the item's id by 1 and leaves every other id's quantity unchanged |
| Cart.AddAllQuantities | src/pages/Index.tsx:147-159 | after a series of `addToCart` calls there is still one line per id, each id's quantity has grown by the number of times it was added, and the ids present are the old ones plus the added ones |
| Cart.AddsFromEmpty | src/pages/Index.tsx:147-159 | from an empty cart, a series of additions leaves one line per distinct id added, each holding the number of times its id was added |
| Cart.RemoveIdempotent | src/pages/Index.tsx:161-163 | removing an id twice is removing it once |
| Cart.RemoveUnique | src/pages/Index.tsx:161-163 | `removeFromCart` keeps at most one line per id |
| Cart.RemoveTotals | src/pages/Index.tsx:161-163 | `removeFromCart` lowers `totalItems` by the removed quantity |
| Cart.UpdateQuantityUnique | src/pages/Index.tsx:165-175 | `updateQuantity` keeps at most one line per id |
| Cart.UpdateQuantityTotals | src/pages/Index.tsx:165-175 | `updateQuantity` replaces the id's quantity in `totalItems`, and changes nothing when the id has no line |
| Cart.ZeroAfterAdd | src/pages/Index.tsx:165-175 | setting an item's quantity to 0 right after adding it leaves no line for it |
| Cart.QuantitiesStayPositive | src/pages/Index.tsx:331-339 | positive quantities stay positive under every add, every remove and every update with a quantity of 0 or more, which covers the cart's minus and plus buttons |
| Cart.TwoAndOne | src/pages/Index.tsx:185-186 | adding `a`, `a`, `b` with different ids to an empty cart gives three items costing twice `a`'s price plus `b`'s |
| Cart.TwoNigiriOnePhiladelphia | src/pages/Index.tsx:78-101 | two salmon nigiri (120) and one Philadelphia roll (350) make three items costing 590 |
| Favorites.ToggleFavorite | src/pages/Index.tsx:262-268 | toggling flips the id's membership and no other id's; a marked id is filtered out, leaving a shorter subsequence; an unmarked one is appended at the end; no id is ever listed twice |
| Favorites.UnmarkKeepsDistinct | src/pages/Index.tsx:265 | filtering an id out of a list without duplicates leaves a list without duplicates |
| Favorites.FilterShrinks | src/pages/Index.tsx:265 | filtering out an element that is present makes the list shorter |
| Favorites.ToggleTwiceUnmarked | src/pages/Index.tsx:262-268 | marking an unmarked id and then unmarking it gives back the very same list |
| Favorites.ToggleTwice | src/pages/Index.tsx:262-268 | toggling the same id twice restores which ids are marked |
| OrderForms.Set | src/pages/Index.tsx:256 | updating one field of the form sets that field and leaves every other field unchanged |
| OrderForms.Wording | src/pages/Index.tsx:238-248 | no validation message is empty, so a field with a message counts as having an error wherever the page tests it |
| OrderForms.FormErrors | src/pages/Index.tsx:235-253 | the errors, each field's message decided on its own: errors only ever sit on the name, phone, e-mail and address fields, and a field has an error exactly when its message exists, and holds that message |
| OrderForms.ComputeErrors | src/pages/Index.tsx:235-250 | building the errors check by check in the page's order, with the phone format check overwriting the "required" message, yields the field-by-field definition |
| OrderForms.FieldErrors | src/pages/Index.tsx:237-249 | name and address errors exactly when blank; a phone error exactly when the phone fails the pattern, "required" if empty and "malformed" otherwise; an e-mail error exactly when the e-mail is non-empty and fails its check |
| OrderForms.NoErrorsIff | src/pages/Index.tsx:235-253 | validation reports no errors exactly when name and address are not blank, the phone passes and the e-mail is empty or passes |
| OrderForms.EmptyFormErrors | src/pages/Index.tsx:235-253 | the untouched form gets exactly the three "required" errors for name, phone and address |
| OrderForms.SpacePhoneGetsFormatMessage | src/pages/Index.tsx:238-245 | a phone of white space only gets the format message, not the "required" one |
| OrderForms.PhoneExamples | src/pages/Index.tsx:242-245 | phone `123` gets the format message; the placeholder number gets no error |
| Sessions.Session.constructor | src/pages/Index.tsx:53-76 | a new page has an empty cart, no favourites, the initial form (payment `cash`, delivery `asap`, all else empty) and no errors |
| Sessions.Session.AddToCart | src/pages/Index.tsx:147-159 | the cart becomes `addToCart` of the old cart with one line per id kept; `totalItems` rises by 1, the item's id gains 1 in quantity and no other id changes; nothing else in the state changes |
| Sessions.Session.RemoveFromCart | src/pages/Index.tsx:161-163 | the cart becomes `removeFromCart` of the old one and no longer has the id; `totalItems` drops by that id's quantity; nothing else changes |
| Sessions.Session.UpdateQuantity | src/pages/Index.tsx:165-175 | quantity 0 goes through `removeFromCart`, any other value replaces the quantity; `totalItems` changes by the difference; one line per id is kept; nothing else changes |
| Sessions.Session.ToggleFavorite | src/pages/Index.tsx:262-268 | the favourites become their toggle, with the id's membership flipped and no duplicates; nothing else changes |
| Sessions.Session.HandleInputChange | src/pages/Index.tsx:255-260 | only the given field takes the new value, and only that field's error is cleared; the cart and the favourites are unchanged |
| Sessions.Session.ValidateForm | src/pages/Index.tsx:235-253 | the errors become those of the current form; the result is true exactly when there are none, that is when name and address are not blank, the phone passes and the e-mail is empty or passes; nothing else changes |
| Sessions.Session.HandleSubmitOrder | src/pages/Index.tsx:270-278 | the form is validated; an invalid form leaves the cart as it was; a valid one empties the cart; the form and the favourites are kept |

## Left out

- Rendering: the JSX markup, the icons, the dialogs and their open flags (`isCartOpen`, `isOrderFormOpen`, `isItemModalOpen`, `selectedItem`), `openItemModal` and `renderStars`.
- The selected category and the search text as state: the model passes them to `Menu.FilteredMenuItems` as arguments.
- The static reviews, which no handler reads or changes.
- The `alert` shown when an order is placed: an I/O effect. `Sessions.Session.HandleSubmitOrder` returns whether the order was placed instead.
- Sending the order anywhere: the page has no such code.
- React's state plumbing: each `setState(prev => ...)` is applied at once to the session's field, and re-rendering is not modelled.
- Numbers: the page uses JavaScript numbers. Prices, quantities and ids are unbounded integers here, because the page only adds and multiplies whole numbers.
- Sessions.Session.HandleInputChange: the page sets the field's error to `undefined` and keeps the key, while the model deletes the key. Every reader of `errors` tests the entry for truthiness, so the two states behave the same.
- Strings: the model's strings are sequences of Unicode scalar values, while JavaScript strings are sequences of UTF-16 code units. Lone surrogates cannot be represented, and a character outside the Basic Multilingual Plane counts once here but twice in JavaScript's `length`. On every input the model can represent, `trim`, `includes` and both patterns decide the same way.
- Text.LowerChar: lower-cases ASCII and the Cyrillic block U+0400-U+042F only. Other scripts keep their case, while full Unicode `toLowerCase` would change them.
- Phone: the matcher covers only patterns made of single-character atoms, each mandatory or optional, which is what the page's phone pattern is. It has no `*`, `+`, `{m,n}` ranges, alternation or groups, so it is not a general regular-expression engine.
- Cart.AddToCartTotals: the price part is stated only when every line with the item's id carries the item's price. Items from the catalog always do, because their ids are unique.
- The line item: the page copies the dish's fields into the cart entry, while the model keeps the dish inside the line. Every reader uses the same fields, so nothing depends on the difference.
