# Shopping list: a verified model

The model covers the two shopping-list components of this React application:

- `ShoppingListApp` in `src/App.tsx` keeps its list on a remote REST endpoint. It fetches the list on mount. It POSTs a new item before appending it and sends a DELETE before removing one.
- `BevLista` in `src/components/BevLista.tsx` keeps the same kind of list in memory only.

Both components hold the same state: an ordered list of items (id, name, quantity, unit, purchased), three raw input strings and the current error message. Both offer the same operations: add with validation, toggle purchased by id, delete by id, and a summary of what remains to buy.

Files:

- `wrappers.dfy`: `Option` and `Result`.
- `text.dfy`: JavaScript `String.prototype.trim` over the ECMAScript whitespace set.
- `numbers.dfy`: `Number(text)` and `parseFloat(text)` on decimal notation. It also proves that the two agree wherever `Number` accepts a non-blank string.
- `items.dfy`: the shared `Item` record, the error kinds, the list transforms (toggle by `map`, delete by `filter`, the remaining count and "all purchased") and their lemmas.
- `app.dfy`: the class `App.ShoppingListApp`. `App.PrepareItemAsWritten` holds the validation of `addItem` as written and `App.PrepareItem` the corrected one, and the file also models the fetch mapping and id generation.
- `bevlista.dfy`: the class `BevListaComponent.BevLista`. `BevListaComponent.PrepareTermek` holds the validation of `hozzaadTermek`.

Each handler is one atomic state transition of its class. A network request appears as a boolean argument that is true when the `fetch` promise resolved. `Date.now()` is the argument `now`. Messages are the `Items.Error` constructors, and `None` is the empty message.

Where the two components differ, the code decides. What each handler actually does:

- `addItem` trims only the name in its first check (`src/App.tsx:43`). So a quantity made of spaces fails the number check instead, since `Number("  ")` is 0. A unit made of spaces is accepted and stored as the empty string (`App.BlankQuantityAndUnit`).
- `hozzaadTermek` trims all three fields for its first check but has no positivity check. It accepts "0" and "-3" (`BevListaComponent.AcceptsZeroQuantity`, `BevListaComponent.AcceptsNegativeQuantity`). It stores the raw, untrimmed strings (`BevListaComponent.PaddedNameIsAnotherName`).
- A successful `deleteItem` in `App.tsx` leaves the current error message as it was.
- `fetch` rejects only when the network fails. A response with an error status counts as success, so `posted` and `deleted` mean "the promise resolved". `fetched` means more: the GET resolved and its body decoded to an array of records. A body that is not JSON, or not an array, throws at `src/App.tsx:23` or `:25`, and the catch at line 34 only logs it, so the list stays as it was.

## Model

| member | source | states |
|---|---|---|
| Text.Trim | src/App.tsx:43 | trim yields a string that neither starts nor ends with whitespace, is no longer than the input, and is empty exactly when the input is all whitespace |
| Text.TrimIsSlice | src/components/BevLista.tsx:20 | trim removes a whitespace block from each end and keeps the middle of the input unchanged |
| Text.TrimFixesTrimmed | src/App.tsx:63-65 | trim leaves a string unchanged exactly when it has no whitespace at either end |
| Text.TrimIdempotent | src/App.tsx:63-65 | trimming a trimmed string changes nothing |
| Numbers.ToNumber | src/components/BevLista.tsx:24 | Number of a blank string is 0 |
| Numbers.ParseFloat | src/App.tsx:64 | parseFloat of a blank string is NaN, where Number gives 0 |
| Numbers.ParseFloatAgreesWithNumber | src/App.tsx:48-64 | on decimal notation, when Number accepts a non-blank quantity, parseFloat of it is the same number, so the stored quantity is the one that passed the check |
| Numbers.ScanNumeralAppend | src/App.tsx:64 | whitespace after a full numeral does not change what parseFloat reads |
| Numbers.SingleDigit | src/components/BevLista.tsx:34 | Number of a one-digit string is that digit's value |
| Numbers.NegatedDigit | src/components/BevLista.tsx:24-27 | Number of a minus sign followed by a digit is that digit's value negated |
| Numbers.NotANumeral | src/App.tsx:48 | in the decimal model, a string starting with anything but whitespace, a sign, a digit or '.' is NaN for both Number and parseFloat |
| Items.NameTaken | src/components/BevLista.tsx:28 | holds exactly when some item on the list has that very name, and never on an empty list |
| Items.Toggle | src/App.tsx:93-99 | toggling keeps the length, and keeps the id, name, quantity and unit of every position; it flips purchased exactly at the positions whose id matches |
| Items.ToggleTwice | src/components/BevLista.tsx:46-52 | toggling the same id twice restores the original list |
| Items.ToggleUnknownId | src/App.tsx:95-96 | toggling an id that no item has leaves the list unchanged |
| Items.ToggleKeepsInvariants | src/App.tsx:93-99 | toggling preserves distinct ids, distinct names and positive quantities |
| Items.ToggleRemainingCount | src/App.tsx:93-99 | toggling the one item with a given id changes the remaining count by exactly one, up when the item was purchased and down otherwise |
| Items.Remove | src/App.tsx:106 | deleting keeps exactly the items whose id differs, and never lengthens the list |
| Items.RemoveExactly | src/components/BevLista.tsx:42-44 | as multisets, deleting drops every occurrence of an item with that id and keeps every occurrence of the others |
| Items.RemoveKeepsOrder | src/components/BevLista.tsx:43 | the items left after a delete are a subsequence of the list, so their relative order is kept |
| Items.RemoveUnknownId | src/App.tsx:106 | deleting an id that no item has leaves the list unchanged |
| Items.RemoveAppend | src/App.tsx:106 | deleting commutes with concatenation |
| Items.RemoveKeepsInvariants | src/App.tsx:101-111 | deleting preserves distinct keys and positive quantities |
| Items.RemoveRemainingCount | src/App.tsx:114 | deleting never increases the remaining count |
| Items.RemoveOnlyItem | src/App.tsx:113 | deleting the only item leaves an empty list, which is not "all purchased" and has nothing remaining |
| Items.RemainingCount | src/App.tsx:114 | the remaining count is at most the length; it is 0 exactly when every item is purchased, and equals the length exactly when none is |
| Items.AllPurchased | src/App.tsx:113 | "all purchased" holds exactly when the list is non-empty and nothing remains, so an empty list gives false |
| Items.AppendRemainingCount | src/components/BevLista.tsx:32-35 | appending an unpurchased item adds one to the remaining count |
| Items.AppendKeepsDistinct | src/components/BevLista.tsx:28-35 | appending an item whose key differs from every key on the list keeps the keys distinct |
| Items.AppendKeepsInvariants | src/App.tsx:82 | appending an item with a new id (or name, or a positive quantity) keeps ids (or names) distinct (or quantities positive) |
| App.MapRecords | src/App.tsx:25-31 | the fetched list has one item per record, in order; each item takes the record's id, Termék, Mennyiség and Mennyiségi egység and is not purchased |
| App.FetchedItemsAllRemaining | src/App.tsx:25-31 | on a freshly fetched list every item remains to buy and "all purchased" is false |
| App.MathMax | src/App.tsx:58 | Math.max is -Infinity exactly when it has no finite argument; otherwise it is one of its arguments and at least every finite one |
| App.NewIdAsWritten | src/App.tsx:58-59 | the id computed as written is -Infinity exactly when the list has no finite id, in particular when the list is empty |
| App.AsWrittenIdsCollide | src/App.tsx:58-59 | once the list starts empty, the new id as written is -Infinity, and the next one computed after it is -Infinity again |
| App.NextId | src/App.tsx:58-59 | the new id exceeds every id on the list; on a non-empty list it is one more than some existing id, and on an empty list it is 1 |
| App.NextIdAgreesWithAsWritten | src/App.tsx:58-59 | on a non-empty list the corrected id equals the one computed by lines 58-59 |
| App.MissingInput | src/App.tsx:43 | the first check fails exactly when the name is all whitespace or the quantity or the unit is the empty string |
| App.PositiveQuantity | src/App.tsx:48 | no blank quantity passes the second check |
| App.DuplicateAsWritten | src/App.tsx:53 | on a name without surrounding whitespace, comparing the raw input is the same as comparing the trimmed name |
| App.Duplicate | src/App.tsx:53-63 | while every stored name is trimmed, the check on the trimmed name rejects every name that line 53 rejects |
| App.AsWrittenCheckAdmitsDuplicateName | src/App.tsx:53-63 | as written, " Milk" passes the duplicate check next to "Milk" and is stored as "Milk", so the stored names are no longer distinct |
| App.PrepareItemAsWritten | src/App.tsx:43-67 | addItem as written, on a list of integer ids: a missing field gives MissingField, then a non-numeric or non-positive quantity gives InvalidQuantity, then a taken raw name gives DuplicateName, and input passing all three is accepted; the item has the trimmed name and unit and the number the check accepted, and its id is -Infinity exactly on an empty list and otherwise one more than the largest id |
| App.PrepareItem | src/App.tsx:43-67 | addItem's checks apply in order, each winning over the later ones: a missing field gives MissingField, then a non-numeric or non-positive quantity gives InvalidQuantity, then a taken trimmed name gives DuplicateName; input passing all three gives exactly the item with id NextId, the trimmed name and unit, the number Number gave and purchased false; a passed item has the trimmed name (non-empty) and unit, the number the check accepted (positive), purchased false, an id above every existing id and a name no existing item has |
| App.PrepareItemAgreesWithAsWritten | src/App.tsx:43-67 | on a non-empty list and a name without surrounding whitespace, the model's add and the add as written give the same error or the same item |
| App.CorrectedCheckAdmitsPaddedStoredName | src/App.tsx:53 | with a fetched item named "Milk ", line 53 rejects "Milk " while the model's check accepts it |
| App.TrimmedWords | src/App.tsx:63-65 | trim leaves "Milk" and "L" unchanged |
| App.AddMilkToEmptyList | src/App.tsx:58-67 | with the corrected id, adding "Milk", "2", "L" to an empty list gives item 1, unpurchased, with quantity 2, after which one item remains to buy |
| App.AddMilkToEmptyListAsWritten | src/App.tsx:58-67 | as written, the same add gives the item the id -Infinity |
| App.NonPositiveQuantitiesRejected | src/App.tsx:48-51 | "0", "-3" and "abc" fail the quantity check |
| App.BlankQuantityAndUnit | src/App.tsx:43-51 | a quantity made of spaces fails the quantity check rather than the field check; a unit made of spaces is accepted and stored as the empty string |
| App.ShoppingListApp.constructor | src/App.tsx:13-17 | the list, the three inputs and the error start empty |
| App.ShoppingListApp.FetchItems | src/App.tsx:19-40 | a resolved fetch replaces the list with the mapped records; a failed fetch changes nothing |
| App.ShoppingListApp.SetItemName | src/App.tsx:125 | sets the name input and nothing else |
| App.ShoppingListApp.SetQuantity | src/App.tsx:131 | sets the quantity input and nothing else |
| App.ShoppingListApp.SetUnit | src/App.tsx:137 | sets the unit input and nothing else |
| App.ShoppingListApp.AddItem | src/App.tsx:42-91 | on a passed check and a resolved POST, the list gains exactly the prepared item at its end and the inputs and the error are cleared; otherwise the list and the inputs stay and the error is the failed check's, or AddFailed; distinct ids, distinct names and positive quantities are preserved |
| App.ShoppingListApp.TogglePurchased | src/App.tsx:93-99 | the list becomes its toggle by id, nothing else changes, and the list invariants are preserved |
| App.ShoppingListApp.DeleteItem | src/App.tsx:101-111 | a resolved DELETE filters out the id and keeps the error; a failed one keeps the list and sets DeleteFailed; the inputs never change and the list invariants are preserved |
| App.ShoppingListApp.RemainingItemsCount | src/App.tsx:114 | the count is at most the length, and 0 exactly when every item is purchased |
| App.ShoppingListApp.AllItemsPurchased | src/App.tsx:113 | true exactly when the list is non-empty and nothing remains |
| App.ShoppingListApp.Summary | src/App.tsx:143-147 | nothing is shown exactly for an empty list; the success message exactly when a non-empty list has nothing remaining; otherwise the remaining count, which is positive |
| BevListaComponent.MissingInput | src/components/BevLista.tsx:20 | the first check fails exactly when one of the three fields is all whitespace |
| BevListaComponent.PrepareTermek | src/components/BevLista.tsx:19-35 | hozzaadTermek's checks apply in order: a field that is blank gives MissingField, then a quantity Number rejects gives InvalidQuantity, then a taken raw name gives DuplicateName, and input passing all three is accepted; a passed item carries the id `now`, the raw name and unit (neither blank), the number Number gave, purchased false, and a name no existing item has |
| BevListaComponent.AcceptsZeroQuantity | src/components/BevLista.tsx:24-35 | the quantity "0" is accepted and stored as 0 |
| BevListaComponent.AcceptsNegativeQuantity | src/components/BevLista.tsx:24-35 | the quantity "-3" is accepted and stored as -3 |
| BevListaComponent.PaddedNameIsAnotherName | src/components/BevLista.tsx:28-34 | " Tej" is accepted next to "Tej" and stored untrimmed, as a different name |
| BevListaComponent.BevLista.constructor | src/components/BevLista.tsx:13-17 | the list, the three inputs and the error start empty |
| BevListaComponent.BevLista.SetNev | src/components/BevLista.tsx:62 | sets the name input and nothing else |
| BevListaComponent.BevLista.SetMennyiseg | src/components/BevLista.tsx:68 | sets the quantity input and nothing else |
| BevListaComponent.BevLista.SetEgyseg | src/components/BevLista.tsx:74 | sets the unit input and nothing else |
| BevListaComponent.BevLista.HozzaadTermek | src/components/BevLista.tsx:19-40 | on a passed check the list gains exactly the prepared item at its end and the inputs and the error are cleared; on a failed check only the error changes, to that check's; names stay distinct, and ids stay distinct when `now` is not already an id |
| BevListaComponent.BevLista.TorolTermek | src/components/BevLista.tsx:42-44 | the list becomes its filter by id, nothing else changes, and distinct names and ids are preserved |
| BevListaComponent.BevLista.ValtMegvasarolva | src/components/BevLista.tsx:46-52 | the list becomes its toggle by id, nothing else changes, and distinct names and ids are preserved |
| BevListaComponent.BevLista.Summary | src/components/BevLista.tsx:90-96 | nothing is shown exactly for an empty list; "all purchased" exactly when "all purchased" holds; otherwise the remaining count, which is positive |

## Left out

- The HTTP transport and the JSON encoding of the GET, POST and DELETE requests (`src/App.tsx:22-23,70-81,103-105`). Each outcome is a boolean argument, and the fetched records arrive already decoded as `App.Record` values.
- `console.error` logging, JSX rendering, CSS, the exact Hungarian messages (one `Items.Error` constructor per kind of message) and the `App` wrapper component (`src/App.tsx:166-172`).
- React's own machinery: `useState`, `useEffect`, stale closures in the async handlers, and overlapping async calls. Each handler is one atomic transition.
- Numbers.ToNumber and Numbers.ParseFloat: only decimal notation is modelled (optional sign, digits, optional fraction). Exponents, hexadecimal, binary and octal literals, `Infinity`, and the distinction between -0 and 0 are treated as NaN or left aside. Quantities are exact reals, not IEEE doubles, so rounding is not modelled.
- Numbers.ParseFloatAgreesWithNumber holds for decimal notation only. In JavaScript `Number("0x10")` is 16 and passes line 48, while `parseFloat("0x10")` is 0 and is what line 64 stores; the same holds for `0b` and `0o` literals. The preservation of positive quantities by App.ShoppingListApp.AddItem rests on the same agreement. A browser's `type="number"` input filters such text, but that filter is not modelled.
- Numbers.NotANumeral calls "Infinity" NaN. JavaScript's Number and parseFloat both read "Infinity", "+Infinity" and "-Infinity" as infinite numbers, which the model does not have.
- App.PrepareItem uses the corrected id and duplicate check of the Findings below. It differs from lines 53 and 58-59 only on an empty list (id 1 instead of -Infinity) and on a name with surrounding whitespace: App.PrepareItemAgreesWithAsWritten proves agreement outside those cases, and App.AsWrittenCheckAdmitsDuplicateName and App.CorrectedCheckAdmitsPaddedStoredName show the difference both ways.
- App.AddMilkToEmptyList uses the corrected id 1; as written the item gets -Infinity, which App.AddMilkToEmptyListAsWritten states.
- App.PrepareItemAsWritten takes a list whose ids are integers, so it never sees a list that already holds an item with the id -Infinity, which is what an as-written add to an empty list leaves behind. On such a list lines 58-59 give -Infinity again even though it is not empty; App.AsWrittenIdsCollide covers that case at the level of ids.
- App.NewIdAsWritten covers only the -Infinity outcome of `Math.max` with ids as integers. NaN ids and the rest of floating-point arithmetic are not modelled.
- `Date.now()` (`src/components/BevLista.tsx:34`) is the argument `now`. Nothing in the code makes it differ from existing ids, so BevListaComponent.BevLista.HozzaadTermek preserves distinct ids only under that assumption.
- App.ShoppingListApp.AddItem uses the corrected id and duplicate-name check from the Findings below, not the code as written; the as-written behaviour is modelled by the members named there.
- The `type="number"` attribute of the quantity input (`src/App.tsx:129`). Browsers filter what such an input accepts, but the model lets the quantity input hold any string.

## Findings

| source | as written | input that shows it | evidently intended | confidence | as-written member | corrected member |
|---|---|---|---|---|---|---|
| src/App.tsx:58-59 | the new id is `Math.max(...ids) + 1`, which is -Infinity when the list is empty | add two items to an empty list: both get the id -Infinity, so ids and React keys collide | a fresh id above every existing one, such as 1 on an empty list | not executed | App.AsWrittenIdsCollide | App.NextId |
| src/App.tsx:53,63 | the duplicate check compares the untrimmed input, but the stored name is trimmed | add " Milk" to a list that holds "Milk": the check passes, and a second "Milk" is stored | compare the name that will be stored, so stored names stay distinct; this also accepts "Milk " next to a fetched "Milk " (it is stored as "Milk"), which the code rejects | not executed | App.AsWrittenCheckAdmitsDuplicateName | App.PrepareItem |
