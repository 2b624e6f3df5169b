# Permutation wizard selection model

A Dafny model of the selection logic of the permutation wizard, a single-page
app. The user browses a catalog of QR-code variants, which the app calls
"permutations". Each variant has a brand, a campaign, a colour and a call to
action. Clicking a card selects or deselects it. Reset clears the selection.
A confirmation screen lists the chosen variants.

The app keeps the selection in two parallel arrays:

- `selectedUuids` holds the chosen ids.
- `selectedData` holds the full records in the same order.

A click copies both arrays. If the id is already present, the app finds its
position with `indexOf` and removes that position from both arrays with
`splice`. Otherwise it pushes the id and the record onto the ends.

Modules:

- `Types` (types.dfy): the record `PermutationData` and its two closed
  enumerations, `QRColor` and `CallToAction`.
- `JsArray` (js_array.dfy): the three JavaScript array built-ins the handler
  uses, with their ECMAScript semantics:
  - `includes` on an array of strings;
  - `indexOf` on an array of strings, which returns -1 when the value is absent;
  - `splice(start, 1)`, including a negative or too large start.
- `SelectionModel` (selection.dfy): the selection as a value. It defines the
  toggle and reset operations and the invariant they are meant to keep: the
  arrays stay aligned (`selectedUuids[i] == selectedData[i].id`) and no id is
  repeated. It also proves what toggling twice does.
- `Views` (views.dfy): the catalog screen and the confirmation screen as values.
  Each screen shows its placeholder exactly when its list is empty, and
  otherwise shows one card per record, in list order.
- `Wizard` (app.dfy): the top-level component as a class. The catalog and the
  two selection arrays are `seq` fields. The click handlers are methods, and
  each one is proved to equal the value-level operation.

Toggling an item twice is not an exact involution. From the unselected state it
restores both arrays exactly. From the selected state it restores membership,
but the item moves to the end of both arrays, and its record becomes the one
passed to the second click. `ToggleTwiceMovesToEnd` gives a two-item example.

The membership flip (the toggled id is selected afterwards exactly when it was
not selected before) relies on the no-duplicates invariant. `indexOf` finds
only the first occurrence, so one click removes only one copy of a repeated id.

## Model

| member | source | states |
|---|---|---|
| Types.CallToActionText | src/App.tsx:8 | the two calls to action are exactly the texts "Scan Here" and "Point. Aim. Shoot", which the cards display |
| JsArray.Includes | src/App.tsx:110 | `includes` on an array of strings answers true exactly when some position holds the string |
| JsArray.IndexOf | src/App.tsx:111 | `indexOf` on an array of strings answers -1 exactly when the string is absent; otherwise it answers a position that holds the string, with no earlier position holding it |
| JsArray.RelativeStart | src/App.tsx:112-113 | splice's start is clamped to the array: a negative start counts from the end and stops at 0, and a start past the end becomes the length |
| JsArray.SpliceOne | src/App.tsx:112-113 | `splice(start, 1)` drops the element at the relative start, if there is one; the elements before it stay where they were and those after it shift down by one |
| SelectionModel.Empty | src/App.tsx:96-97 | the selection starts with both arrays empty |
| SelectionModel.IsSelected | src/App.tsx:134 | an item is shown as selected exactly when its id occurs among the selected ids |
| SelectionModel.Toggle | src/App.tsx:107-120 | toggling an absent id grows both arrays by one; toggling a present id shrinks the ids by one, and also the records when the arrays have equal length |
| SelectionModel.ToggleAppendsWhenAbsent | src/App.tsx:114-117 | an absent item's id and record go at the ends of the two arrays; everything before them is unchanged |
| SelectionModel.ToggleRemovesFirstOccurrence | src/App.tsx:110-113 | a present item is removed from both arrays at the first position of its id; all other elements keep their relative order |
| SelectionModel.RemoveKeepsNoDuplicates | src/App.tsx:112 | removing one id from a list without duplicates leaves a list without duplicates |
| SelectionModel.ToggleKeepsAligned | src/App.tsx:107-119 | if the arrays were aligned before a toggle, they are still aligned after it |
| SelectionModel.ToggleKeepsNoDuplicates | src/App.tsx:110-117 | a toggle never creates a duplicate id, because push happens only when `includes` is false |
| SelectionModel.ToggleKeepsValid | src/App.tsx:107-119 | a toggle keeps alignment and uniqueness together |
| SelectionModel.ToggleFlipsMembership | src/App.tsx:110-117 | without duplicates, the toggled id is selected afterwards exactly when it was not before, and every other id keeps its membership |
| SelectionModel.ToggleTwiceFromUnselected | src/App.tsx:110-117 | toggling an unselected item twice restores both arrays exactly, if they had equal length |
| SelectionModel.ToggleTwiceFromSelected | src/App.tsx:110-117 | toggling a selected item twice restores membership but moves the id and the passed record to the ends |
| SelectionModel.ToggleTwiceMovesToEnd | src/App.tsx:110-117 | a valid two-item selection where toggling the first item twice yields the reversed order, so a double toggle is not the identity |
| SelectionModel.RunKeepsValid | src/App.tsx:107-125 | from a valid selection, any sequence of toggles and resets leaves a valid selection |
| Views.CatalogCards | src/App.tsx:133-138 | the catalog gets one card per item, in catalog order. Each card carries the item's id, brand, call-to-action text and colour, and is highlighted exactly when the id is selected |
| Views.RenderPermutations | src/App.tsx:127-139 | the catalog shows "None found." exactly when it is empty; otherwise it shows a card for every item, in order, with the item's id, brand, call-to-action text, colour and selected flag |
| Views.SelectedCards | src/App.tsx:71-75 | the confirmation screen gets one card per selected record, in selection order, showing the record's brand, call-to-action text and colour |
| Views.RenderSelected | src/App.tsx:65-76 | the confirmation screen shows "None selected." exactly when no record is selected; otherwise it shows one card per selected record, in order |
| Views.ConfirmationShowsSelectedIds | src/App.tsx:66-75 | on an aligned selection, the confirmation screen shows exactly the selected ids, in selection order |
| Views.ToggleFlipsOnlyThatHighlight | src/App.tsx:134 | after a toggle, the toggled item's catalog card flips its highlight and every other card keeps its highlight |
| Views.SelectOneThenThree | src/App.tsx:107-120 | from the empty selection, clicking 1 and then 3 leaves the ids 1, 3 and their records in that order |
| Views.SelectOneThenThreeThenOne | src/App.tsx:107-120 | clicking 1 again after that leaves only the id 3 and its record |
| Views.ConfirmationScenario | src/App.tsx:66-75 | with the catalog 1, 2, 3, selecting 1 and then 3 highlights exactly cards 1 and 3 and confirms 1 then 3; deselecting 1 afterwards highlights only 3 and confirms 3 alone |
| Wizard.App.constructor | src/App.tsx:95-97 | a session starts with an empty catalog and an empty, valid selection |
| Wizard.App.SetData | src/App.tsx:103 | a completed load replaces the catalog and leaves the selection as it was |
| Wizard.App.HandleSelect | src/App.tsx:107-120 | the new arrays are the toggle of the old ones, and the catalog is unchanged. The invariant is kept, and the clicked id's membership flips |
| Wizard.App.HandleReset | src/App.tsx:122-125 | both arrays become empty whatever they held, and the catalog is unchanged |

## Left out

- The catalog fetch and its JSON decoding (src/App.tsx:99-105) are network I/O. `SetData` takes the decoded list as a parameter. Only a rejected fetch (a network or CORS error) or a body that fails to parse as JSON leaves the catalog empty, showing "None found.". An HTTP error response still resolves, and its body is passed to `setData` whenever it parses.
- Wizard.App.SetData: assumes the decoded body is an array of well-formed records. A body that parses to something else, such as an object or `null`, is stored as the catalog; the catalog render (src/App.tsx:128-133) then throws and the page goes blank. That case is not modelled.
- React scheduling is not modelled. The `useState` setters become plain field assignments. The `useEffect` that copies `isSelected` into the card's local state (src/App.tsx:25-29) is not modelled: the card's flag is taken to be the prop.
- Routing between the catalog and the confirmation screen (src/App.tsx:158-164) is library wiring. Both screens are modelled as functions of the state.
- Colours, borders and other styling (src/App.tsx:35-41, 52-56) are presentation only. A card keeps the fields it displays and its colour variable.
- The `last_modified` and `time_stamp` dates are read by nothing, so `PermutationData` does not have them.
