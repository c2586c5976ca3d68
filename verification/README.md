# Credit ledger with back-button navigation, modelled in Dafny

This project models the behavioural core of a small shop-keeper's credit
ledger, a single React component (`src/App.js`). The shop owner keeps a
list of customers. Each customer holds transactions of two kinds: value
*given* to the customer and payment *received* from them. A customer's net
balance is what was given minus what was received. The component has a home
list and a per-customer details screen. It also has an add-customer modal.
It ties the details screen to the browser's back button by pushing one
history entry when a customer is opened.

React, the DOM and the browser are abstracted away. The component's state
hooks become one immutable record, `App.AppState`. Every handler becomes a
pure function on that record. The browser history becomes `depth`, the
number of entries the app has pushed and no back navigation has consumed.

Modules:

- `Wrappers` (`wrappers.dfy`): `Option` for JavaScript `null`, `Result`
  for a handler that throws.
- `Text` (`text.dfy`): JavaScript `String.prototype.trim`, using the
  ECMAScript whitespace and line-terminator characters. Also the decimal
  text a template literal gives a non-negative integer.
- `Ledger` (`ledger.dfy`): `Kind`, `Transaction`, `Customer`, the balance
  fold `calculateBalance`, and the initial data.
- `Display` (`display.dfy`): the balance badge of a home-list card.
- `App` (`app.dfy`): the state record, the handlers
  (`navigateToDetails`, the `popstate` listener, `handleAddCustomer`,
  `handleTransaction`), and one `Step` per user event. It also holds the
  invariant that every reachable state keeps.

Modelling choices:

- Amounts are integers. `parseFloat` is not modelled: `HandleTransaction`
  receives both the prompt's raw text and the number read from it. The
  raw text decides the early return at line 82, and the number becomes the
  amount.
- Ids and dates (`Date.now()`, `new Date().toISOString()`) are parameters.
  Ids are not assumed unique, because nothing in the code makes them so.
- A transaction's `type` string is `Kind`: `Given`, `Received`, or
  `Other(tag)` for any other tag. The balance ignores `Other`.
- `selectedCustomer.id` throws a `TypeError` when nothing is selected. The
  throw happens only once the map visits a customer, so an empty list does
  not throw. `HandleTransaction` returns `Failure(TypeError)` in exactly
  that case.
- `setSelectedCustomer` runs once per matching customer, and the last call
  wins. So the new selection is the last updated entry carrying the
  selected id. When no entry carries that id, the selection is unchanged.
- Back navigation with `depth == 0` leaves the page. The `popstate`
  listener does not run then. The in-app back arrow calls `history.back()`,
  so it behaves exactly like the browser's button.
- Controls are available exactly when the JSX renders them. A card can be
  tapped whenever the home list is rendered, even with the modal open.
  Whether the overlay's CSS covers the cards is not modelled, so the model
  allows more behaviours than the page may, never fewer.

Where the code and the design description of the system disagree, the
model follows the code:

- The design says that opening an overlay pushes a history entry. The '+'
  button (line 129) does not push one. So in every reachable state a back
  navigation from the home screen leaves the page, even with the modal open
  (`App.BackAtHomeLeaves`). The listener's modal branch (lines 29-31) runs
  only when entries remain at home. `App.BackPriority` and
  `App.VisitsThenEqualBacks` cover that case.
- The design requires amounts to be positive. The code accepts any number
  that `parseFloat` returns, zero and negative numbers included.
- The balance is always recomputed from the transactions held. No stored
  balance exists.

## Model

| member | source | states |
|---|---|---|
| Ledger.CalculateBalance | src/App.js:58-65 | The running total equals the sum of 'given' amounts minus the sum of 'received' amounts, and is 0 for an empty list. |
| Ledger.BalanceIsGivenMinusReceived | src/App.js:58-65 | The balance equals given minus received, and transactions of any other kind contribute nothing. |
| Ledger.BalanceAppend | src/App.js:60-63 | Appending one transaction changes the balance by +amount if it is 'given', by -amount if it is 'received', and not at all otherwise. |
| Ledger.InitialBalances | src/App.js:6-12 | In the initial data, Rahul Sharma (given 500, paid 200) has balance 300 and Amit Verma has balance 0. |
| Display.BalanceBadge | src/App.js:121-122 | The badge is red exactly when the balance is at least 0. It starts with the rupee sign and never contains a minus sign. It carries the "Adv" tag exactly when the balance is negative. It shows the balance's magnitude. |
| Display.BadgeRoundTrip | src/App.js:121-122 | Reading a badge back gives the balance, so no two balances share a badge. Green always comes with the "Adv" tag. |
| Display.ZeroBadge | src/App.js:122 | A zero balance shows as "₹0" in red. |
| Text.TrimStart | src/App.js:68 | The result is a suffix of the input. Everything dropped is whitespace, and the result does not start with whitespace. |
| Text.TrimEnd | src/App.js:68 | The result is a prefix of the input. Everything dropped is whitespace, and the result does not end with whitespace. |
| Text.TrimEmptyIffBlank | src/App.js:68 | `trim()` yields the empty string exactly when every character is whitespace. |
| Text.TrimIsInnerSlice | src/App.js:68 | The trimmed name is a contiguous slice of the typed name that neither starts nor ends with whitespace. |
| Text.Decimal | src/App.js:122 | A rendered amount is a non-empty string of digits with no sign and no leading zero. |
| Text.DecimalRoundTrip | src/App.js:122 | Reading the rendered digits back gives the amount. |
| App.HandleAddCustomer | src/App.js:67-79 | A blank name changes nothing, and the modal stays open. Otherwise exactly one customer is appended: it has the typed name, an empty phone and no transactions. Every earlier customer is unchanged, the name field is cleared, the modal is closed, and navigation is untouched. |
| App.AppendWhereId | src/App.js:83-96 | The list keeps its length. Each customer with the selected id gets the transaction appended at the end of its list, and every other customer is unchanged. |
| App.LastIndexWithId | src/App.js:92 | It finds the last entry with the id, and none exists exactly when no entry has it. This is the entry the last `setSelectedCustomer` call selects. |
| App.HandleTransaction | src/App.js:81-98 | Empty amount text is a no-op. A null selection throws once the list is non-empty. Otherwise the length is kept, each matching customer gets exactly the new transaction with the given kind and amount appended, and the others are unchanged. The selection becomes the last updated match, or stays as it was with no match. |
| App.TransactionMovesBalance | src/App.js:81-98 | Recording a transaction moves each matching customer's balance by +amount ('given') or -amount ('received'). Every other balance stays the same. |
| App.SelectionIsUpdatedEntry | src/App.js:92 | With unique ids, the selection after a transaction is exactly the selected customer's updated entry in the list. |
| App.BackPriority | src/App.js:24-34 | A back navigation consumes one pushed entry. Details go to home and the selection is cleared. Otherwise an open modal is closed. Otherwise nothing changes. The ledger and the typed name are untouched. |
| App.DetailsThenBack | src/App.js:43-54 | Opening a customer and then going back gives home with no selection and the history depth restored. From a resting home state this is the identity. |
| App.VisitDetailsPushes | src/App.js:43-49 | Each visit to the details screen pushes exactly one history entry and shows the chosen customer. |
| App.BacksAtRestingHome | src/App.js:29-33 | At home with no modal open, back navigations only consume pushed entries. |
| App.VisitsThenEqualBacks | src/App.js:24-54 | After k details visits and k back navigations, the app is at home with no selection and the original depth. The modal survives only when k is 1. |
| App.Step | src/App.js:156-195 | No user event crashes the page: the transaction buttons exist only while a customer is selected. |
| App.StepKeepsConsistent | src/App.js:14-198 | Every event keeps the invariant. Details are shown exactly when a customer is selected, the selected customer is an entry of the list, and the pushed depth is 1 on details and 0 at home. |
| App.ReachableIsConsistent | src/App.js:14-198 | Every state reached from the start by any sequence of events satisfies the invariant, and no sequence crashes. |
| App.BackAtHomeLeaves | src/App.js:129 | Opening the modal pushes no history entry. So in a reachable home state a back navigation leaves the page, even with the modal open. |
| App.BackFromDetails | src/App.js:159 | From reachable details, the arrow and the browser's back button both return home with no selection and no pushed entry left. |

## Left out

- React rendering, hooks and listener registration (lines 22-41, 100-199). Only the state changes that handlers make are modelled.
- `window.history` and the `popstate` event are modelled as the counter `depth`. Forward navigation is not modelled: it would re-enter a popped entry and fire `popstate` at home.
- `prompt()` is modelled as the text it returns. A cancelled prompt is modelled as empty text: both are falsy and both lead to the same no-op.
- `parseFloat` and floating-point arithmetic (line 88) are not modelled. Amounts are integers, and non-numeric text that would read as `NaN` is not represented.
- Number-to-text rendering covers integers only. JavaScript's exponent notation for very large numbers is not modelled.
- `Date.now()` ids and ISO dates (lines 70, 86, 89) are parameters, so clock behaviour is not modelled.
- The CSS class strings are reduced to the red/green choice. Whether the modal's overlay covers the cards (App.css) is not part of this model.
- The remote store, its write-then-refetch reconciliation, deleting customers or transactions, grouping by city, search, PIN login and persistence are not part of this model. None of them occurs in `src/App.js`.
