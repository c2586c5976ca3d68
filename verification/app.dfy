/** The `App` component of src/App.js with React and the browser abstracted
    away: its state hooks become one immutable record, each handler a pure
    step, and the browser history a count of the entries the app pushed. */
module App {
  import opened Wrappers
  import opened Ledger
  import opened Text

  /** The two screens (line 15). */
  datatype View = Home | Details

  /** The component's state hooks (lines 15-19), plus `depth`: how many
      history entries the app has pushed above the one it was loaded in and
      that no back navigation has consumed yet. */
  datatype AppState = AppState(
    view: View,
    customers: seq<Customer>,
    selected: Option<Customer>,
    showAddModal: bool,
    newCustomerName: string,
    depth: nat)

  /** The error JavaScript raises when reading `.id` of a null selection. */
  datatype JsError = TypeError

  /** What the page is doing after an event: still running the app, left
      (the browser navigated back past the app's first entry), or stopped by
      an uncaught error. */
  datatype Outcome = Running(state: AppState) | LeftApp | Crashed

  /** The state on load: home screen, nothing selected, modal closed. */
  function Start(customers: seq<Customer>): AppState
  {
    AppState(Home, customers, None, false, "", 0)
  }

  // ---------------------------------------------------------------- navigation

  /** `navigateToDetails` (lines 43-49): push one history entry, select the
      customer, show the details screen. */
  function NavigateToDetails(s: AppState, c: Customer): AppState
  {
    s.(depth := s.depth + 1, selected := Some(c), view := Details)
  }

  /** The `popstate` listener (lines 24-34): leave details first, otherwise
      close the add-customer modal, otherwise do nothing. */
  function OnPopState(s: AppState): AppState
  {
    if s.view == Details then s.(view := Home, selected := None)
    else if s.showAddModal then s.(showAddModal := false)
    else s
  }

  /** One back navigation: the browser's back button, or `history.back()`
      from the in-app arrow (`navigateHome`, lines 51-54). It consumes one of
      the app's own entries and fires `popstate`, or, when none is left,
      leaves the page without the listener running. */
  function Back(s: AppState): Outcome
  {
    if s.depth == 0 then LeftApp else Running(OnPopState(s.(depth := s.depth - 1)))
  }

  /** The back handler's priority order: details to home with the selection
      cleared; else close the modal; else nothing. Each consumes exactly one
      pushed entry and leaves the ledger and the typed name untouched. */
  lemma BackPriority(s: AppState)
    requires s.depth > 0
    ensures Back(s).Running?
    ensures var r := Back(s).state;
      && r.depth == s.depth - 1
      && r.view == Home
      && r.customers == s.customers
      && r.newCustomerName == s.newCustomerName
      && (s.view == Details ==> r.selected == None && r.showAddModal == s.showAddModal)
      && (s.view == Home ==> r.selected == s.selected && !r.showAddModal)
  {
  }

  /** Opening a customer and going back undoes the visit: home, no
      selection, and the history depth back where it was. */
  lemma DetailsThenBack(s: AppState, c: Customer)
    ensures Back(NavigateToDetails(s, c)) == Running(s.(view := Home, selected := None))
    ensures s.view == Home && s.selected == None ==> Back(NavigateToDetails(s, c)) == Running(s)
  {
  }

  /** `k` successive visits to the details screen. */
  function VisitDetails(s: AppState, c: Customer, k: nat): AppState
  {
    if k == 0 then s else NavigateToDetails(VisitDetails(s, c, k - 1), c)
  }

  /** `k` successive back navigations; stops once the page is left. */
  function Backs(s: AppState, k: nat): Outcome
    decreases k
  {
    if k == 0 then Running(s)
    else match Back(s)
      case Running(s') => Backs(s', k - 1)
      case other => other
  }

  lemma {:induction false} VisitDetailsPushes(s: AppState, c: Customer, k: nat)
    requires k >= 1
    ensures VisitDetails(s, c, k) == s.(depth := s.depth + k, selected := Some(c), view := Details)
  {
    if k > 1 {
      VisitDetailsPushes(s, c, k - 1);
    }
  }

  /** On the home screen with no modal open, back navigations only consume
      pushed entries. */
  lemma {:induction false} BacksAtRestingHome(s: AppState, k: nat)
    requires s.view == Home && !s.showAddModal && k <= s.depth
    ensures Backs(s, k) == Running(s.(depth := s.depth - k))
    decreases k
  {
    if k > 0 {
      BacksAtRestingHome(s.(depth := s.depth - 1), k - 1);
    }
  }

  /** As many back navigations as details visits return to the home screen
      with nothing selected and the history depth restored; the add-customer
      modal survives only the single-visit case. */
  lemma {:induction false} VisitsThenEqualBacks(s: AppState, c: Customer, k: nat)
    requires k >= 1
    ensures Backs(VisitDetails(s, c, k), k)
         == Running(s.(view := Home, selected := None, showAddModal := s.showAddModal && k == 1))
  {
    VisitDetailsPushes(s, c, k);
    var v := VisitDetails(s, c, k);
    var h := s.(view := Home, selected := None, depth := s.depth + k - 1);
    assert Back(v) == Running(h);
    if k > 1 {
      var h' := h.(depth := h.depth - 1, showAddModal := false);
      assert Back(h) == Running(h');
      BacksAtRestingHome(h', k - 2);
    }
  }

  // ---------------------------------------------------------------- customers

  /** `handleAddCustomer` (lines 67-79): when the typed name is not blank
      after trimming, append a new customer under that name, untrimmed, with
      no phone and no transactions, then clear the name and close the modal.
      A blank name changes nothing: the modal stays open. */
  function HandleAddCustomer(s: AppState, id: int): (r: AppState)
    ensures IsBlank(s.newCustomerName) ==> r == s
    ensures !IsBlank(s.newCustomerName) ==>
      && |r.customers| == |s.customers| + 1
      && r.customers[..|s.customers|] == s.customers
      && r.customers[|s.customers|] == Customer(id, s.newCustomerName, "", [])
      && r.newCustomerName == []
      && !r.showAddModal
      && r.view == s.view && r.selected == s.selected && r.depth == s.depth
  {
    TrimEmptyIffBlank(s.newCustomerName);
    if Trim(s.newCustomerName) != [] then
      var added := Customer(id, s.newCustomerName, "", []);
      s.(customers := s.customers + [added], newCustomerName := "", showAddModal := false)
    else
      s
  }

  // ------------------------------------------------------------- transactions

  /** A customer with one more transaction at the end of their list. */
  function WithTransaction(c: Customer, t: Transaction): Customer
  {
    c.(transactions := c.transactions + [t])
  }

  /** The `customers.map` of `handleTransaction` (lines 83-96): every customer
      whose id is `id` gets `t` appended; every other one is kept as is. */
  function AppendWhereId(cs: seq<Customer>, id: int, t: Transaction): (r: seq<Customer>)
    ensures |r| == |cs|
    ensures forall i :: 0 <= i < |cs| && cs[i].id == id ==> r[i] == WithTransaction(cs[i], t)
    ensures forall i :: 0 <= i < |cs| && cs[i].id != id ==> r[i] == cs[i]
  {
    if cs == [] then []
    else
      var head := if cs[0].id == id then WithTransaction(cs[0], t) else cs[0];
      [head] + AppendWhereId(cs[1..], id, t)
  }

  /** The position of the last customer with the given id, if any. */
  function LastIndexWithId(cs: seq<Customer>, id: int): (r: Option<nat>)
    ensures r.None? <==> forall i :: 0 <= i < |cs| ==> cs[i].id != id
    ensures r.Some? ==> r.value < |cs| && cs[r.value].id == id
    ensures r.Some? ==> forall k :: r.value < k < |cs| ==> cs[k].id != id
  {
    if cs == [] then None
    else if cs[|cs| - 1].id == id then Some(|cs| - 1)
    else LastIndexWithId(cs[..|cs| - 1], id)
  }

  /** `handleTransaction` (lines 81-98). `amountText` is what the prompt
      returned and `amount` the number `parseFloat` reads from it; `id` and
      `date` stand for `Date.now()` and today's date. An empty text is a
      no-op. Otherwise every customer whose id matches the selection gets the
      new transaction appended, and the selection is replaced by the updated
      entry; as `setSelectedCustomer` runs once per match, the last match
      wins, and with no match the selection is left as it was. A null
      selection throws as soon as the map visits its first customer. */
  function HandleTransaction(s: AppState, kind: Kind, amountText: string, amount: int, id: int, date: string)
    : (r: Result<AppState, JsError>)
    ensures amountText == [] ==> r == Success(s)
    ensures amountText != [] && s.selected.None? ==>
      r == if s.customers == [] then Success(s) else Failure(TypeError)
    ensures amountText != [] && s.selected.Some? ==> r.Success?
    ensures amountText != [] && s.selected.Some? ==>
      var sid := s.selected.value.id;
      var t := Transaction(id, kind, amount, date);
      var cs := r.value.customers;
      && |cs| == |s.customers|
      && (forall i :: 0 <= i < |cs| && s.customers[i].id == sid ==>
            cs[i].id == sid
            && cs[i].name == s.customers[i].name
            && cs[i].phone == s.customers[i].phone
            && cs[i].transactions == s.customers[i].transactions + [t])
      && (forall i :: 0 <= i < |cs| && s.customers[i].id != sid ==> cs[i] == s.customers[i])
      && ((forall i :: 0 <= i < |cs| ==> s.customers[i].id != sid) ==> r.value.selected == s.selected)
      && (forall i :: 0 <= i < |cs| && s.customers[i].id == sid
            && (forall k :: i < k < |cs| ==> s.customers[k].id != sid)
            ==> r.value.selected == Some(cs[i]))
      && r.value.view == s.view
      && r.value.showAddModal == s.showAddModal
      && r.value.newCustomerName == s.newCustomerName
      && r.value.depth == s.depth
  {
    if amountText == [] then Success(s)
    else if s.selected.None? then
      if s.customers == [] then Success(s) else Failure(TypeError)
    else
      var sid := s.selected.value.id;
      var cs := AppendWhereId(s.customers, sid, Transaction(id, kind, amount, date));
      var sel := match LastIndexWithId(s.customers, sid)
        case Some(j) => Some(cs[j])
        case None => s.selected;
      Success(s.(customers := cs, selected := sel))
  }

  /** Recording a transaction moves the balance of every customer carrying
      the selected id by its contribution (+amount for 'given', -amount for
      'received') and leaves every other customer's balance as it was. */
  lemma TransactionMovesBalance(s: AppState, kind: Kind, amountText: string, amount: int, id: int, date: string, i: nat)
    requires amountText != [] && s.selected.Some?
    requires i < |s.customers|
    ensures var r := HandleTransaction(s, kind, amountText, amount, id, date).value;
      var before := Balance(s.customers[i].transactions);
      var after := Balance(r.customers[i].transactions);
      && (s.customers[i].id == s.selected.value.id ==> after == before + Contribution(Transaction(id, kind, amount, date)))
      && (s.customers[i].id == s.selected.value.id && kind == Given ==> after == before + amount)
      && (s.customers[i].id == s.selected.value.id && kind == Received ==> after == before - amount)
      && (s.customers[i].id != s.selected.value.id ==> after == before)
  {
    var t := Transaction(id, kind, amount, date);
    BalanceAppend(s.customers[i].transactions, t);
  }

  /** Ids are not guaranteed unique (they come from the clock), but when they
      are, the selection after a transaction is exactly the updated list
      entry of the selected customer. */
  lemma SelectionIsUpdatedEntry(s: AppState, kind: Kind, amountText: string, amount: int, id: int, date: string, i: nat)
    requires amountText != [] && s.selected.Some?
    requires i < |s.customers| && s.customers[i].id == s.selected.value.id
    requires forall j :: 0 <= j < |s.customers| && j != i ==> s.customers[j].id != s.customers[i].id
    ensures var r := HandleTransaction(s, kind, amountText, amount, id, date).value;
      && r.selected == Some(r.customers[i])
      && r.customers[i] == WithTransaction(s.customers[i], Transaction(id, kind, amount, date))
  {
  }

  // ------------------------------------------------------------- whole screen

  /** What the user can do. Each event is a control of the rendered page. */
  datatype Event =
    | TapCustomer(index: nat)      // a card of the home list (line 114)
    | OpenAddModal                 // the '+' button (line 129)
    | DismissAddModal              // the overlay or 'Cancel' (lines 133, 146)
    | TypeName(text: string)       // the name field (line 141)
    | SaveCustomer(id: int)        // 'Save' (line 147); `id` stands for Date.now()
    | EnterAmount(gave: bool, text: string, amount: int, id: int, date: string)
                                   // 'GAVE' / 'GOT' and their prompt (lines 183-194)
    | BackArrow                    // the header arrow (line 159)
    | BrowserBack                  // the browser's own back button

  /** The details screen is on the page (line 156). */
  predicate DetailsShown(s: AppState)
  {
    s.view == Details && s.selected.Some?
  }

  /** The add-customer modal is on the page (lines 104 and 132). */
  predicate ModalShown(s: AppState)
  {
    s.view == Home && s.showAddModal
  }

  /** The effect of one event. An event whose control is not on the page
      changes nothing. */
  function Step(s: AppState, e: Event): (o: Outcome)
    ensures o != Crashed
  {
    match e
    case TapCustomer(i) =>
      if s.view == Home && i < |s.customers| then Running(NavigateToDetails(s, s.customers[i])) else Running(s)
    case OpenAddModal =>
      if s.view == Home then Running(s.(showAddModal := true)) else Running(s)
    case DismissAddModal =>
      if ModalShown(s) then Running(s.(showAddModal := false)) else Running(s)
    case TypeName(text) =>
      if ModalShown(s) then Running(s.(newCustomerName := text)) else Running(s)
    case SaveCustomer(id) =>
      if ModalShown(s) then Running(HandleAddCustomer(s, id)) else Running(s)
    case EnterAmount(gave, text, amount, id, date) =>
      if DetailsShown(s) then
        match HandleTransaction(s, if gave then Given else Received, text, amount, id, date)
        case Success(r) => Running(r)
        case Failure(_) => Crashed
      else Running(s)
    case BackArrow =>
      if DetailsShown(s) then Back(s) else Running(s)
    case BrowserBack =>
      Back(s)
  }

  /** Runs a sequence of events from a state; stops once the page is left. */
  function Run(s: AppState, es: seq<Event>): Outcome
  {
    if es == [] then Running(s)
    else match Run(s, es[..|es| - 1])
      case Running(s') => Step(s', es[|es| - 1])
      case other => other
  }

  /** What holds in every state the app can reach: the details screen is
      shown exactly when a customer is selected, the selected customer is an
      entry of the current list, and the app has pushed one history entry
      while on details and none while at home. */
  predicate Consistent(s: AppState)
  {
    && (s.view == Details <==> s.selected.Some?)
    && (s.selected.Some? ==> s.selected.value in s.customers)
    && s.depth == (if s.view == Details then 1 else 0)
  }

  lemma StepKeepsConsistent(s: AppState, e: Event)
    requires Consistent(s)
    ensures Step(s, e).Running? ==> Consistent(Step(s, e).state)
  {
  }

  /** Every state reached from the start by any sequence of events is
      consistent, and no event sequence crashes the app. */
  lemma {:induction false} ReachableIsConsistent(cs: seq<Customer>, es: seq<Event>)
    ensures Run(Start(cs), es) != Crashed
    ensures Run(Start(cs), es).Running? ==> Consistent(Run(Start(cs), es).state)
  {
    if es != [] {
      ReachableIsConsistent(cs, es[..|es| - 1]);
      match Run(Start(cs), es[..|es| - 1])
      case Running(s') =>
        StepKeepsConsistent(s', es[|es| - 1]);
      case _ =>
    }
  }

  /** The add-customer modal pushes no history entry, so in every reachable
      state a back navigation from the home screen leaves the page, even with
      the modal open: the listener's modal branch never runs on a back press. */
  lemma BackAtHomeLeaves(s: AppState)
    requires Consistent(s) && s.view == Home
    ensures Back(s) == LeftApp
    ensures Step(s, BrowserBack) == LeftApp
  {
  }

  /** From a reachable details screen, either back control returns to the
      home screen with nothing selected and no pushed entry left. */
  lemma BackFromDetails(s: AppState, e: Event)
    requires Consistent(s) && s.view == Details
    requires e == BackArrow || e == BrowserBack
    ensures Step(s, e) == Running(s.(view := Home, selected := None, depth := 0))
    ensures Consistent(Step(s, e).state)
  {
  }
}
