/** The ledger data: transactions, customers, and how a customer's net
    balance is derived from their transactions (src/App.js, lines 6-12 and 57-65). */
module Ledger {

  /** A transaction's `type` tag. The app writes 'given' (value handed to the
      customer) and 'received' (payment taken from them); any other tag is kept
      as `Other` and is ignored by the balance. */
  datatype Kind = Given | Received | Other(tag: string)

  /** One ledger entry. The amount is the number `parseFloat` produced; it is
      not required to be positive, since the app never checks it. */
  datatype Transaction = Transaction(id: int, kind: Kind, amount: int, date: string)

  /** A customer with their transactions in insertion order. */
  datatype Customer = Customer(id: int, name: string, phone: string, transactions: seq<Transaction>)

  /** What one transaction adds to the balance. */
  function Contribution(t: Transaction): int
  {
    match t.kind
    case Given => t.amount
    case Received => -t.amount
    case Other(_) => 0
  }

  /** The net balance of a transaction list: the sum of the contributions. */
  function Balance(ts: seq<Transaction>): int
  {
    if ts == [] then 0 else Contribution(ts[0]) + Balance(ts[1..])
  }

  /** The transactions of kind `k`, in order. */
  function OfKind(ts: seq<Transaction>, k: Kind): (r: seq<Transaction>)
    ensures |r| <= |ts|
    ensures forall i :: 0 <= i < |r| ==> r[i].kind == k && r[i] in ts
  {
    if ts == [] then []
    else if ts[0].kind == k then [ts[0]] + OfKind(ts[1..], k)
    else OfKind(ts[1..], k)
  }

  /** The sum of the amounts of a transaction list, whatever their kinds. */
  function SumAmounts(ts: seq<Transaction>): int
  {
    if ts == [] then 0 else ts[0].amount + SumAmounts(ts[1..])
  }

  /** Reference definition of the balance: what was given minus what was received. */
  function GivenMinusReceived(ts: seq<Transaction>): int
  {
    SumAmounts(OfKind(ts, Given)) - SumAmounts(OfKind(ts, Received))
  }

  /** The balance is the total given minus the total received; transactions
      of any other kind contribute nothing. */
  lemma {:induction false} BalanceIsGivenMinusReceived(ts: seq<Transaction>)
    ensures Balance(ts) == GivenMinusReceived(ts)
  {
    if ts != [] {
      var t, rest := ts[0], ts[1..];
      BalanceIsGivenMinusReceived(rest);
      match t.kind
      case Given =>
        assert ([t] + OfKind(rest, Given))[1..] == OfKind(rest, Given);
      case Received =>
        assert ([t] + OfKind(rest, Received))[1..] == OfKind(rest, Received);
      case Other(_) =>
    }
  }

  /** Appending one transaction moves the balance by exactly its contribution:
      +amount for 'given', -amount for 'received', nothing otherwise. */
  lemma {:induction false} BalanceAppend(ts: seq<Transaction>, t: Transaction)
    ensures Balance(ts + [t]) == Balance(ts) + Contribution(t)
    ensures t.kind == Given ==> Balance(ts + [t]) == Balance(ts) + t.amount
    ensures t.kind == Received ==> Balance(ts + [t]) == Balance(ts) - t.amount
    ensures t.kind.Other? ==> Balance(ts + [t]) == Balance(ts)
  {
    if ts == [] {
      assert [t][1..] == [];
    } else {
      assert (ts + [t])[1..] == ts[1..] + [t];
      BalanceAppend(ts[1..], t);
    }
  }

  /** `calculateBalance`: a running total over the transactions, starting at
      0, adding 'given' amounts and subtracting 'received' ones. */
  method CalculateBalance(ts: seq<Transaction>) returns (balance: int)
    ensures balance == SumAmounts(OfKind(ts, Given)) - SumAmounts(OfKind(ts, Received))
    ensures ts == [] ==> balance == 0
  {
    balance := 0;
    var i := 0;
    while i < |ts|
      invariant 0 <= i <= |ts|
      invariant balance == Balance(ts[..i])
    {
      var t := ts[i];
      if t.kind == Given {
        balance := balance + t.amount;
      }
      if t.kind == Received {
        balance := balance - t.amount;
      }
      BalanceAppend(ts[..i], t);
      assert ts[..i + 1] == ts[..i] + [t];
      i := i + 1;
    }
    assert ts[..i] == ts;
    BalanceIsGivenMinusReceived(ts);
  }

  /** The first customer of the initial data set. */
  function RahulSharma(): Customer
  {
    Customer(1, "Rahul Sharma", "9876543210", [
      Transaction(101, Given, 500, "2023-10-25"),
      Transaction(102, Received, 200, "2023-10-26")
    ])
  }

  /** The initial customer list. */
  function InitialCustomers(): seq<Customer>
  {
    [RahulSharma(), Customer(2, "Amit Verma", "9123456789", [])]
  }

  /** Rahul Sharma, given 500 and having paid 200, owes 300; Amit Verma owes nothing. */
  lemma InitialBalances()
    ensures Balance(InitialCustomers()[0].transactions) == 300
    ensures Balance(InitialCustomers()[1].transactions) == 0
  {
    var ts := RahulSharma().transactions;
    assert ts[1..][1..] == [];
  }
}
