/**
  The decision `GetMoney` takes on one entered line: deposit one of the
  accepted bill values, leave the deposit menu, or reject the line.
 */
module Deposit {
  import opened Text

  /** The accepted bill values, in whole dollars. */
  const Denominations: set<int> := {1, 2, 5, 10}

  datatype MoneyChoice = Insert(amount: int) | Leave | Reject

  /** The menu text that selects bill value `d`. */
  function AmountText(d: int): string
    requires d in Denominations
  {
    if d == 1 then "1" else if d == 2 then "2" else if d == 5 then "5" else "10"
  }

  /** One pass of the `GetMoney` loop on the entered `choice`. */
  function ParseMoney(choice: string): (r: MoneyChoice)
    ensures r.Insert? ==> r.amount in Denominations && choice == AmountText(r.amount)
    ensures r == Leave <==> choice == "q" || choice == "Q"
    ensures r == Reject <==> choice !in {"1", "2", "5", "10", "q", "Q"}
  {
    QuitSpellings(choice);
    if choice == "1" then Insert(1)
    else if choice == "2" then Insert(2)
    else if choice == "5" then Insert(5)
    else if choice == "10" then Insert(10)
    else if ToLower(choice) == "q" then Leave
    else Reject
  }

  /** Each bill value is selected by its own menu text, and by nothing else. */
  lemma {:induction false} DepositRoundTrip(d: int, choice: string)
    requires d in Denominations
    ensures ParseMoney(AmountText(d)) == Insert(d)
    ensures ParseMoney(choice) == Insert(d) <==> choice == AmountText(d)
  {
    var r := ParseMoney(AmountText(d));
    assert r.Insert?;
  }
}
