/**
  The decision `GetProduct` takes on one entered line: quit, show the
  products, or try to buy from the named slot, with the slot, stock and
  funds checks in that order.
 */
module ProductSelection {
  import opened Text
  import opened Catalog

  datatype Outcome =
    | Quit
    | ShowProducts
    | SlotNotFound
    | SoldOut
    | InsufficientFunds
    | Purchase(slotId: string)

  /** The slot can be bought from: it exists, is in stock, and the balance covers its price. */
  predicate CanBuy(inv: Inventory, slotId: string, balance: int) {
    slotId in inv && inv[slotId].quantity >= 1 && balance >= inv[slotId].held.price
  }

  /** One pass of the `GetProduct` loop on the entered `choice`; `balance` in cents. */
  function Select(choice: string, inv: Inventory, balance: int): (r: Outcome)
    // quitting is decided before anything else, for both spellings
    ensures (choice == "q" || choice == "Q") <==> r == Quit
    // "1" always shows the products, even when a slot is called "1", and nothing else does
    ensures r == ShowProducts <==> choice == "1"
    // an unknown slot is reported whatever the balance
    ensures r == SlotNotFound <==> choice !in inv && choice != "1" && choice != "q" && choice != "Q"
    // the stock check precedes the funds check
    ensures r == SoldOut <==> choice in inv && choice != "1" && choice != "q" && choice != "Q" && inv[choice].quantity < 1
    // an existing, in-stock slot priced above the balance is refused for funds
    ensures r == InsufficientFunds <==>
              choice in inv && choice != "1" && choice != "q" && choice != "Q" &&
              inv[choice].quantity >= 1 && balance < inv[choice].held.price
    // a purchase happens exactly when every check passes, and names the entered slot
    ensures r.Purchase? <==> CanBuy(inv, choice, balance) && choice != "1" && choice != "q" && choice != "Q"
    ensures r.Purchase? ==> r.slotId == choice
  {
    QuitSpellings(choice);
    if ToLower(choice) == "q" then Quit
    else if choice == "1" then ShowProducts
    else if choice !in inv then SlotNotFound
    else if inv[choice].quantity < 1 then SoldOut
    else if balance < inv[choice].held.price then InsufficientFunds
    else Purchase(choice)
  }

  /** A slot whose identifier is "1" can never be bought through this menu. */
  lemma SlotOneUnreachable(inv: Inventory, balance: int)
    ensures !Select("1", inv, balance).Purchase?
  {
  }

  /** Outcomes other than InsufficientFunds and Purchase do not depend on the balance. */
  lemma BalanceIrrelevantBeforeFundsCheck(choice: string, inv: Inventory, b1: int, b2: int)
    ensures var r := Select(choice, inv, b1);
            r != InsufficientFunds && !r.Purchase? ==> Select(choice, inv, b2) == r
  {
  }

  /** More money never turns a purchase into a refusal. */
  lemma PurchaseMonotoneInBalance(choice: string, inv: Inventory, b1: int, b2: int)
    requires b1 <= b2
    requires Select(choice, inv, b1).Purchase?
    ensures Select(choice, inv, b2) == Select(choice, inv, b1)
  {
  }

  /** A balance exactly equal to the price is enough. */
  lemma ExactBalanceSuffices(choice: string, inv: Inventory)
    requires choice in inv && choice != "1" && choice != "q" && choice != "Q"
    requires inv[choice].quantity >= 1
    ensures Select(choice, inv, inv[choice].held.price) == Purchase(choice)
  {
  }
}
