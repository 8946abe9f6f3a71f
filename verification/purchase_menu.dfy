/**
  The purchase menu of the vending machine: the top-level menu loop
  (`Display`) and its two sub-menus (`GetMoney`, `GetProduct`), run on a
  finite sequence of entered lines. Every call the menus make is recorded
  with the machine state it was made in.
 */
module PurchaseMenu {
  import opened Wrappers
  import opened Text
  import opened Catalog
  import opened VendingMachine
  import opened ProductSelection
  import opened Deposit
  import opened Dispense

  datatype MenuChoice = FeedMoney | SelectProduct | Finish | QuitToMain | InvalidChoice

  /** The choice made by one line entered at the purchase menu. */
  function ParseMenu(choice: string): (r: MenuChoice)
    ensures r == FeedMoney <==> choice == "1"
    ensures r == SelectProduct <==> choice == "2"
    ensures r == Finish <==> choice == "3"
    ensures r == QuitToMain <==> choice == "q" || choice == "Q"
    ensures r == InvalidChoice <==> choice !in {"1", "2", "3", "q", "Q"}
  {
    QuitSpellings(choice);
    if choice == "1" then FeedMoney
    else if choice == "2" then SelectProduct
    else if choice == "3" then Finish
    else if ToLower(choice) == "q" then QuitToMain
    else InvalidChoice
  }

  /**
    A sub-menu visit: the machine afterwards, the calls made, the lines not
    yet read, and whether the sub-menu returned (false: the input ran out).
   */
  datatype Visit = Visit(machine: State, calls: seq<Call>, rest: seq<string>, returned: bool)

  /** How a purchase-menu session ended. */
  datatype Exit = ToMainMenu | Finished(messages: seq<Option<string>>) | OutOfInput

  datatype Session = Session(machine: State, calls: seq<Call>, rest: seq<string>, exit: Exit)

  /** `rest` is what is left of `lines` after reading some of them. */
  predicate Suffix(rest: seq<string>, lines: seq<string>) {
    |rest| <= |lines| && rest == lines[|lines| - |rest|..]
  }

  /** The `GetMoney` loop: deposit bills until "q"/"Q" is entered. */
  function GetMoney(lines: seq<string>, fx: Effects, m: State): (v: Visit)
    ensures Suffix(v.rest, lines)
    ensures !v.returned ==> v.rest == []
    ensures v.returned ==> |v.rest| < |lines|
    decreases |lines|
  {
    if lines == [] then Visit(m, [], [], false)
    else match ParseMoney(lines[0])
      case Insert(d) =>
        var c := Call(m, DepositMoney(d));
        var v := GetMoney(lines[1..], fx, Apply(fx, c));
        v.(calls := [c] + v.calls)
      case Leave => Visit(m, [], lines[1..], true)
      case Reject => GetMoney(lines[1..], fx, m)
  }

  /** The `GetProduct` loop: show the products while "1" is entered, then act on one slot choice. */
  function GetProduct(lines: seq<string>, fx: Effects, m: State): (v: Visit)
    ensures Suffix(v.rest, lines)
    ensures !v.returned ==> v.rest == []
    ensures v.returned ==> |v.rest| < |lines|
    decreases |lines|
  {
    if lines == [] then Visit(m, [], [], false)
    else match Select(lines[0], m.inventory, m.balance)
      case ShowProducts =>
        var c := Call(m, DisplayProducts);
        var v := GetProduct(lines[1..], fx, Apply(fx, c));
        v.(calls := [c] + v.calls)
      case Purchase(id) =>
        var c := Call(m, GiveProduct(id));
        Visit(Apply(fx, c), [c], lines[1..], true)
      case _ => Visit(m, [], lines[1..], true)
  }

  /**
    The `Display` loop. Finishing calls FinishTransaction, shows the messages
    for the products then listed as purchased, and empties that list.
   */
  function Display(lines: seq<string>, fx: Effects, m: State): (s: Session)
    ensures |s.rest| <= |lines|
    decreases |lines|
  {
    if lines == [] then Session(m, [], [], OutOfInput)
    else match ParseMenu(lines[0])
      case FeedMoney =>
        var v := GetMoney(lines[1..], fx, m);
        if !v.returned then Session(v.machine, v.calls, v.rest, OutOfInput)
        else
          var s := Display(v.rest, fx, v.machine);
          s.(calls := v.calls + s.calls)
      case SelectProduct =>
        var v := GetProduct(lines[1..], fx, m);
        if !v.returned then Session(v.machine, v.calls, v.rest, OutOfInput)
        else
          var s := Display(v.rest, fx, v.machine);
          s.(calls := v.calls + s.calls)
      case Finish =>
        var c := Call(m, FinishTransaction);
        var done := Apply(fx, c);
        Session(done.(purchased := []), [c], lines[1..], Finished(DispenseLines(done.purchased)))
      case QuitToMain => Session(m, [], lines[1..], ToMainMenu)
      case InvalidChoice => Display(lines[1..], fx, m)
  }
}
