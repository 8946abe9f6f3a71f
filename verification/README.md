# Vending machine purchase menu, modelled in Dafny

This project models the purchase menu of a console vending machine
(`Capstone/Classes/PurchaseMenu.cs`). The menu has four routines:

- `Display` is the purchase menu loop. "1" feeds money, "2" selects a product,
  "3" finishes the transaction, and "q"/"Q" returns to the main menu.
- `GetMoney` is the deposit loop. "1", "2", "5" and "10" deposit that many
  dollars, "q"/"Q" leaves, and any other line is rejected.
- `GetProduct` is the product loop. It runs its checks in a fixed order:
  quit, show products, slot exists, in stock, balance covers price. Only then
  does it call `GiveProduct`.
- `DispenseMessage` shows one line per purchased product, chosen by the
  product's type text with case ignored, and then empties the purchased list.

The vending machine's own operations are not part of this model. Those are
`DepositMoney`, `GiveProduct` and `FinishTransaction`, plus the main menu's
`DisplayProducts`. They appear as opaque functions supplied from outside
(`VendingMachine.Effects`). So the model states WHEN and WITH WHAT the menu
calls them, and never what they do. The menus run on a finite sequence of
input lines. Every call is recorded together with the machine state it was
made in (`VendingMachine.Call`). Properties such as "GiveProduct is only
called after the slot, stock and funds checks pass in that state" are
therefore statements about every possible session.

Modules:

- `Text`: `ToLower` for the comparisons with "q" and the type names.
- `Catalog`: products, slots and the inventory map.
- `VendingMachine`: the machine's visible state, the calls the menu makes into
  it, and the history (`Chain`) those calls form.
- `ProductSelection`: the decision `GetProduct` makes on one line.
- `Deposit`: the decision `GetMoney` makes on one line.
- `Dispense`: the type-to-message table and the lines shown for a purchased list.
- `PurchaseMenu`: the three loops over input lines.
- `MenuSafety`: properties of whole sessions.

Money is in integer cents (balance and price; the source uses exact
`decimal`). Deposit amounts are in whole dollars, as the source passes them.

In these places the model follows the code:

- The product loop checks "q"/"Q" and "1" before it looks up the slot.
- After a failed check (unknown slot, sold out, not enough money), `GetProduct`
  returns to the purchase menu instead of asking again. Only "1" asks again.
- DepositMoney's own handling of the amount is not modelled. The deposit menu
  only ever passes 1, 2, 5 or 10.
- "q" at the purchase menu leaves without `FinishTransaction`. The balance
  and the purchased list stay as they were (`DisplayQuitFirst`).

## Model

| member | source | states |
|---|---|---|
| Text.ToLower | Capstone/Classes/PurchaseMenu.cs:226 | lower-casing keeps the length and maps each character independently |
| Text.QuitSpellings | Capstone/Classes/PurchaseMenu.cs:161 | a line lower-cases to "q" exactly when it is "q" or "Q" |
| ProductSelection.Select | Capstone/Classes/PurchaseMenu.cs:160-209 | each outcome if and only if its condition: quit exactly for "q"/"Q"; products shown exactly for "1"; unknown slot whatever the balance; sold out for existing slots with quantity below 1, even with enough money; insufficient funds for existing, in-stock slots priced above the balance; purchase when the slot exists, is in stock and the balance is at least the price, and then it names the entered slot |
| ProductSelection.SlotOneUnreachable | Capstone/Classes/PurchaseMenu.cs:161-171 | a slot called "1" can never be bought, whatever the inventory and balance |
| ProductSelection.BalanceIrrelevantBeforeFundsCheck | Capstone/Classes/PurchaseMenu.cs:160-195 | every outcome decided before the funds check is the same for any balance |
| ProductSelection.PurchaseMonotoneInBalance | Capstone/Classes/PurchaseMenu.cs:198-209 | a purchase at some balance is still the same purchase at any larger balance |
| ProductSelection.ExactBalanceSuffices | Capstone/Classes/PurchaseMenu.cs:198-209 | a balance exactly equal to the price buys an in-stock product |
| Deposit.ParseMoney | Capstone/Classes/PurchaseMenu.cs:117-141 | a deposit is always of an accepted bill value selected by its own text; leaving exactly for "q"/"Q"; every other line is rejected |
| Deposit.DepositRoundTrip | Capstone/Classes/PurchaseMenu.cs:117-132 | each of 1, 2, 5, 10 is deposited by its menu text and by no other line |
| Dispense.Message | Capstone/Classes/PurchaseMenu.cs:226-249 | a type has a message exactly when it lower-cases to chip, candy, drink or gum, and then it is that category's message |
| Dispense.CategoryOfName | Capstone/Classes/PurchaseMenu.cs:226-245 | a type text selects a category if and only if it lower-cases to the category's name |
| Dispense.MessageCaseInsensitive | Capstone/Classes/PurchaseMenu.cs:226 | type texts equal up to case get the same message |
| Dispense.MessageOfLowered | Capstone/Classes/PurchaseMenu.cs:226 | a type text and its lower-cased form get the same message |
| Dispense.MessageIdentifiesCategory | Capstone/Classes/PurchaseMenu.cs:226-249 | two types get the same message (or both none) if and only if they fall in the same category (or both in none) |
| Dispense.DispenseLines | Capstone/Classes/PurchaseMenu.cs:223-250 | one entry per purchased product, in list order, each the message for that product's type |
| Dispense.DispenseLinesAppend | Capstone/Classes/PurchaseMenu.cs:223-250 | dispensing a concatenated list shows the two lists' lines in order |
| PurchaseMenu.ParseMenu | Capstone/Classes/PurchaseMenu.cs:57-88 | "1" feeds money, "2" selects a product, "3" finishes, "q"/"Q" quits, and any other line is invalid, each if and only if |
| PurchaseMenu.GetMoney | Capstone/Classes/PurchaseMenu.cs:99-143 | the deposit loop reads input from the front only, and returns only after reading at least one line |
| PurchaseMenu.GetProduct | Capstone/Classes/PurchaseMenu.cs:148-211 | the product loop reads input from the front only, and returns only after reading at least one line |
| PurchaseMenu.Display | Capstone/Classes/PurchaseMenu.cs:38-90 | the purchase menu loop never reads more lines than there are |
| MenuSafety.GetMoneyCalls | Capstone/Classes/PurchaseMenu.cs:115-136 | the deposit menu calls only DepositMoney, always with 1, 2, 5 or 10; the machine changes only through those calls |
| MenuSafety.GetMoneyDeposits | Capstone/Classes/PurchaseMenu.cs:117-132 | the amounts deposited are exactly the bill values selected by the lines read, in order |
| MenuSafety.GetMoneyStopsAtQuit | Capstone/Classes/PurchaseMenu.cs:133-136 | the deposit menu returns exactly at the first "q"/"Q" line and reads nothing after it |
| MenuSafety.GetProductCalls | Capstone/Classes/PurchaseMenu.cs:150-209 | the product menu makes only DisplayProducts and GiveProduct calls: DisplayProducts calls followed by at most one GiveProduct, which comes last, and only when the checks pass in that state; the machine changes only through those calls |
| MenuSafety.GetProductBuys | Capstone/Classes/PurchaseMenu.cs:174-209 | when the product menu returns without a GiveProduct call, the last line read fails a check in the state it was checked in; so a line that passes every check is bought |
| MenuSafety.GetProductShows | Capstone/Classes/PurchaseMenu.cs:167-171 | the product menu calls DisplayProducts exactly as many times as it reads "1" lines |
| MenuSafety.GetProductReads | Capstone/Classes/PurchaseMenu.cs:158-171 | the product menu reads "1" lines until a different line, and any GiveProduct call names that line |
| MenuSafety.DisplayAllowed | Capstone/Classes/PurchaseMenu.cs:55-64 | every call of every session is permitted in the state it is made in: deposits of accepted bill values, and purchases that pass all checks |
| MenuSafety.DisplayFinishLast | Capstone/Classes/PurchaseMenu.cs:65-83 | FinishTransaction is called at most once, as the last call, exactly when the session ends through "3" |
| MenuSafety.DisplayHistory | Capstone/Classes/PurchaseMenu.cs:65-78 | the machine changes only through the menu's calls; a finished session shows the messages for the list left after FinishTransaction, then empties that list |
| MenuSafety.DisplayFeedsMoney | Capstone/Classes/PurchaseMenu.cs:57-60 | "1" runs the deposit menu; its calls come first, then the purchase menu carries on with the lines it left, or the session ends when the input ran out |
| MenuSafety.DisplaySelectsProduct | Capstone/Classes/PurchaseMenu.cs:61-64 | "2" runs the product menu; its calls come first, then the purchase menu carries on with the lines it left, or the session ends when the input ran out |
| MenuSafety.DisplayInvalidReprompts | Capstone/Classes/PurchaseMenu.cs:84-88 | any line other than "1", "2", "3", "q", "Q" makes no call and changes nothing: the session is that of the following lines |
| MenuSafety.DisplayQuitFirst | Capstone/Classes/PurchaseMenu.cs:80-83 | "q"/"Q" leaves at once, with no call and balance, inventory and purchased list untouched |
| MenuSafety.DisplayFinishFirst | Capstone/Classes/PurchaseMenu.cs:65-78 | "3" calls FinishTransaction once, shows the messages for the list then purchased, and empties the list |
| MenuSafety.QuitNeverFinishes | Capstone/Classes/PurchaseMenu.cs:65-83 | a session that quits to the main menu never called FinishTransaction |
| MenuSafety.GiveProductValidated | Capstone/Classes/PurchaseMenu.cs:174-208 | every GiveProduct call of any session names an existing, in-stock slot whose price the balance then covers, and never "1" |
| MenuSafety.DepositsAccepted | Capstone/Classes/PurchaseMenu.cs:117-132 | every DepositMoney call of any session deposits 1, 2, 5 or 10 |
| MenuSafety.ScenarioChipsOnce | Capstone/Classes/PurchaseMenu.cs:57-78 | on a machine with one $1.00 bag of chips: two $1 bills, a purchase, a sold-out retry and finishing give exactly those four calls, the chip message and an empty purchased list |

## Left out

- Console rendering is not modelled: clearing, prompts, "press any key" waits and `:C2` currency formatting are presentation only.
- `VendingMachine.cs` and `MainMenu.cs` are not part of this model. `DepositMoney`, `GiveProduct`, `FinishTransaction` and `DisplayProducts` are opaque functions of the machine state. Stock decrement, balance debit and change-making are not modelled.
- The change array `FinishTransaction` returns is not modelled. The menu only prints it.
- End of input is not modelled as an exception. `Console.ReadLine` returning null would make `ToLower` throw; the model instead ends a session with `OutOfInput` when the lines run out.
- Text.ToLower: models lower-casing of A-Z only, because the culture-dependent mapping of other characters is outside the model. A non-ASCII character that .NET lower-cases to an ASCII letter (the Kelvin sign to "k", say) is therefore not treated as that letter. The source lower-cases with the current culture; the model assumes a culture in which A-Z lower-case to a-z (the invariant culture or en-US). Under a Turkish or Azerbaijani culture "I" lower-cases to dotless "ı", so a product of type "CHIP" or "DRINK" would show no message there, while the model shows one.
- The inventory dictionary's key comparer is not visible, so lookup is exact membership of the entered text.
- Prices with fractions of a cent are not modelled, because money is in integer cents.
- PurchaseMenu.Display: its own contract only bounds the input read. What each line does is stated by `DisplayFeedsMoney`, `DisplaySelectsProduct`, `DisplayFinishFirst`, `DisplayQuitFirst` and `DisplayInvalidReprompts`; what holds of whole sessions by `DisplayAllowed`, `DisplayFinishLast` and `DisplayHistory`.
