/**
  What the purchase menu can see of the vending machine it drives, and the
  calls it makes into it. The machine's own operations live outside this
  model, so they appear here only as opaque functions (`Effects`): the menu
  decides WHEN and WITH WHAT to call them, never what they do.
 */
module VendingMachine {
  import opened Catalog

  /** The machine's observable properties: Inventory, CurrentBalance (cents), ProductsPurchased. */
  datatype State = State(inventory: Inventory, balance: int, purchased: seq<Product>)

  /** A call the purchase menu makes into the machine or the main menu. */
  datatype Action =
    | DepositMoney(amount: int)
    | DisplayProducts
    | GiveProduct(slotId: string)
    | FinishTransaction

  /** One call together with the machine state it was made in. */
  datatype Call = Call(before: State, action: Action)

  /** The behaviour of the calls, supplied from outside the model. */
  datatype Effects = Effects(
    depositMoney: (State, int) -> State,
    displayProducts: State -> State,
    giveProduct: (State, string) -> State,
    finishTransaction: State -> State)

  /** The state a call leaves behind. */
  function Apply(fx: Effects, c: Call): State {
    match c.action
    case DepositMoney(d) => fx.depositMoney(c.before, d)
    case DisplayProducts => fx.displayProducts(c.before)
    case GiveProduct(id) => fx.giveProduct(c.before, id)
    case FinishTransaction => fx.finishTransaction(c.before)
  }

  /**
    The calls form one unbroken history from `m` to `m'`: each is made in
    the state its predecessor left, and nothing else changes the machine.
   */
  ghost predicate Chain(fx: Effects, m: State, calls: seq<Call>, m': State)
    decreases |calls|
  {
    if calls == [] then m == m'
    else calls[0].before == m && Chain(fx, Apply(fx, calls[0]), calls[1..], m')
  }

  /** Two histories that meet compose into one. */
  lemma {:induction false} ChainAppend(fx: Effects, m: State, a: seq<Call>, x: State, b: seq<Call>, y: State)
    requires Chain(fx, m, a, x) && Chain(fx, x, b, y)
    ensures Chain(fx, m, a + b, y)
    decreases |a|
  {
    if a != [] {
      assert (a + b)[0] == a[0];
      assert (a + b)[1..] == a[1..] + b;
      ChainAppend(fx, Apply(fx, a[0]), a[1..], x, b, y);
    } else {
      assert a + b == b;
    }
  }
}
