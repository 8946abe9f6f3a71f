/**
  The stock a vending machine offers: products held in slots, and the
  inventory that maps a slot identifier to its slot.
 */
module Catalog {

  /** A product; `price` is in cents (the source's exact decimal), `kind` is its type text, e.g. "Chip". */
  datatype Product = Product(name: string, price: int, kind: string)

  /** A vending machine slot: the product it holds and how many are left. */
  datatype Slot = Slot(held: Product, quantity: int)

  /** Slot identifier to slot; lookup is exact membership of the entered text. */
  type Inventory = map<string, Slot>
}
