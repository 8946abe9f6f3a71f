/**
  The messages `DispenseMessage` shows for the products bought in a
  transaction. A product's type text is compared case-insensitively with
  four category names; any other type shows no message.
 */
module Dispense {
  import opened Wrappers
  import opened Text
  import opened Catalog

  datatype Category = Chip | Candy | Drink | Gum

  /** The lower-case type text that selects a category. */
  function Name(c: Category): string {
    match c
    case Chip => "chip"
    case Candy => "candy"
    case Drink => "drink"
    case Gum => "gum"
  }

  /** The message shown for a category. */
  function Slogan(c: Category): string {
    match c
    case Chip => "Crunch Crunch, Yum!"
    case Candy => "Munch Munch, Yum!"
    case Drink => "Glug Glug Yum!"
    case Gum => "Chew Chew Yum!"
  }

  /** The `switch (product.Type.ToLower())` on a product's type text. */
  function CategoryOf(kind: string): Option<Category> {
    var k := ToLower(kind);
    if k == "chip" then Some(Chip)
    else if k == "candy" then Some(Candy)
    else if k == "drink" then Some(Drink)
    else if k == "gum" then Some(Gum)
    else None
  }

  /** The message for one product type, if it has one. */
  function Message(kind: string): (r: Option<string>)
    ensures r.Some? <==> ToLower(kind) in {"chip", "candy", "drink", "gum"}
    ensures forall c :: ToLower(kind) == Name(c) ==> r == Some(Slogan(c))
  {
    match CategoryOf(kind)
    case Some(c) => Some(Slogan(c))
    case None => None
  }

  /** A type text names a category exactly when it lower-cases to that category's name. */
  lemma CategoryOfName(kind: string, c: Category)
    ensures CategoryOf(kind) == Some(c) <==> ToLower(kind) == Name(c)
  {
  }

  /** Case does not matter: type texts equal up to case get the same message. */
  lemma MessageCaseInsensitive(a: string, b: string)
    requires ToLower(a) == ToLower(b)
    ensures Message(a) == Message(b)
  {
  }

  /** A type text and its lower-cased form get the same message. */
  lemma MessageOfLowered(kind: string)
    ensures Message(ToLower(kind)) == Message(kind)
  {
    ToLowerIdempotent(kind);
  }

  /** A dispense line identifies the product's category: distinct categories show distinct messages. */
  lemma MessageIdentifiesCategory(a: string, b: string)
    ensures Message(a) == Message(b) <==> CategoryOf(a) == CategoryOf(b)
  {
    assert forall c: Category, d: Category :: Slogan(c) == Slogan(d) ==> c == d;
  }

  /** The lines shown for the purchased list: one entry per product, in list order. */
  function DispenseLines(purchased: seq<Product>): (lines: seq<Option<string>>)
    ensures |lines| == |purchased|
    ensures forall i :: 0 <= i < |purchased| ==> lines[i] == Message(purchased[i].kind)
  {
    if purchased == [] then []
    else [Message(purchased[0].kind)] + DispenseLines(purchased[1..])
  }

  /** Dispensing two lists one after the other shows the two sets of lines in that order. */
  lemma DispenseLinesAppend(a: seq<Product>, b: seq<Product>)
    ensures DispenseLines(a + b) == DispenseLines(a) + DispenseLines(b)
  {
  }
}
