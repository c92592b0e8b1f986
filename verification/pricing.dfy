/** Price defaulting in `create_sale_document`: a line saved without a
    price takes its product's current price. */
module Pricing {
  import opened Base
  import opened Entities

  /** A line as the item form hands it over: the form has no price field,
      so the price may be unset. */
  datatype Line = Line(product: ProductId, quantity: int, price: Option<Money>)

  /** `if not instance.price: instance.price = instance.product.price`.
      Both an unset price and an explicit 0.00, which Python treats as
      false, take the product's price; any other price is kept. */
  function PriceLine(products: map<ProductId, Product>, line: Line): (r: Item)
    requires line.product in products
    ensures r.product == line.product && r.quantity == line.quantity
    ensures line.price.Some? && line.price.value != 0 ==> r.price == line.price.value
    ensures r.price == products[line.product].price <==>
      line.price.None? || line.price.value == 0 || line.price.value == products[line.product].price
  {
    var price := if line.price.None? || line.price.value == 0 then products[line.product].price else line.price.value;
    Item(line.product, line.quantity, price)
  }

  /** Pricing a line that already carries its price changes nothing. */
  lemma PriceLineIdempotent(products: map<ProductId, Product>, line: Line)
    requires line.product in products
    ensures var r := PriceLine(products, line);
      PriceLine(products, Line(r.product, r.quantity, Some(r.price))) == r
  {
  }

  /** The `for instance in instances` loop of the view. */
  method PriceLines(products: map<ProductId, Product>, lines: seq<Line>) returns (items: seq<Item>)
    requires forall i :: 0 <= i < |lines| ==> lines[i].product in products
    ensures |items| == |lines|
    ensures forall i :: 0 <= i < |lines| ==> items[i] == PriceLine(products, lines[i])
  {
    items := [];
    var k := 0;
    while k < |lines|
      invariant 0 <= k <= |lines|
      invariant |items| == k
      invariant forall i :: 0 <= i < k ==> items[i] == PriceLine(products, lines[i])
    {
      items := items + [PriceLine(products, lines[k])];
      k := k + 1;
    }
  }

  /** A document priced this way totals its lines at their defaulted
      prices; lines with explicit non-zero prices contribute exactly those. */
  lemma {:induction false} PricedTotal(products: map<ProductId, Product>, lines: seq<Line>, items: seq<Item>)
    requires forall i :: 0 <= i < |lines| ==> lines[i].product in products
    requires |items| == |lines|
    requires forall i :: 0 <= i < |lines| ==> items[i] == PriceLine(products, lines[i])
    requires forall i :: 0 <= i < |lines| ==> lines[i].price.Some? && lines[i].price.value != 0
    ensures ItemsTotal(items) == ExplicitTotal(lines)
  {
    if lines != [] {
      var n := |lines| - 1;
      PricedTotal(products, lines[..n], items[..n]);
    }
  }

  /** The total of lines that all carry an explicit price. */
  function ExplicitTotal(lines: seq<Line>): Money
    requires forall i :: 0 <= i < |lines| ==> lines[i].price.Some?
  {
    if lines == [] then 0
    else
      var last := lines[|lines| - 1];
      ExplicitTotal(lines[..|lines| - 1]) + last.price.value * last.quantity
  }
}
