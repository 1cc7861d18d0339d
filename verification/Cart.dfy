/** From a cart to priced order lines and their exact total. */
module Cart {
  import opened Wrappers
  import opened Money
  import opened Pricing
  import opened Sorting

  datatype CartItem = CartItem(id: nat, sku: nat, quantity: nat, selected: bool)

  predicate Chosen(item: CartItem) {
    item.selected && item.quantity > 0
  }

  function ById(): CartItem -> int {
    (item: CartItem) => item.id
  }

  function Choose(items: seq<CartItem>): seq<CartItem> {
    if items == [] then []
    else if Chosen(items[0]) then [items[0]] + Choose(items[1..])
    else Choose(items[1..])
  }

  /** The cart lines an order is made of. */
  function Lines(cart: seq<CartItem>): seq<CartItem> {
    Choose(Sorted(ById(), cart))
  }

  lemma {:induction false} ChooseCounts(items: seq<CartItem>)
    ensures forall x :: multiset(Choose(items))[x] == if Chosen(x) then multiset(items)[x] else 0
    ensures forall x | x in Choose(items) :: x in items
    decreases |items|
  {
    if items != [] {
      ChooseCounts(items[1..]);
      assert items == [items[0]] + items[1..];
    }
  }

  lemma {:induction false} ChooseKeepsOrder(items: seq<CartItem>)
    requires Ascending(ById(), items)
    ensures Ascending(ById(), Choose(items))
    decreases |items|
  {
    if items != [] {
      ChooseCounts(items[1..]);
      ChooseKeepsOrder(items[1..]);
      forall x | x in Choose(items[1..]) ensures items[0].id <= x.id {
        var k :| 0 <= k < |items[1..]| && items[1..][k] == x;
        assert items[k + 1] == x && ById()(items[0]) <= ById()(items[k + 1]);
      }
    }
  }

  /** An order takes precisely the selected lines, each as often as the cart has it, in cart-id order. */
  lemma LinesAreTheSelection(cart: seq<CartItem>)
    ensures Ascending(ById(), Lines(cart))
    ensures forall x :: multiset(Lines(cart))[x] == if Chosen(x) then multiset(cart)[x] else 0
  {
    SortSorts(ById(), cart);
    ChooseCounts(Sorted(ById(), cart));
    ChooseKeepsOrder(Sorted(ById(), cart));
  }

  /** The product fetched for a SKU; of several, the last. */
  function Lookup(products: seq<Product>, sku: nat): Option<Product> {
    if products == [] then None
    else if products[|products| - 1].sku == sku then Some(products[|products| - 1])
    else Lookup(products[..|products| - 1], sku)
  }

  ghost predicate Sellable(line: CartItem, products: seq<Product>) {
    var product := Lookup(products, line.sku);
    product.Some? && product.value.saleable && Priceable(product.value, line.quantity)
  }

  ghost predicate AllSellable(lines: seq<CartItem>, products: seq<Product>) {
    forall l | l in lines :: Sellable(l, products)
  }

  /** What a line comes to, in cents (0 where it cannot be sold). */
  ghost function LineAmount(line: CartItem, products: seq<Product>): nat {
    if !Sellable(line, products) then 0
    else
      var product := Lookup(products, line.sku).value;
      var subtotal := Times(CentsOf(product.unitPrice).value, line.quantity);
      var best :| Best(best, product.promotions, subtotal)
        && Fits(subtotal, Times(AppliedDiscount(best), line.quantity));
      subtotal - Times(AppliedDiscount(best), line.quantity)
  }

  lemma AmountIsTheLines(line: CartItem, products: seq<Product>, item: OrderItem, amount: nat)
    requires Sellable(line, products) && Priced(Lookup(products, line.sku).value, line.quantity, item, amount)
    ensures amount == LineAmount(line, products)
  {
    var product := Lookup(products, line.sku).value;
    var subtotal := Times(CentsOf(product.unitPrice).value, line.quantity);
    forall best | Best(best, product.promotions, subtotal)
      ensures AppliedDiscount(best) == AppliedDiscount(item.applied)
    {
      BestsAgree(best, item.applied, product.promotions, product.promotions, subtotal);
    }
  }

  ghost function Total(lines: seq<CartItem>, products: seq<Product>): nat {
    if lines == [] then 0
    else Total(lines[..|lines| - 1], products) + LineAmount(lines[|lines| - 1], products)
  }

  ghost predicate Orderable(lines: seq<CartItem>, products: seq<Product>) {
    lines != [] && AllSellable(lines, products) && Total(lines, products) <= MAX_CENTS
  }

  ghost predicate LinePriced(line: CartItem, products: seq<Product>, item: OrderItem, amount: nat) {
    Sellable(line, products) && Priced(Lookup(products, line.sku).value, line.quantity, item, amount)
  }

  ghost predicate PricedLines(lines: seq<CartItem>, products: seq<Product>, items: seq<OrderItem>, amounts: seq<nat>) {
    && |items| == |amounts| == |lines|
    && forall i | 0 <= i < |lines| :: LinePriced(lines[i], products, items[i], amounts[i])
  }

  function SumOf(amounts: seq<nat>): nat {
    if amounts == [] then 0 else SumOf(amounts[..|amounts| - 1]) + amounts[|amounts| - 1]
  }

  predicate Indexes(bySku: map<nat, Product>, products: seq<Product>) {
    && (forall sku | sku in bySku :: Lookup(products, sku) == Some(bySku[sku]))
    && (forall i | 0 <= i < |products| :: products[i].sku in bySku)
  }

  lemma {:induction false} LookupFinds(products: seq<Product>, sku: nat)
    requires Lookup(products, sku).Some?
    ensures exists i :: 0 <= i < |products| && products[i].sku == sku
    decreases |products|
  {
    var n := |products| - 1;
    if products[n].sku != sku {
      LookupFinds(products[..n], sku);
    }
  }

  method ProductsBySku(products: seq<Product>) returns (bySku: map<nat, Product>)
    ensures Indexes(bySku, products)
  {
    bySku := map[];
    for i := 0 to |products|
      invariant Indexes(bySku, products[..i])
    {
      bySku := bySku[products[i].sku := products[i]];
      assert products[..i + 1][..i] == products[..i];
    }
    assert products[..|products|] == products;
  }

  /** One line of the cart, if it can be sold. */
  method PriceCartLine(line: CartItem, products: seq<Product>, bySku: map<nat, Product>)
    returns (r: Option<(OrderItem, real)>, ghost cents: nat)
    requires Indexes(bySku, products)
    ensures r.Some? <==> Sellable(line, products)
    ensures r.Some? ==> LinePriced(line, products, r.value.0, cents) && r.value.1 == Amount(cents)
  {
    cents := 0;
    if line.sku !in bySku || !bySku[line.sku].saleable {
      if Lookup(products, line.sku).Some? {
        LookupFinds(products, line.sku);
      }
      return None, cents;
    }
    r, cents := PriceLine(bySku[line.sku], line.quantity);
  }

  /** The first `n` lines, priced one by one. */
  ghost predicate PricedTo(
    lines: seq<CartItem>, n: nat, products: seq<Product>, items: seq<OrderItem>, amounts: seq<nat>)
  {
    && |items| == |amounts| == n <= |lines|
    && forall i | 0 <= i < n :: LinePriced(lines[i], products, items[i], amounts[i])
  }

  lemma PricedGrows(
    lines: seq<CartItem>, n: nat, products: seq<Product>, items: seq<OrderItem>, amounts: seq<nat>, item: OrderItem,
    amount: nat)
    requires n < |lines| && PricedTo(lines, n, products, items, amounts)
    requires LinePriced(lines[n], products, item, amount)
    ensures PricedTo(lines, n + 1, products, items + [item], amounts + [amount])
  {
    var more, sums := items + [item], amounts + [amount];
    forall i | 0 <= i < n + 1 ensures LinePriced(lines[i], products, more[i], sums[i]) {
      assert i < n ==> more[i] == items[i] && sums[i] == amounts[i];
    }
  }

  lemma SumGrows(amounts: seq<nat>, amount: nat)
    ensures Amount(SumOf(amounts + [amount])) == Amount(SumOf(amounts)) + Amount(amount)
  {
    var sums := amounts + [amount];
    assert sums[..|amounts|] == amounts;
    assert SumOf(sums) == SumOf(amounts) + amount;
  }

  lemma PricedIsSellable(lines: seq<CartItem>, products: seq<Product>, items: seq<OrderItem>, amounts: seq<nat>)
    requires PricedLines(lines, products, items, amounts)
    ensures AllSellable(lines, products)
  {
    forall l | l in lines ensures Sellable(l, products) {
      var i :| 0 <= i < |lines| && lines[i] == l;
      assert LinePriced(lines[i], products, items[i], amounts[i]);
    }
  }

  /** The lines' amounts are determined by cart and products. */
  lemma {:induction false} AmountsAreTheLines(
    lines: seq<CartItem>, products: seq<Product>, items: seq<OrderItem>, amounts: seq<nat>)
    requires PricedLines(lines, products, items, amounts)
    ensures SumOf(amounts) == Total(lines, products)
    decreases |lines|
  {
    if lines != [] {
      var n := |lines| - 1;
      AmountsAreTheLines(lines[..n], products, items[..n], amounts[..n]);
      assert LinePriced(lines[n], products, items[n], amounts[n]);
      AmountIsTheLines(lines[n], products, items[n], amounts[n]);
    }
  }

  lemma OneUnsellable(lines: seq<CartItem>, products: seq<Product>, n: nat)
    requires n < |lines| && !Sellable(lines[n], products)
    ensures !AllSellable(lines, products)
  {
    assert lines[n] in lines;
  }

  /** What pricing the first `n` lines has come to. */
  ghost predicate AddsUp(
    lines: seq<CartItem>, n: nat, products: seq<Product>, items: seq<OrderItem>, total: real, amounts: seq<nat>)
  {
    PricedTo(lines, n, products, items, amounts) && total == Amount(SumOf(amounts))
  }

  /** Prices one more line and adds it up. */
  method PriceNext(
    lines: seq<CartItem>, n: nat, products: seq<Product>, bySku: map<nat, Product>, items: seq<OrderItem>,
    total: real, ghost amounts: seq<nat>)
    returns (r: Option<(seq<OrderItem>, real)>, ghost more: seq<nat>)
    requires n < |lines| && Indexes(bySku, products) && AddsUp(lines, n, products, items, total, amounts)
    ensures r.Some? <==> Sellable(lines[n], products)
    ensures r.Some? ==> AddsUp(lines, n + 1, products, r.value.0, r.value.1, more)
  {
    var priced;
    ghost var cents;
    priced, cents := PriceCartLine(lines[n], products, bySku);
    more := amounts + [cents];
    if priced.None? {
      return None, more;
    }
    PricedGrows(lines, n, products, items, amounts, priced.value.0, cents);
    SumGrows(amounts, cents);
    return Some((items + [priced.value.0], total + priced.value.1)), more;
  }

  /** Prices lines in order and adds them up. */
  method PriceLines(lines: seq<CartItem>, products: seq<Product>)
    returns (r: Option<(seq<OrderItem>, real)>, ghost amounts: seq<nat>)
    ensures r.None? ==> !AllSellable(lines, products)
    ensures r.Some? ==> PricedLines(lines, products, r.value.0, amounts) && r.value.1 == Amount(SumOf(amounts))
  {
    var bySku := ProductsBySku(products);
    r, amounts := Some(([], 0.0)), [];
    for i := 0 to |lines|
      invariant r.Some? && AddsUp(lines, i, products, r.value.0, r.value.1, amounts)
    {
      r, amounts := PriceNext(lines, i, products, bySku, r.value.0, r.value.1, amounts);
      if r.None? {
        OneUnsellable(lines, products, i);
        return;
      }
    }
  }

  /** Prices the chosen lines and writes their total down; None for every failure. */
  method PriceCart(cart: seq<CartItem>, products: seq<Product>)
    returns (r: Option<(seq<OrderItem>, string)>, ghost amounts: seq<nat>)
    ensures r.Some? <==> Orderable(Lines(cart), products)
    ensures r.Some? ==>
      && PricedLines(Lines(cart), products, r.value.0, amounts)
      && r.value.1 == Format(SumOf(amounts))
  {
    var lines := Lines(cart);
    amounts := [];
    if lines == [] {
      return None, amounts;
    }
    var priced;
    priced, amounts := PriceLines(lines, products);
    if priced.None? {
      return None, amounts;
    }
    AmountFormats(SumOf(amounts));
    PricedIsSellable(lines, products, priced.value.0, amounts);
    AmountsAreTheLines(lines, products, priced.value.0, amounts);
    var amount := MoneyString(priced.value.1);
    r := if amount.None? then None else Some((priced.value.0, amount.value));
  }

  predicate ReadsBack(item: OrderItem) {
    CentsOf(item.unitPrice).Some? && CentsOf(item.discountAmount).Some? && CentsOf(item.itemAmount).Some?
  }

  function StoredCents(v: string): nat {
    if CentsOf(v).Some? then CentsOf(v).value else 0
  }

  function StoredTotal(items: seq<OrderItem>): nat {
    if items == [] then 0
    else StoredTotal(items[..|items| - 1]) + StoredCents(items[|items| - 1].itemAmount)
  }

  /** Every stored amount of an order's lines reads back. */
  lemma LinesReadBack(lines: seq<CartItem>, products: seq<Product>, items: seq<OrderItem>, amounts: seq<nat>)
    requires PricedLines(lines, products, items, amounts)
    ensures forall i | 0 <= i < |items| :: ReadsBack(items[i]) && StoredCents(items[i].itemAmount) == amounts[i]
  {
    forall i | 0 <= i < |items| ensures ReadsBack(items[i]) && StoredCents(items[i].itemAmount) == amounts[i] {
      assert LinePriced(lines[i], products, items[i], amounts[i]);
      PricedLineReadsBack(Lookup(products, lines[i].sku).value, lines[i].quantity, items[i], amounts[i]);
    }
  }

  /** An order's total is exactly the sum of its stored item amounts. */
  lemma {:induction false} TotalIsTheSum(
    lines: seq<CartItem>, products: seq<Product>, items: seq<OrderItem>, amounts: seq<nat>)
    requires PricedLines(lines, products, items, amounts)
    ensures StoredTotal(items) == SumOf(amounts)
    decreases |lines|
  {
    if lines != [] {
      LinesReadBack(lines, products, items, amounts);
      TotalIsTheSum(lines[..|lines| - 1], products, items[..|lines| - 1], amounts[..|lines| - 1]);
    }
  }
}
