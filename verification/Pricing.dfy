/**
 Prices one order line under the best promotion it qualifies for. The code computes in rationals, the
 specification in cents.
 */
module Pricing {
  import opened Wrappers
  import opened Money

  datatype Promotion = Promotion(id: nat, ruleType: string, threshold: string, discount: string)

  datatype Product = Product(productId: nat, sku: nat, unitPrice: string, saleable: bool, promotions: seq<Promotion>)

  datatype OrderItem = OrderItem(
    productId: nat, sku: nat, quantity: nat, unitPrice: string, discountAmount: string, itemAmount: string,
    candidates: seq<Promotion>, applied: Option<Promotion>)

  /** Both amounts can be read; an absent threshold is not an amount. */
  predicate Readable(p: Promotion) {
    CentsOf(p.discount).Some? && (p.threshold == "" || CentsOf(p.threshold).Some?)
  }

  /** Cents off each unit (0 if unreadable). */
  function Discount(p: Promotion): nat {
    if CentsOf(p.discount).Some? then CentsOf(p.discount).value else 0
  }

  predicate Eligible(p: Promotion, subtotal: nat) {
    Readable(p) && Discount(p) > 0 && (p.threshold == "" || CentsOf(p.threshold).value <= subtotal)
  }

  predicate Beats(p: Promotion, q: Promotion) {
    Discount(p) > Discount(q) || (Discount(p) == Discount(q) && p.id < q.id)
  }

  /** A largest eligible discount, the smallest id among equals; none only if nothing is eligible. */
  ghost predicate Best(applied: Option<Promotion>, candidates: seq<Promotion>, subtotal: nat) {
    match applied
    case None => forall p | p in candidates :: !Eligible(p, subtotal)
    case Some(a) =>
      && a in candidates && Eligible(a, subtotal)
      && forall p | p in candidates && Eligible(p, subtotal) :: !Beats(p, a)
  }

  function AppliedDiscount(applied: Option<Promotion>): nat {
    if applied.Some? then Discount(applied.value) else 0
  }

  /** Cents for a whole line: the product, as repeated addition. */
  function Times(cents: nat, quantity: nat): nat {
    if quantity == 0 then 0 else Times(cents, quantity - 1) + cents
  }

  lemma {:induction false} TimesIsProduct(cents: nat, quantity: nat)
    ensures Times(cents, quantity) == cents * quantity
    decreases quantity
  {
    if quantity > 0 {
      TimesIsProduct(cents, quantity - 1);
      assert cents * quantity == cents * (quantity - 1) + cents;
    }
  }

  /** The line is priced exactly: amount plus discount is unit price times quantity, under a best promotion. */
  ghost predicate Priced(product: Product, quantity: nat, item: OrderItem, amount: nat) {
    && CentsOf(product.unitPrice).Some?
    && var unit := CentsOf(product.unitPrice).value;
       var discount := Times(AppliedDiscount(item.applied), quantity);
       && Best(item.applied, product.promotions, Times(unit, quantity))
       && amount + discount == Times(unit, quantity)
       && amount <= MAX_CENTS && discount <= MAX_CENTS
       && item.unitPrice == Format(unit) && item.discountAmount == Format(discount) && item.itemAmount == Format(amount)
       && item.productId == product.productId && item.sku == product.sku && item.quantity == quantity
       && item.candidates == product.promotions
  }

  /** Both parts of a split line are non-negative and within the money range. */
  predicate Fits(subtotal: nat, discount: nat) {
    discount <= subtotal && discount <= MAX_CENTS && subtotal - discount <= MAX_CENTS
  }

  /** When a line can be priced at all: every amount reads, and the line fits under its best promotion. */
  ghost predicate Priceable(product: Product, quantity: nat) {
    && CentsOf(product.unitPrice).Some?
    && (forall p | p in product.promotions :: Readable(p))
    && var subtotal := Times(CentsOf(product.unitPrice).value, quantity);
       exists best :: Best(best, product.promotions, subtotal) && Fits(subtotal, Times(AppliedDiscount(best), quantity))
  }

  /** Best promotions agree on the discount and on the id. */
  lemma BestsAgree(
    best: Option<Promotion>, best': Option<Promotion>, s: seq<Promotion>, t: seq<Promotion>, subtotal: nat)
    requires forall p :: p in s <==> p in t
    requires Best(best, s, subtotal) && Best(best', t, subtotal)
    ensures AppliedDiscount(best) == AppliedDiscount(best')
    ensures best.Some? <==> best'.Some?
    ensures best.Some? ==> best.value.id == best'.value.id
  {
  }

  /** What a candidate takes off one unit: None if it cannot be read, zero if the line does not qualify. */
  method Offer(promotion: Promotion, subtotal: real, ghost cents: nat) returns (r: Option<real>)
    requires subtotal == Amount(cents)
    ensures r.Some? <==> Readable(promotion)
    ensures r.Some? ==> r.value == Amount(if Eligible(promotion, cents) then Discount(promotion) else 0)
  {
    ParseIsExact(promotion.discount);
    ParseIsExact(promotion.threshold);
    var value := ParseMoney(promotion.discount);
    if value.None? {
      return None;
    }
    if promotion.threshold != "" {
      var threshold := ParseMoney(promotion.threshold);
      if threshold.None? {
        return None;
      }
      if threshold.value > subtotal {
        return Some(0.0);
      }
    }
    return Some(if value.value <= 0.0 then 0.0 else value.value);
  }

  /** One more candidate: the best so far stays unless this one beats it. */
  lemma BestSoFar(applied: Option<Promotion>, seen: seq<Promotion>, p: Promotion, subtotal: nat)
    requires Best(applied, seen, subtotal)
    ensures var takes := Eligible(p, subtotal) && (applied.None? || Beats(p, applied.value));
      Best(if takes then Some(p) else applied, seen + [p], subtotal)
  {
  }

  /** Scans the candidates once, keeping the best so far. */
  method BestPromotion(candidates: seq<Promotion>, subtotal: real, ghost cents: nat)
    returns (r: Option<Option<Promotion>>, discount: real)
    requires subtotal == Amount(cents)
    ensures r.Some? <==> forall p | p in candidates :: Readable(p)
    ensures r.Some? ==> Best(r.value, candidates, cents) && discount == Amount(AppliedDiscount(r.value))
  {
    discount := 0.0;
    var applied: Option<Promotion> := None;
    for i := 0 to |candidates|
      invariant forall p | p in candidates[..i] :: Readable(p)
      invariant Best(applied, candidates[..i], cents)
      invariant discount == Amount(AppliedDiscount(applied))
    {
      var promotion := candidates[i];
      assert candidates[..i + 1] == candidates[..i] + [promotion] && promotion in candidates;
      var value := Offer(promotion, subtotal, cents);
      if value.None? {
        return None, discount;
      }
      BestSoFar(applied, candidates[..i], promotion, cents);
      if value.value <= 0.0 {
        continue;
      }
      if applied.None? || value.value > discount || (value.value == discount && promotion.id < applied.value.id) {
        discount, applied := value.value, Some(promotion);
      }
    }
    assert candidates[..|candidates|] == candidates;
    return Some(applied), discount;
  }

  lemma BestDecides(product: Product, quantity: nat, best: Option<Promotion>)
    requires CentsOf(product.unitPrice).Some? && forall p | p in product.promotions :: Readable(p)
    requires Best(best, product.promotions, Times(CentsOf(product.unitPrice).value, quantity))
    ensures Priceable(product, quantity)
      <==> Fits(Times(CentsOf(product.unitPrice).value, quantity), Times(AppliedDiscount(best), quantity))
  {
    var subtotal := Times(CentsOf(product.unitPrice).value, quantity);
    forall other | Best(other, product.promotions, subtotal) ensures AppliedDiscount(other) == AppliedDiscount(best) {
      BestsAgree(best, other, product.promotions, product.promotions, subtotal);
    }
  }

  /** Splits a line and writes its parts down; None when one is negative or out of range. */
  method SplitLine(subtotal: real, discount: real, ghost whole: nat, ghost off: nat)
    returns (r: Option<(string, string, real)>)
    requires subtotal == Amount(whole) && discount == Amount(off)
    ensures r.Some? <==> Fits(whole, off)
    ensures r.Some? ==> r.value == (Format(off), Format(whole - off), Amount(whole - off))
  {
    var amount := subtotal - discount;
    if amount < 0.0 {
      return None;
    }
    AmountFormats(off);
    AmountFormats(whole - off);
    var discountAmount, itemAmount := MoneyString(discount), MoneyString(amount);
    if discountAmount.None? || itemAmount.None? {
      return None;
    }
    return Some((discountAmount.value, itemAmount.value, amount));
  }

  /** An amount per unit, for the whole line. */
  method Extend(amount: real, quantity: nat, ghost cents: nat) returns (r: real)
    requires amount == Amount(cents)
    ensures r == Amount(Times(cents, quantity))
  {
    AmountTimes(cents, quantity);
    TimesIsProduct(cents, quantity);
    r := amount * quantity as real;
  }

  /** Parses the unit price. */
  method UnitPrice(product: Product) returns (r: Option<real>)
    ensures r == Parsed(CentsOf(product.unitPrice))
    ensures r.Some? ==> MoneyString(r.value) == Some(Format(CentsOf(product.unitPrice).value))
  {
    ParseIsExact(product.unitPrice);
    r := ParseMoney(product.unitPrice);
    if r.Some? {
      AmountFormats(CentsOf(product.unitPrice).value);
    }
  }

  /** Writes a line down under its best promotion; None when a part is negative or out of range. */
  method WriteLine(product: Product, quantity: nat, unit: real, best: Option<Promotion>, discount: real, subtotal: real)
    returns (r: Option<(OrderItem, real)>, ghost cents: nat)
    requires CentsOf(product.unitPrice).Some?
    requires MoneyString(unit) == Some(Format(CentsOf(product.unitPrice).value))
    requires subtotal == Amount(Times(CentsOf(product.unitPrice).value, quantity))
    requires discount == Amount(AppliedDiscount(best))
    requires Best(best, product.promotions, Times(CentsOf(product.unitPrice).value, quantity))
    ensures r.Some? <==> Fits(Times(CentsOf(product.unitPrice).value, quantity), Times(AppliedDiscount(best), quantity))
    ensures r.Some? ==> Priced(product, quantity, r.value.0, cents) && r.value.1 == Amount(cents)
  {
    ghost var whole, off := Times(CentsOf(product.unitPrice).value, quantity), Times(AppliedDiscount(best), quantity);
    var all := Extend(discount, quantity, AppliedDiscount(best));
    var parts := SplitLine(subtotal, all, whole, off);
    var unitPrice := MoneyString(unit);
    cents := if off <= whole then whole - off else 0;
    if parts.None? || unitPrice.None? {
      return None, cents;
    }
    return Some((OrderItem(product.productId, product.sku, quantity, unitPrice.value, parts.value.0, parts.value.1,
                           product.promotions, best), parts.value.2)), cents;
  }

  /** A priced line and its amount; None for every failure, which callers report alike. */
  method PriceLine(product: Product, quantity: nat) returns (r: Option<(OrderItem, real)>, ghost cents: nat)
    ensures r.Some? <==> Priceable(product, quantity)
    ensures r.Some? ==> Priced(product, quantity, r.value.0, cents) && r.value.1 == Amount(cents)
  {
    cents := 0;
    var unit := UnitPrice(product);
    if unit.None? {
      return None, cents;
    }
    ghost var price := CentsOf(product.unitPrice).value;
    var subtotal := Extend(unit.value, quantity, price);
    var best, discount := BestPromotion(product.promotions, subtotal, Times(price, quantity));
    if best.None? {
      return None, cents;
    }
    BestDecides(product, quantity, best.value);
    r, cents := WriteLine(product, quantity, unit.value, best.value, discount, subtotal);
  }

  /** The order of the candidates matters neither to success, nor to any amount, nor to the id applied. */
  lemma CandidateOrderDoesNotMatter(
    p: Product, q: Product, quantity: nat, item: OrderItem, item': OrderItem, amount: nat, amount': nat)
    requires multiset(p.promotions) == multiset(q.promotions) && p.unitPrice == q.unitPrice
    requires Priced(p, quantity, item, amount) && Priced(q, quantity, item', amount')
    ensures amount == amount' && item.itemAmount == item'.itemAmount && item.discountAmount == item'.discountAmount
    ensures item.applied.Some? <==> item'.applied.Some?
    ensures item.applied.Some? ==> item.applied.value.id == item'.applied.value.id
  {
    SameCandidates(p.promotions, q.promotions);
    BestsAgree(item.applied, item'.applied, p.promotions, q.promotions, Times(CentsOf(p.unitPrice).value, quantity));
  }

  lemma PriceableIgnoresOrder(p: Product, q: Product, quantity: nat)
    requires multiset(p.promotions) == multiset(q.promotions) && p.unitPrice == q.unitPrice
    ensures Priceable(p, quantity) <==> Priceable(q, quantity)
  {
    SameCandidates(p.promotions, q.promotions);
    if CentsOf(p.unitPrice).Some? {
      var subtotal := Times(CentsOf(p.unitPrice).value, quantity);
      forall best ensures Best(best, p.promotions, subtotal) <==> Best(best, q.promotions, subtotal) {}
    }
  }

  lemma SameCandidates(s: seq<Promotion>, t: seq<Promotion>)
    requires multiset(s) == multiset(t)
    ensures forall p :: p in s <==> p in t
  {
    forall p ensures p in s <==> p in t {
      assert p in s <==> p in multiset(s);
      assert p in t <==> p in multiset(t);
    }
  }

  /** Every stored amount of a priced line reads back as the cents it was computed from. */
  lemma PricedLineReadsBack(product: Product, quantity: nat, item: OrderItem, amount: nat)
    requires Priced(product, quantity, item, amount)
    ensures CentsOf(item.unitPrice) == CentsOf(product.unitPrice)
    ensures CentsOf(item.discountAmount) == Some(Times(AppliedDiscount(item.applied), quantity))
    ensures CentsOf(item.itemAmount) == Some(amount)
  {
    ParseIsExact(product.unitPrice);
    FormatIsExact(CentsOf(product.unitPrice).value);
    FormatIsExact(Times(AppliedDiscount(item.applied), quantity));
    FormatIsExact(amount);
  }
}
