/**
 What an order costs (apps/api/src/order/order.service.ts, apps/api/src/discount/discount.service.ts).
 Money is in whole cents; percentages are in hundredths of a percent. `toFixed(2)` rounds exact values half
 away from zero.
 */
module Pricing {
  import opened Wrappers

  type Id = nat

  // ----- rounding -----

  const WHOLE: int := 10000  // one hundred percent

  /** So many ten-thousandths of a cent as whole cents, halves away from zero. */
  function Round(n: int): int {
    if n < 0 then -((-n + WHOLE / 2) / WHOLE) else (n + WHOLE / 2) / WHOLE
  }

  /** The rounded value is the nearest one, and of two equally near ones the one away from zero. */
  lemma RoundNearest(n: int)
    ensures n >= 0 ==> -WHOLE / 2 <= n - WHOLE * Round(n) < WHOLE / 2
    ensures Round(-n) == -Round(n)
  {
  }

  // ----- discounts and totals -----

  datatype DiscountType = PERCENTAGE | FIXED_AMOUNT

  function Min(a: int, b: int): int {
    if a <= b then a else b
  }

  /** `computeDiscountAmount`; `value` is in hundredths of a percent or in cents. */
  function DiscountAmount(subtotal: int, kind: DiscountType, value: int): int {
    if value <= 0 || subtotal <= 0 then 0
    else if kind.PERCENTAGE? then Round(Min(subtotal * value, subtotal * WHOLE))
    else Min(value, subtotal)
  }

  function TaxAmount(subtotal: int, rate: int): int {
    Round(subtotal * rate)
  }

  datatype Discount = Discount(
    kind: DiscountType, value: int, active: bool, from: Option<int>, until: Option<int>, limit: Option<int>, used: int)

  datatype Error = NotFound | BadRequest

  /** `validateDiscount`: every reason to refuse gives the same error. */
  function ValidateDiscount(discount: Option<Discount>, subtotal: int, now: int): Result<int, Error> {
    if discount.None? || !discount.value.active then Err(BadRequest)
    else
      var d := discount.value;
      if d.from.Some? && now < d.from.value then Err(BadRequest)
      else if d.until.Some? && now > d.until.value then Err(BadRequest)
      else if d.limit.Some? && d.used >= d.limit.value then Err(BadRequest)
      else
        var amount := DiscountAmount(subtotal, d.kind, d.value);
        if amount <= 0 then Err(BadRequest) else Ok(amount)
  }

  function Total(subtotal: int, rate: int, discount: int): int {
    subtotal + TaxAmount(subtotal, rate) - discount
  }

  /** A discount is never negative and never more than the subtotal; a percentage above 100 takes all of it. */
  lemma DiscountBounds(subtotal: nat, kind: DiscountType, value: int)
    ensures 0 <= DiscountAmount(subtotal, kind, value) <= subtotal
    ensures subtotal > 0 && value >= (if kind.PERCENTAGE? then WHOLE else subtotal) ==>
            DiscountAmount(subtotal, kind, value) == subtotal
  {
    if value > 0 && subtotal > 0 && kind.PERCENTAGE? {
      Scale(subtotal, 0, value);
      if value >= WHOLE { Scale(subtotal, WHOLE, value); }
      var n := Min(subtotal * value, subtotal * WHOLE);
      assert 0 <= n <= subtotal * WHOLE;
      RoundBetween(n, subtotal);
    }
  }

  lemma RoundBetween(n: nat, cents: nat)
    requires n <= cents * WHOLE
    ensures 0 <= Round(n) <= cents && Round(cents * WHOLE) == cents
  {
  }

  /** Tax is the rate on the subtotal, to the nearest cent. */
  lemma TaxNearest(subtotal: nat, rate: nat)
    ensures -WHOLE / 2 <= subtotal * rate - WHOLE * TaxAmount(subtotal, rate) < WHOLE / 2
  {
    Scale(subtotal, 0, rate);
    RoundNearest(subtotal * rate);
  }

  /** A percentage is that part of the subtotal, to the nearest cent; a fixed amount is itself, up to the subtotal. */
  lemma DiscountExactly(subtotal: nat, kind: DiscountType, value: int)
    ensures value <= 0 || subtotal == 0 ==> DiscountAmount(subtotal, kind, value) == 0
    ensures value > 0 && kind == FIXED_AMOUNT ==>
              DiscountAmount(subtotal, kind, value) == if value <= subtotal then value else subtotal
    ensures 0 < value <= WHOLE && kind == PERCENTAGE ==>
              -WHOLE / 2 <= subtotal * value - WHOLE * DiscountAmount(subtotal, kind, value) < WHOLE / 2
    ensures value >= WHOLE && kind == PERCENTAGE ==> DiscountAmount(subtotal, kind, value) == subtotal
  {
    if 0 < value <= WHOLE && kind == PERCENTAGE {
      PercentAmount(subtotal, value);
      Scale(subtotal, 0, value);
      RoundNearest(subtotal * value);
      hide DiscountAmount, Round;
    }
    DiscountBounds(subtotal, kind, value);
  }

  /** A code is good if its row exists, is active, within its dates, not used up, and takes something off. */
  ghost predicate Good(discount: Option<Discount>, subtotal: int, now: int) {
    && discount.Some? && discount.value.active
    && (discount.value.from.Some? ==> discount.value.from.value <= now)
    && (discount.value.until.Some? ==> now <= discount.value.until.value)
    && (discount.value.limit.Some? ==> discount.value.used < discount.value.limit.value)
    && DiscountAmount(subtotal, discount.value.kind, discount.value.value) > 0
  }

  lemma ValidateExactly(discount: Option<Discount>, subtotal: int, now: int)
    ensures var r := ValidateDiscount(discount, subtotal, now);
            && (r.Ok? <==> Good(discount, subtotal, now))
            && (r.Ok? ==> r.value == DiscountAmount(subtotal, discount.value.kind, discount.value.value))
            && (r.Err? ==> r.error == BadRequest)
  {
    hide DiscountAmount;
  }

  /** What remains to be paid before tax. */
  function Net(subtotal: nat, kind: DiscountType, value: int): int {
    subtotal - DiscountAmount(subtotal, kind, value)
  }

  lemma PercentAmount(subtotal: nat, value: int)
    requires 0 < value <= WHOLE
    ensures DiscountAmount(subtotal, PERCENTAGE, value) == Round(subtotal * value)
  {
    hide Round;
    Scale(subtotal, value, WHOLE);
    if subtotal == 0 { RoundZero(); }
  }

  lemma Scale(n: nat, a: int, b: int)
    requires a <= b
    ensures n * a <= n * b
  {
    assert n * (b - a) >= 0;
  }

  lemma RoundZero()
    ensures Round(0) == 0
  {
  }

  lemma RoundStep(a: nat, v: int)
    requires 0 <= v <= WHOLE
    ensures Round(a + v) <= Round(a) + 1
  {
  }

  /** One more cent of goods never lowers what remains: rounding gives away at most that cent. */
  lemma NetStep(subtotal: nat, kind: DiscountType, value: int)
    ensures Net(subtotal, kind, value) <= Net(subtotal + 1, kind, value)
  {
    if value > 0 && kind.PERCENTAGE? {
      hide DiscountAmount, Round;
      if value > WHOLE {
        DiscountBounds(subtotal, kind, value);
        DiscountBounds(subtotal + 1, kind, value);
      } else {
        PercentAmount(subtotal, value);
        PercentAmount(subtotal + 1, value);
        assert (subtotal + 1) * value == subtotal * value + value;
        RoundStep(subtotal * value, value);
      }
    }
  }

  lemma {:induction false} NetMonotone(subtotal: nat, more: nat, kind: DiscountType, value: int)
    requires subtotal <= more
    ensures Net(subtotal, kind, value) <= Net(more, kind, value)
    decreases more - subtotal
  {
    if subtotal < more {
      hide Net;
      NetMonotone(subtotal, more - 1, kind, value);
      NetStep(more - 1, kind, value);
    }
  }

  /** The amounts that are stored with an order. */
  lemma TotalBounds(subtotal: nat, rate: nat, kind: DiscountType, value: int)
    ensures var d := DiscountAmount(subtotal, kind, value);
            0 <= TaxAmount(subtotal, rate) <= Total(subtotal, rate, d) <= subtotal + TaxAmount(subtotal, rate)
  {
    DiscountBounds(subtotal, kind, value);
    assert subtotal * rate >= 0;
  }

  /** For a fixed discount and tax rate, buying more never lowers the total. */
  lemma TotalMonotone(subtotal: nat, more: nat, rate: nat, kind: DiscountType, value: int)
    requires subtotal <= more
    ensures Total(subtotal, rate, DiscountAmount(subtotal, kind, value))
            <= Total(more, rate, DiscountAmount(more, kind, value))
  {
    NetMonotone(subtotal, more, kind, value);
    assert 0 <= subtotal * rate <= more * rate;
    hide DiscountAmount;
  }

  // ----- lines -----

  datatype Product = Product(price: int, available: bool)
  datatype Variant = Variant(product: Id, price: int, stock: int)
  datatype Size = Size(product: Id, adjustment: int)
  datatype Addon = Addon(price: int, available: bool)

  datatype Catalogue = Catalogue(
    products: map<Id, Product>, variants: map<Id, Variant>, sizes: map<Id, Size>, addons: map<Id, Addon>)

  datatype Item = Item(product: Id, variant: Option<Id>, size: Option<Id>, addons: seq<Id>, quantity: nat)

  datatype Line = Line(item: Item, unitPrice: int, total: int)

  /** A variant replaces the base price; a size only adjusts it when no variant is chosen. */
  function UnitPrice(c: Catalogue, item: Item): Result<int, Error> {
    if item.product !in c.products || !c.products[item.product].available then Err(NotFound)
    else if item.variant.Some? then
      var v := item.variant.value;
      if v !in c.variants || c.variants[v].product != item.product || c.variants[v].stock <= 0 then Err(BadRequest)
      else Ok(c.variants[v].price)
    else if item.size.Some? then
      var z := item.size.value;
      if z !in c.sizes || c.sizes[z].product != item.product then Err(BadRequest)
      else Ok(c.products[item.product].price + c.sizes[z].adjustment)
    else Ok(c.products[item.product].price)
  }

  predicate AddonsAvailable(c: Catalogue, addons: seq<Id>) {
    forall i :: 0 <= i < |addons| ==> addons[i] in c.addons && c.addons[addons[i]].available
  }

  function AddonsPrice(c: Catalogue, addons: seq<Id>): int
    requires AddonsAvailable(c, addons)
  {
    if addons == [] then 0 else AddonsPrice(c, addons[..|addons| - 1]) + c.addons[addons[|addons| - 1]].price
  }

  /** What one item must cost, or why it cannot be sold. */
  function LineOf(c: Catalogue, item: Item): Result<Line, Error> {
    var unit := UnitPrice(c, item);
    if unit.Err? then Err(unit.error)
    else if !AddonsAvailable(c, item.addons) then Err(BadRequest)
    else Ok(Line(item, unit.value, (unit.value + AddonsPrice(c, item.addons)) * item.quantity))
  }

  function Sum(lines: seq<Line>): int {
    if lines == [] then 0 else Sum(lines[..|lines| - 1]) + lines[|lines| - 1].total
  }

  /** The price of one piece: the variant's, else the product's with the size's adjustment, else the product's. */
  ghost predicate Costs(c: Catalogue, item: Item, price: int) {
    && item.product in c.products && c.products[item.product].available
    && if item.variant.Some? then
         && item.variant.value in c.variants
         && var v := c.variants[item.variant.value]; v.product == item.product && v.stock > 0 && price == v.price
       else if item.size.Some? then
         && item.size.value in c.sizes
         && var z := c.sizes[item.size.value];
            z.product == item.product && price == c.products[item.product].price + z.adjustment
       else price == c.products[item.product].price
  }

  ghost predicate OnOffer(c: Catalogue, addon: Id) {
    addon in c.addons && c.addons[addon].available
  }

  /** An item can be sold exactly if it has a price and all its add-ons are on offer; its line shows that price. */
  lemma LineExactly(c: Catalogue, item: Item)
    ensures var r := LineOf(c, item);
            && (r.Ok? <==> (exists price :: Costs(c, item, price)) && forall a :: a in item.addons ==> OnOffer(c, a))
            && (r.Ok? ==> r.value.item == item && Costs(c, item, r.value.unitPrice))
            && (r == Err(NotFound) <==> !(item.product in c.products && c.products[item.product].available))
  {
    UnitCosts(c, item);
    hide UnitPrice, Costs;
    assert AddonsAvailable(c, item.addons) <==> forall a :: a in item.addons ==> OnOffer(c, a) by {
      if forall a :: a in item.addons ==> OnOffer(c, a) {
        assert forall i :: 0 <= i < |item.addons| ==> OnOffer(c, item.addons[i]);
      }
    }
    hide AddonsAvailable, OnOffer;
  }

  lemma UnitCosts(c: Catalogue, item: Item)
    ensures var u := UnitPrice(c, item);
            && (u.Ok? <==> exists price :: Costs(c, item, price))
            && (u.Ok? ==> Costs(c, item, u.value))
            && (u == Err(NotFound) <==> !(item.product in c.products && c.products[item.product].available))
  {
    var u := UnitPrice(c, item);
    if u.Ok? { assert Costs(c, item, u.value); }
  }

  /** No piece costs nothing, and without add-ons each piece costs the unit price. */
  lemma LineByPiece(c: Catalogue, item: Item)
    requires LineOf(c, item).Ok?
    ensures item.quantity == 0 ==> LineOf(c, item).value.total == 0
    ensures item.addons == [] ==> LineOf(c, item).value.total == item.quantity * LineOf(c, item).value.unitPrice
    ensures var one := LineOf(c, item.(quantity := 1));
            var more := LineOf(c, item.(quantity := item.quantity + 1));
            && one.Ok? && more.Ok? && more.value.total == LineOf(c, item).value.total + one.value.total
  {
    var more := item.(quantity := item.quantity + 1);
    assert UnitPrice(c, more) == UnitPrice(c, item) && UnitPrice(c, item.(quantity := 1)) == UnitPrice(c, item);
    hide UnitPrice, AddonsAvailable;
    var each := UnitPrice(c, item).value + AddonsPrice(c, item.addons);
    assert each * (item.quantity + 1) == each * item.quantity + each;
  }

  /** One more add-on raises the line by its price for every piece. */
  lemma LineByAddon(c: Catalogue, item: Item, addon: Id)
    requires LineOf(c, item).Ok? && OnOffer(c, addon)
    ensures var more := LineOf(c, item.(addons := item.addons + [addon]));
            && more.Ok? && more.value.unitPrice == LineOf(c, item).value.unitPrice
            && more.value.total == LineOf(c, item).value.total + item.quantity * c.addons[addon].price
  {
    var more := item.(addons := item.addons + [addon]);
    assert UnitPrice(c, more) == UnitPrice(c, item);
    assert more.addons[..|more.addons| - 1] == item.addons;
    assert forall i :: 0 <= i < |item.addons| ==> more.addons[i] == item.addons[i];
    assert AddonsAvailable(c, more.addons);
    hide UnitPrice;
    var each, price := UnitPrice(c, item).value + AddonsPrice(c, item.addons), c.addons[addon].price;
    assert (each + price) * item.quantity == each * item.quantity + price * item.quantity;
  }

  /** The subtotal starts at nothing and grows by each line. */
  lemma SumByLine(lines: seq<Line>, line: Line)
    ensures Sum([]) == 0 && Sum(lines + [line]) == Sum(lines) + line.total
  {
    assert (lines + [line])[..|lines|] == lines;
  }

  /** The lines of all items that can be sold. */
  ghost function LinesOf(c: Catalogue, items: seq<Item>): seq<Line> {
    if items == [] then []
    else
      var last := LineOf(c, items[|items| - 1]);
      LinesOf(c, items[..|items| - 1]) + (if last.Ok? then [last.value] else [])
  }

  lemma {:induction false} LinesAre(c: Catalogue, items: seq<Item>, lines: seq<Line>)
    requires |lines| == |items| && forall i :: 0 <= i < |items| ==> LineOf(c, items[i]) == Ok(lines[i])
    ensures LinesOf(c, items) == lines
  {
    if items != [] {
      hide LineOf;
      var n := |items| - 1;
      assert LineOf(c, items[n]) == Ok(lines[n]);
      LinesAre(c, items[..n], lines[..n]);
      assert lines == lines[..n] + [lines[n]];
    }
  }

  /** One pass over an item: unit price, then the add-ons one by one. */
  method PriceItem(c: Catalogue, item: Item) returns (r: Result<Line, Error>)
    ensures r == LineOf(c, item)
    ensures r.Ok? <==> (exists price :: Costs(c, item, price)) && forall a :: a in item.addons ==> OnOffer(c, a)
    ensures r.Ok? ==> Costs(c, item, r.value.unitPrice)
  {
    LineExactly(c, item);
    hide Costs, OnOffer;
    var unit := UnitPrice(c, item);
    if unit.Err? {
      return Err(unit.error);
    }
    var addonsTotal := 0;
    for i := 0 to |item.addons|
      invariant AddonsAvailable(c, item.addons[..i]) && addonsTotal == AddonsPrice(c, item.addons[..i])
    {
      var a := item.addons[i];
      if a !in c.addons || !c.addons[a].available {
        return Err(BadRequest);
      }
      assert item.addons[..i + 1][..i] == item.addons[..i];
      addonsTotal := addonsTotal + c.addons[a].price;
    }
    assert item.addons[..|item.addons|] == item.addons;
    r := Ok(Line(item, unit.value, (unit.value + addonsTotal) * item.quantity));
  }

  /** The loop of `createOrder`: all lines and their sum, or the error of the first item that has one. */
  method PriceItems(c: Catalogue, items: seq<Item>) returns (r: Result<(seq<Line>, int), Error>)
    ensures r.Ok? <==> forall i :: 0 <= i < |items| ==> LineOf(c, items[i]).Ok?
    ensures r.Ok? ==> var (lines, subtotal) := r.value;
                      && |lines| == |items| && subtotal == Sum(lines)
                      && forall i :: 0 <= i < |items| ==> LineOf(c, items[i]) == Ok(lines[i])
    ensures r.Err? ==> exists i :: 0 <= i < |items| && LineOf(c, items[i]) == Err(r.error)
                                   && forall j :: 0 <= j < i ==> LineOf(c, items[j]).Ok?
  {
    hide LineOf, Costs, OnOffer, Sum;
    SumByLine([], Line(Item(0, None, None, [], 0), 0, 0));
    var subtotal, lines: seq<Line> := 0, [];
    for i := 0 to |items|
      invariant |lines| == i && subtotal == Sum(lines)
      invariant forall j :: 0 <= j < i ==> LineOf(c, items[j]) == Ok(lines[j])
    {
      var line := PriceItem(c, items[i]);
      if line.Err? {
        return Err(line.error);
      }
      subtotal := subtotal + line.value.total;
      SumByLine(lines, line.value);
      lines := lines + [line.value];
    }
    r := Ok((lines, subtotal));
  }

  /** Lines that are not negative add up to a subtotal for which all bounds above hold. */
  lemma {:induction false} SumNonNegative(lines: seq<Line>)
    requires forall i :: 0 <= i < |lines| ==> lines[i].total >= 0
    ensures Sum(lines) >= 0
    ensures forall i :: 0 <= i < |lines| ==> lines[i].total <= Sum(lines)
  {
    if lines != [] {
      SumNonNegative(lines[..|lines| - 1]);
    }
  }

  // ----- the whole order -----

  /** No price is negative, and no size takes off more than its product costs. */
  ghost predicate NonNegative(c: Catalogue) {
    && (forall p :: p in c.products ==> c.products[p].price >= 0)
    && (forall v :: v in c.variants ==> c.variants[v].price >= 0)
    && (forall a :: a in c.addons ==> c.addons[a].price >= 0)
    && (forall z :: z in c.sizes && c.sizes[z].product in c.products ==>
        c.products[c.sizes[z].product].price + c.sizes[z].adjustment >= 0)
  }

  lemma {:induction false} AddonsNonNegative(c: Catalogue, addons: seq<Id>)
    requires NonNegative(c) && AddonsAvailable(c, addons)
    ensures AddonsPrice(c, addons) >= 0
  {
    if addons != [] {
      AddonsNonNegative(c, addons[..|addons| - 1]);
    }
  }

  lemma LineNonNegative(c: Catalogue, item: Item)
    requires NonNegative(c) && LineOf(c, item).Ok?
    ensures LineOf(c, item).value.total >= 0
  {
    AddonsNonNegative(c, item.addons);
    hide AddonsPrice;
    var unit := UnitPrice(c, item).value;
    assert unit >= 0;
    Scale(item.quantity, 0, unit + AddonsPrice(c, item.addons));
  }

  datatype Amounts = Amounts(lines: seq<Line>, subtotal: int, tax: int, discount: int, total: int)

  /** The amounts hang together, and with prices that are not negative none of them is out of bounds. */
  ghost predicate Sane(c: Catalogue, a: Amounts) {
    && a.subtotal == Sum(a.lines) && a.total == a.subtotal + a.tax - a.discount
    && (NonNegative(c) ==> 0 <= a.discount <= a.subtotal && 0 <= a.tax <= a.total)
  }

  lemma AmountsSane(
    c: Catalogue, items: seq<Item>, lines: seq<Line>, rate: nat, d: Option<Discount>, now: int, discount: int)
    requires |lines| == |items| && forall i :: 0 <= i < |items| ==> LineOf(c, items[i]) == Ok(lines[i])
    requires discount == 0 || ValidateDiscount(d, Sum(lines), now) == Ok(discount)
    ensures Sane(c, Amounts(lines, Sum(lines), TaxAmount(Sum(lines), rate), discount,
                            Total(Sum(lines), rate, discount)))
  {
    if NonNegative(c) {
      forall i | 0 <= i < |lines| ensures lines[i].total >= 0 {
        LineNonNegative(c, items[i]);
      }
      SumNonNegative(lines);
      hide Sum, LineOf, NonNegative, Round;
      var subtotal := Sum(lines);
      if discount != 0 {
        TotalBounds(subtotal, rate, d.value.kind, d.value.value);
        DiscountBounds(subtotal, d.value.kind, d.value.value);
      } else {
        TotalBounds(subtotal, rate, PERCENTAGE, 0);
      }
    }
  }

  /** Pricing a checkout; `code` is the discount row looked up, if a code was given. */
  method PriceOrder(c: Catalogue, items: seq<Item>, rate: nat, code: Option<Option<Discount>>, now: int)
      returns (r: Result<Amounts, Error>)
    ensures r.Ok? ==> Sane(c, r.value) && r.value.tax == TaxAmount(r.value.subtotal, rate)
    ensures r.Ok? ==> |r.value.lines| == |items|
                      && forall i :: 0 <= i < |items| ==> LineOf(c, items[i]) == Ok(r.value.lines[i])
    ensures r.Ok? ==> if code.None? then r.value.discount == 0
                      else ValidateDiscount(code.value, r.value.subtotal, now) == Ok(r.value.discount)
    ensures r.Err? <==> (exists i :: 0 <= i < |items| && LineOf(c, items[i]).Err?)
                        || (code.Some? && ValidateDiscount(code.value, Sum(LinesOf(c, items)), now).Err?)
  {
    hide LineOf, LinesOf, TaxAmount, Round, NonNegative, Sum, ValidateDiscount;
    var priced := PriceItems(c, items);
    if priced.Err? {
      return Err(priced.error);
    }
    var (lines, subtotal) := priced.value;
    LinesAre(c, items, lines);
    var discount := 0;
    if code.Some? {
      var amount := ValidateDiscount(code.value, subtotal, now);
      if amount.Err? {
        return Err(amount.error);
      }
      discount := amount.value;
    }
    AmountsSane(c, items, lines, rate, if code.Some? then code.value else None, now, discount);
    r := Ok(Amounts(lines, subtotal, TaxAmount(subtotal, rate), discount, Total(subtotal, rate, discount)));
  }
}
