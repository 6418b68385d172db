/**
 * Stock and price rules of src/elements/Product.php: `isInStock`, the tier
 * loop of `getFinalPrice` and the sum `getTotalStock` forms for a main
 * product. The loops themselves are methods of `Elements.ProductElement`;
 * these are the functions they are proved against.
 */
module Pricing {
  import opened Wrappers
  import opened Catalog

  /** `isInStock`: untracked stock is always available; a null stock counts as not positive. */
  predicate IsInStock(p: Product) {
    !p.trackStock || (p.stock.Some? && p.stock.value > 0) || p.allowBackorder
  }

  /** The price after the tier loop: each tier whose minimum the quantity reaches overrides it. */
  function TierPrice(base: int, tiers: seq<Tier>, quantity: int): int
    decreases |tiers|
  {
    if tiers == [] then base
    else
      var last := tiers[|tiers| - 1];
      if quantity >= last.minQuantity then last.price else TierPrice(base, tiers[..|tiers| - 1], quantity)
  }

  predicate TierApplies(t: Tier, quantity: int) {
    quantity >= t.minQuantity
  }

  /** No tier after position `i` applies. */
  predicate LastApplying(tiers: seq<Tier>, i: nat, quantity: int) {
    forall j :: i < j < |tiers| ==> !TierApplies(tiers[j], quantity)
  }

  /**
   * The last tier in list order that applies sets the price; with no such
   * tier the base price stays.
   */
  lemma {:induction false} TierPriceLastMatch(base: int, tiers: seq<Tier>, quantity: int)
    ensures (forall i :: 0 <= i < |tiers| ==> !TierApplies(tiers[i], quantity)) ==>
              TierPrice(base, tiers, quantity) == base
    ensures forall i :: 0 <= i < |tiers| && TierApplies(tiers[i], quantity) && LastApplying(tiers, i, quantity) ==>
              TierPrice(base, tiers, quantity) == tiers[i].price
    decreases |tiers|
  {
    if tiers != [] {
      var init := tiers[..|tiers| - 1];
      TierPriceLastMatch(base, init, quantity);
      forall i | 0 <= i < |init| ensures init[i] == tiers[i] { }
    }
  }

  /** The sum of the variants' stocks, skipping null ones. */
  function StockSum(vs: seq<Product>): int
    decreases |vs|
  {
    if vs == [] then 0
    else StockSum(vs[..|vs| - 1]) + vs[|vs| - 1].stock.GetOr(0)
  }

  /** `getTotalStock`: null when stock is not tracked; a main product adds its variants' stock to its own. */
  function TotalStock(p: Product, isMain: bool, variants: seq<Product>): Option<int> {
    if !p.trackStock then None
    else if isMain then Some(p.stock.GetOr(0) + StockSum(variants))
    else p.stock
  }

  lemma {:induction false} StockSumNonNegative(vs: seq<Product>)
    requires forall i :: 0 <= i < |vs| ==> vs[i].stock.None? || vs[i].stock.value >= 0
    ensures StockSum(vs) >= 0
    decreases |vs|
  {
    if vs != [] { StockSumNonNegative(vs[..|vs| - 1]); }
  }

  /**
   * With non-negative variant stocks a main product's total is at least its
   * own stock, and is exactly its own stock when it has no variants.
   */
  lemma TotalStockBounds(p: Product, variants: seq<Product>)
    requires p.trackStock
    requires forall i :: 0 <= i < |variants| ==> variants[i].stock.None? || variants[i].stock.value >= 0
    ensures TotalStock(p, true, variants).Some?
    ensures TotalStock(p, true, variants).value >= p.stock.GetOr(0)
    ensures variants == [] ==> TotalStock(p, true, variants) == Some(p.stock.GetOr(0))
  {
    StockSumNonNegative(variants);
  }

  /** The variants' stock adds up over any split of the list: each variant counts once, in any grouping. */
  lemma {:induction false} StockSumAppend(a: seq<Product>, b: seq<Product>)
    ensures StockSum(a + b) == StockSum(a) + StockSum(b)
    decreases |b|
  {
    if b == [] {
      assert a + b == a;
    } else {
      var init := b[..|b| - 1];
      assert (a + b)[..|a + b| - 1] == a + init;
      StockSumAppend(a, init);
    }
  }

  /** One more variant adds its stock, or nothing when its stock is null. */
  lemma TotalStockAddVariant(p: Product, variants: seq<Product>, v: Product)
    requires p.trackStock
    ensures TotalStock(p, true, variants + [v]).value == TotalStock(p, true, variants).value + v.stock.GetOr(0)
  {
    assert (variants + [v])[..|variants|] == variants;
  }
}
