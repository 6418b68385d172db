/**
 * The validation rules of a product (`defineRules` in
 * src/elements/Product.php): which of them a record breaks, in the order the
 * rules are declared. A record with no broken rule may be saved.
 */
module Validation {
  import opened Wrappers
  import opened Text
  import opened Catalog

  datatype Rule =
    | SkuRequired | SkuUnique | TitleRequired | PriceMin | ComparePriceMin | WeightMin | StockMin | StatusRange

  const Statuses: seq<string> := ["active", "inactive", "discontinued"]

  /** A stored record other than the product itself already carries its SKU. */
  predicate SkuTaken(db: Db, p: Product) {
    exists i :: 0 <= i < |db.products| && db.products[i].sku == p.sku && db.products[i].id != p.id
  }

  /**
   * The `unique` rule as written: for a model that is not an active record
   * the host's unique validator runs a plain `exists()` on `sku`, which also
   * finds the product's own stored record.
   */
  predicate SkuTakenAsWritten(db: Db, p: Product) {
    HasSku(db, p.sku)
  }

  /** The broken rules, with the record stored under the SKU already known. */
  function BrokenRules(p: Product, taken: bool): seq<Rule> {
    (if Blank(p.sku) then [SkuRequired] else [])
    + (if p.sku != "" && taken then [SkuUnique] else [])
    + (if Blank(p.title) then [TitleRequired] else [])
    + (if p.price < 0 then [PriceMin] else [])
    + (if p.comparePrice.Some? && p.comparePrice.value < 0 then [ComparePriceMin] else [])
    + (if p.weight < 0 then [WeightMin] else [])
    + (if p.stock.Some? && p.stock.value < 0 then [StockMin] else [])
    + (if p.status != "" && p.status !in Statuses then [StatusRange] else [])
  }

  /**
   * The broken rules. `required` trims the value first; the other rules skip
   * an empty value (null or ""), as the host validators do. A SKU is taken
   * when a record other than the product's own carries it.
   */
  function Violations(db: Db, p: Product): seq<Rule> {
    BrokenRules(p, SkuTaken(db, p))
  }

  /** The rules as written, with the `unique` rule counting the product's own record. */
  function ViolationsAsWritten(db: Db, p: Product): seq<Rule> {
    BrokenRules(p, SkuTakenAsWritten(db, p))
  }

  /** A stored product saved again with its SKU unchanged. */
  predicate Stored(db: Db, p: Product) {
    exists i :: 0 <= i < |db.products| && db.products[i].id == p.id && db.products[i].sku == p.sku
  }

  /** As written, saving a stored product again with a non-blank SKU always breaks the `unique` rule. */
  lemma ResaveRejectedAsWritten(db: Db, p: Product)
    requires Stored(db, p) && !Blank(p.sku)
    ensures SkuUnique in ViolationsAsWritten(db, p)
  {
    var i :| 0 <= i < |db.products| && db.products[i].id == p.id && db.products[i].sku == p.sku;
    assert p.sku != "" by { assert !Blank(p.sku); }
  }

  /** With the own record excluded, saving a stored product again with its SKU unchanged keeps the `unique` rule. */
  lemma ResaveKeepsUnique(db: Db, p: Product)
    requires WellFormed(db) && Stored(db, p)
    ensures SkuUnique !in Violations(db, p)
  {
    var i :| 0 <= i < |db.products| && db.products[i].id == p.id && db.products[i].sku == p.sku;
  }

  /** A new record (no id yet) that validates carries a SKU no stored product has. */
  lemma NewValidIsFresh(db: Db, p: Product)
    requires WellFormed(db) && p.id == 0 && Violations(db, p) == []
    ensures !HasSku(db, p.sku)
  {
  }

  /**
   * A record breaks no rule other than the uniqueness of its SKU when these
   * hold, under either reading of the `unique` rule: the corrected one that
   * excludes the product's own record, and the one as written.
   */
  lemma OnlySkuUniqueLeft(db: Db, p: Product)
    requires !Blank(p.sku) && !Blank(p.title) && p.price >= 0 && p.weight >= 0
    requires p.comparePrice.None? || p.comparePrice.value >= 0
    requires p.stock.None? || p.stock.value >= 0
    requires p.status in Statuses
    ensures Violations(db, p) == (if SkuTaken(db, p) then [SkuUnique] else [])
    ensures ViolationsAsWritten(db, p) == (if SkuTakenAsWritten(db, p) then [SkuUnique] else [])
  {
  }
}
