/**
 * The product query of src/elements/db/ProductQuery.php: a builder whose
 * setters record filter criteria, and `beforePrepare`, which turns the
 * recorded criteria into conditions over a product row and its tag
 * relations. `Matches` states directly which products a set of criteria
 * admits; `ConditionsMatch` proves the conditions say the same.
 */
module Query {
  import opened Wrappers
  import opened Text
  import opened Assoc
  import opened Tags
  import opened Catalog
  import opened Pricing
  import opened Effects

  /** A `price` or `stock` criterion: a value, or the shapes `minPrice`, `maxPrice` and `priceRange` build. */
  datatype Criterion = Exactly(value: int) | AtLeast(bound: int) | AtMost(bound: int) | Between(low: int, high: int)

  predicate Satisfies(c: Criterion, x: int) {
    match c
    case Exactly(v) => x == v
    case AtLeast(b) => x >= b
    case AtMost(b) => x <= b
    case Between(lo, hi) => lo <= x <= hi
  }

  /** The criteria the builder records; `None` is PHP `null`, an unset filter. */
  datatype Filters = Filters(
    sku: Option<string>,
    price: Option<Criterion>,
    stock: Option<Criterion>,
    inStock: Option<bool>,
    trackStock: Option<bool>,
    allowBackorder: Option<bool>,
    status: Option<string>,
    isMainProduct: Option<bool>,
    isVariant: Option<bool>,
    parentSku: Option<string>,
    hasAttributes: Option<Assoc<string>>,
    inCategories: Option<seq<string>>,
    hasRating: Option<bool>,
    minRating: Option<int>)

  const NoFilters: Filters := Filters(None, None, None, None, None, None, None, None, None, None, None, None, None, None)

  // ---------------------------------------------------------------------
  // Tag lookups of beforePrepare

  /** A hierarchy tag whose slug matches `LIKE 'parent-%'`. */
  predicate IsParentTag(keys: seq<TagKey>, t: TagId) {
    t < |keys| && keys[t].0 == Hierarchy && StartsWith(keys[t].1, ParentPrefix)
  }

  /** `Tag::find()->group('hierarchy')->andWhere(['like', 'slug', 'parent-%', false])->all()`, in id order. */
  function ParentTags(keys: seq<TagKey>): seq<TagId>
    decreases |keys|
  {
    if keys == [] then []
    else
      var n := |keys| - 1;
      ParentTags(keys[..n]) + if keys[n].0 == Hierarchy && StartsWith(keys[n].1, ParentPrefix) then [n] else []
  }

  /** The tags of group `g` that exist for the slugs, in slug order; missing ones are dropped. */
  function FoundTags(db: Db, g: Group, slugs: seq<string>): seq<TagId>
    decreases |slugs|
  {
    if slugs == [] then []
    else
      var n := |slugs| - 1;
      FoundTags(db, g, slugs[..n]) + match FindTag(db, (g, slugs[n])) case None => [] case Some(t) => [t]
  }

  /** The slugs `hasAttributes` looks up: `$type . '-' . $value`, no lower-casing. */
  function AttributeQuerySlugs(attrs: Assoc<string>): (r: seq<string>)
    ensures |r| == |attrs|
  {
    seq(|attrs|, i requires 0 <= i < |attrs| => QueryAttributeSlug(attrs[i].0, attrs[i].1))
  }

  /** The slugs `inCategories` looks up, one per path. */
  function CategoryQuerySlugs(paths: seq<string>): (r: seq<string>)
    ensures |r| == |paths|
  {
    seq(|paths|, i requires 0 <= i < |paths| => QueryCategorySlug(paths[i]))
  }

  // ---------------------------------------------------------------------
  // Conditions

  /** One `andWhere` or `relatedTo` condition of `beforePrepare`. */
  datatype Condition =
    | SkuIs(sku: string)
    | PriceIs(criterion: Criterion)
    | StockIs(criterion: Criterion)
    | InStockCondition
    | OutOfStockCondition
    | TrackStockIs(track: bool)
    | AllowBackorderIs(allow: bool)
    | StatusIs(status: string)
    | RelatedToAny(tags: seq<TagId>)
    | RelatedToNone(tags: seq<TagId>)
    | RelatedToAll(tags: seq<TagId>)

  /** SQL semantics: a comparison with a null column is not true. */
  predicate Holds(c: Condition, db: Db, p: Product) {
    match c
    case SkuIs(s) => p.sku == s
    case PriceIs(cr) => Satisfies(cr, p.price)
    case StockIs(cr) => p.stock.Some? && Satisfies(cr, p.stock.value)
    case InStockCondition => !p.trackStock || (p.stock.Some? && p.stock.value > 0) || p.allowBackorder
    case OutOfStockCondition => p.trackStock && p.stock.Some? && p.stock.value <= 0 && !p.allowBackorder
    case TrackStockIs(b) => p.trackStock == b
    case AllowBackorderIs(b) => p.allowBackorder == b
    case StatusIs(s) => p.status == s
    case RelatedToAny(ts) => exists i :: 0 <= i < |ts| && Related(db, p.id, ts[i])
    case RelatedToNone(ts) => forall i :: 0 <= i < |ts| ==> !Related(db, p.id, ts[i])
    case RelatedToAll(ts) => forall i :: 0 <= i < |ts| ==> Related(db, p.id, ts[i])
  }

  predicate AllHold(cs: seq<Condition>, db: Db, p: Product) {
    forall i :: 0 <= i < |cs| ==> Holds(cs[i], db, p)
  }

  function When(b: bool, c: Condition): seq<Condition> {
    if b then [c] else []
  }

  /** The column conditions, in the order `beforePrepare` adds them. */
  function ScalarConditions(f: Filters): seq<Condition> {
    ValueConditions(f) + StockConditions(f)
  }

  /** The `sku`, `price` and `stock` conditions. */
  function ValueConditions(f: Filters): seq<Condition> {
    When(f.sku.Some?, SkuIs(f.sku.GetOr([])))
    + When(f.price.Some?, PriceIs(f.price.GetOr(Exactly(0))))
    + When(f.stock.Some?, StockIs(f.stock.GetOr(Exactly(0))))
  }

  /** The `inStock`, `trackStock`, `allowBackorder` and `status` conditions. */
  function StockConditions(f: Filters): seq<Condition> {
    When(f.inStock.Some?, if f.inStock == Some(true) then InStockCondition else OutOfStockCondition)
    + When(f.trackStock.Some?, TrackStockIs(f.trackStock == Some(true)))
    + When(f.allowBackorder.Some?, AllowBackorderIs(f.allowBackorder == Some(true)))
    + When(f.status.Some?, StatusIs(f.status.GetOr([])))
  }

  /** The `isMainProduct` and `isVariant` conditions: none at all when no `parent-*` tag exists. */
  function HierarchyConditions(f: Filters, db: Db): seq<Condition> {
    var pts := ParentTags(db.tagKeys);
    When(f.isMainProduct.Some? && pts != [], if f.isMainProduct == Some(true) then RelatedToNone(pts) else RelatedToAny(pts))
    + When(f.isVariant.Some? && pts != [], if f.isVariant == Some(true) then RelatedToAny(pts) else RelatedToNone(pts))
  }

  /** The `parentSku`, `hasAttributes` and `inCategories` conditions; tags that do not exist are dropped. */
  function TagConditions(f: Filters, db: Db): seq<Condition> {
    var parentTag := ParentSkuTag(f, db);
    var attrTags := FoundTags(db, Attributes, AttributeQuerySlugs(f.hasAttributes.GetOr([])));
    var catTags := FoundTags(db, Categories, CategoryQuerySlugs(f.inCategories.GetOr([])));
    When(parentTag.Some?, RelatedToAny([parentTag.GetOr(0)]))
    + When(f.hasAttributes.Some? && attrTags != [], RelatedToAll(attrTags))
    + When(f.inCategories.Some? && catTags != [], RelatedToAny(catTags))
  }

  /** The hierarchy tag `parent-<parentSku>`, when the filter is set and the tag exists. */
  function ParentSkuTag(f: Filters, db: Db): Option<TagId> {
    match f.parentSku
    case None => None
    case Some(ps) => FindTag(db, (Hierarchy, ParentSlug(ps)))
  }

  /** Every condition of `beforePrepare`; `hasRating` and `minRating` add none. */
  function Conditions(f: Filters, db: Db): seq<Condition> {
    ScalarConditions(f) + HierarchyConditions(f, db) + TagConditions(f, db)
  }

  // ---------------------------------------------------------------------
  // What the criteria admit

  /** The product is related to some `parent-*` hierarchy tag. */
  predicate HasParentRelation(db: Db, pid: ProductId) {
    exists i :: 0 <= i < |db.relations| && db.relations[i].product == pid && IsParentTag(db.tagKeys, db.relations[i].tag)
  }

  predicate AnyParentTag(keys: seq<TagKey>) {
    exists t :: 0 <= t < |keys| && IsParentTag(keys, t)
  }

  /** Some slug names an existing tag of group `g`. */
  predicate AnyFound(db: Db, g: Group, slugs: seq<string>) {
    exists i :: 0 <= i < |slugs| && FindTag(db, (g, slugs[i])).Some?
  }

  /** What the column filters admit; a null stock satisfies no stock comparison. */
  predicate ColumnsMatch(f: Filters, p: Product) {
    ValuesMatch(f, p) && StockFlagsMatch(f, p)
  }

  predicate ValuesMatch(f: Filters, p: Product) {
    && (f.sku.Some? ==> p.sku == f.sku.value)
    && (f.price.Some? ==> Satisfies(f.price.value, p.price))
    && (f.stock.Some? ==> p.stock.Some? && Satisfies(f.stock.value, p.stock.value))
  }

  predicate StockFlagsMatch(f: Filters, p: Product) {
    && (f.inStock == Some(true) ==> IsInStock(p))
    && (f.inStock == Some(false) ==> p.trackStock && p.stock.Some? && p.stock.value <= 0 && !p.allowBackorder)
    && (f.trackStock.Some? ==> p.trackStock == f.trackStock.value)
    && (f.allowBackorder.Some? ==> p.allowBackorder == f.allowBackorder.value)
    && (f.status.Some? ==> p.status == f.status.value)
  }

  /** What `isMainProduct` and `isVariant` admit: everything while no `parent-*` tag exists. */
  predicate HierarchyMatch(f: Filters, db: Db, p: Product) {
    && (f.isMainProduct.Some? && AnyParentTag(db.tagKeys) ==>
          (f.isMainProduct.value <==> !HasParentRelation(db, p.id)))
    && (f.isVariant.Some? && AnyParentTag(db.tagKeys) ==>
          (f.isVariant.value <==> HasParentRelation(db, p.id)))
  }

  /** What the tag filters admit; a filter none of whose tags exist admits everything. */
  predicate TagFiltersMatch(f: Filters, db: Db, p: Product) {
    && (f.parentSku.Some? && FindTag(db, (Hierarchy, ParentSlug(f.parentSku.value))).Some? ==>
          Related(db, p.id, FindTag(db, (Hierarchy, ParentSlug(f.parentSku.value))).value))
    && (f.hasAttributes.Some? ==> AllFoundRelated(db, p.id, Attributes, AttributeQuerySlugs(f.hasAttributes.value)))
    && (f.inCategories.Some? && AnyFound(db, Categories, CategoryQuerySlugs(f.inCategories.value)) ==>
          SomeFoundRelated(db, p.id, Categories, CategoryQuerySlugs(f.inCategories.value)))
  }

  /**
   * The products a set of criteria admits, filter by filter: each set
   * filter restricts, an unset one does not; a tag filter whose tags do not
   * exist does not restrict either.
   */
  predicate Matches(f: Filters, db: Db, p: Product) {
    ColumnsMatch(f, p) && HierarchyMatch(f, db, p) && TagFiltersMatch(f, db, p)
  }

  /** Every slug that names a tag names one related to the product. */
  predicate AllFoundRelated(db: Db, pid: ProductId, g: Group, slugs: seq<string>) {
    forall i :: 0 <= i < |slugs| && FindTag(db, (g, slugs[i])).Some? ==> Related(db, pid, FindTag(db, (g, slugs[i])).value)
  }

  /** Some slug names a tag related to the product. */
  predicate SomeFoundRelated(db: Db, pid: ProductId, g: Group, slugs: seq<string>) {
    exists i :: 0 <= i < |slugs| && FindTag(db, (g, slugs[i])).Some? && Related(db, pid, FindTag(db, (g, slugs[i])).value)
  }

  // ---------------------------------------------------------------------
  // Taxonomy setters and sorting

  const MythologyPrefix: string := "mythology-"
  const EntityPrefix: string := "entity-"
  const ProductTypePrefix: string := "producttype-"

  /** The slugs `mythology` and `entity` look up: the group's prefix before each value. */
  function TaxonomySlugs(prefix: string, values: seq<string>): (r: seq<string>)
    ensures |r| == |values|
  {
    seq(|values|, i requires 0 <= i < |values| => prefix + values[i])
  }

  /** The one `relatedTo` a taxonomy setter adds: any of the tags found, or nothing when none is found. */
  function TaxonomyCondition(db: Db, g: Group, slugs: seq<string>): seq<Condition> {
    var ts := FoundTags(db, g, slugs);
    When(ts != [], RelatedToAny(ts))
  }

  /** An `orderBy` of one column; `descending` is `SORT_DESC`. */
  datatype Order = Order(column: string, descending: bool)

  const PriceColumn: string := "stormtaleshop_products.price"
  const StockColumn: string := "stormtaleshop_products.stock"
  const SkuColumn: string := "stormtaleshop_products.sku"
  /** `orderByRating` sorts by element id until ratings exist. */
  const RatingColumn: string := "elements.id"

  /** The sort setters' direction: only the exact string `DESC` sorts descending. */
  function SortOrder(column: string, direction: string): (r: Order)
    ensures r.column == column
    ensures r.descending <==> direction == "DESC"
  {
    Order(column, direction == "DESC")
  }

  // ---------------------------------------------------------------------
  // The builder

  class ProductQuery {
    var sku: Option<string>
    var price: Option<Criterion>
    var stock: Option<Criterion>
    var inStock: Option<bool>
    var trackStock: Option<bool>
    var allowBackorder: Option<bool>
    var status: Option<string>
    var isMainProduct: Option<bool>
    var isVariant: Option<bool>
    var parentSku: Option<string>
    var hasAttributes: Option<Assoc<string>>
    var inCategories: Option<seq<string>>
    var hasRating: Option<bool>
    var minRating: Option<int>
    /** The `relatedTo` conditions `mythology`, `entity` and `productType` add as they are called, in call order. */
    var related: seq<Condition>
    /** The `orderBy` the sort setters write; `None` leaves the element query's default order. */
    var order: Option<Order>

    /** The recorded criteria. */
    function Criteria(): Filters
      reads this
    {
      Filters(sku, price, stock, inStock, trackStock, allowBackorder, status,
              isMainProduct, isVariant, parentSku, hasAttributes, inCategories, hasRating, minRating)
    }

    constructor ()
      ensures Criteria() == NoFilters && related == [] && order == None
    {
      related, order := [], None;
      sku, price, stock, inStock, trackStock, allowBackorder, status := None, None, None, None, None, None, None;
      isMainProduct, isVariant, parentSku, hasAttributes, inCategories, hasRating, minRating := None, None, None, None, None, None, None;
    }

    method Sku(value: string) returns (self: ProductQuery)
      modifies this
      ensures self == this && Criteria() == old(Criteria()).(sku := Some(value))
      ensures related == old(related) && order == old(order)
    {
      sku := Some(value);
      self := this;
    }

    method Price(value: Criterion) returns (self: ProductQuery)
      modifies this
      ensures self == this && Criteria() == old(Criteria()).(price := Some(value))
      ensures related == old(related) && order == old(order)
    {
      price := Some(value);
      self := this;
    }

    /** `minPrice`, `maxPrice` and `priceRange` overwrite the one price criterion: the last call wins. */
    method MinPrice(value: int) returns (self: ProductQuery)
      modifies this
      ensures self == this && Criteria() == old(Criteria()).(price := Some(AtLeast(value)))
      ensures related == old(related) && order == old(order)
    {
      price := Some(AtLeast(value));
      self := this;
    }

    method MaxPrice(value: int) returns (self: ProductQuery)
      modifies this
      ensures self == this && Criteria() == old(Criteria()).(price := Some(AtMost(value)))
      ensures related == old(related) && order == old(order)
    {
      price := Some(AtMost(value));
      self := this;
    }

    method PriceRange(min: int, max: int) returns (self: ProductQuery)
      modifies this
      ensures self == this && Criteria() == old(Criteria()).(price := Some(Between(min, max)))
      ensures related == old(related) && order == old(order)
    {
      price := Some(Between(min, max));
      self := this;
    }

    method Stock(value: Criterion) returns (self: ProductQuery)
      modifies this
      ensures self == this && Criteria() == old(Criteria()).(stock := Some(value))
      ensures related == old(related) && order == old(order)
    {
      stock := Some(value);
      self := this;
    }

    method InStock(value: bool) returns (self: ProductQuery)
      modifies this
      ensures self == this && Criteria() == old(Criteria()).(inStock := Some(value))
      ensures related == old(related) && order == old(order)
    {
      inStock := Some(value);
      self := this;
    }

    method TrackStock(value: bool) returns (self: ProductQuery)
      modifies this
      ensures self == this && Criteria() == old(Criteria()).(trackStock := Some(value))
      ensures related == old(related) && order == old(order)
    {
      trackStock := Some(value);
      self := this;
    }

    method AllowBackorder(value: bool) returns (self: ProductQuery)
      modifies this
      ensures self == this && Criteria() == old(Criteria()).(allowBackorder := Some(value))
      ensures related == old(related) && order == old(order)
    {
      allowBackorder := Some(value);
      self := this;
    }

    method Status(value: string) returns (self: ProductQuery)
      modifies this
      ensures self == this && Criteria() == old(Criteria()).(status := Some(value))
      ensures related == old(related) && order == old(order)
    {
      status := Some(value);
      self := this;
    }

    method IsMainProduct(value: bool) returns (self: ProductQuery)
      modifies this
      ensures self == this && Criteria() == old(Criteria()).(isMainProduct := Some(value))
      ensures related == old(related) && order == old(order)
    {
      isMainProduct := Some(value);
      self := this;
    }

    method IsVariant(value: bool) returns (self: ProductQuery)
      modifies this
      ensures self == this && Criteria() == old(Criteria()).(isVariant := Some(value))
      ensures related == old(related) && order == old(order)
    {
      isVariant := Some(value);
      self := this;
    }

    method ParentSku(value: string) returns (self: ProductQuery)
      modifies this
      ensures self == this && Criteria() == old(Criteria()).(parentSku := Some(value))
      ensures related == old(related) && order == old(order)
    {
      parentSku := Some(value);
      self := this;
    }

    method HasAttributes(attrs: Assoc<string>) returns (self: ProductQuery)
      modifies this
      ensures self == this && Criteria() == old(Criteria()).(hasAttributes := Some(attrs))
      ensures related == old(related) && order == old(order)
    {
      hasAttributes := Some(attrs);
      self := this;
    }

    method InCategories(paths: seq<string>) returns (self: ProductQuery)
      modifies this
      ensures self == this && Criteria() == old(Criteria()).(inCategories := Some(paths))
      ensures related == old(related) && order == old(order)
    {
      inCategories := Some(paths);
      self := this;
    }

    method HasRating(value: bool) returns (self: ProductQuery)
      modifies this
      ensures self == this && Criteria() == old(Criteria()).(hasRating := Some(value))
      ensures related == old(related) && order == old(order)
    {
      hasRating := Some(value);
      self := this;
    }

    method MinRating(value: int) returns (self: ProductQuery)
      modifies this
      ensures self == this && Criteria() == old(Criteria()).(minRating := Some(value))
      ensures related == old(related) && order == old(order)
    {
      minRating := Some(value);
      self := this;
    }

    /** `mythology`: the `mythology` tags of the values, one `relatedTo` when any exists. */
    method Mythology(store: Store, values: seq<string>) returns (self: ProductQuery)
      modifies this
      ensures self == this && Criteria() == old(Criteria()) && order == old(order)
      ensures related == old(related) + TaxonomyCondition(store.View(), Group.Mythology, TaxonomySlugs(MythologyPrefix, values))
    {
      var conds := TaxonomyPart(store, Group.Mythology, TaxonomySlugs(MythologyPrefix, values));
      related := related + conds;
      self := this;
    }

    /** `entity`: the same over the `entity` group. */
    method Entity(store: Store, values: seq<string>) returns (self: ProductQuery)
      modifies this
      ensures self == this && Criteria() == old(Criteria()) && order == old(order)
      ensures related == old(related) + TaxonomyCondition(store.View(), Group.Entity, TaxonomySlugs(EntityPrefix, values))
    {
      var conds := TaxonomyPart(store, Group.Entity, TaxonomySlugs(EntityPrefix, values));
      related := related + conds;
      self := this;
    }

    /** `productType`: one value, related to its `producttype` tag when that exists. */
    method ProductType(store: Store, value: string) returns (self: ProductQuery)
      modifies this
      ensures self == this && Criteria() == old(Criteria()) && order == old(order)
      ensures related == old(related) + TaxonomyCondition(store.View(), Group.ProductType, [ProductTypePrefix + value])
    {
      var slugs := [ProductTypePrefix + value];
      assert slugs[..0] == [];
      var tag := FindTag(store.View(), (Group.ProductType, ProductTypePrefix + value));
      assert FoundTags(store.View(), Group.ProductType, slugs) == if tag.Some? then [tag.value] else [];
      if tag.Some? {
        related := related + [RelatedToAny([tag.value])];
      }
      self := this;
    }

    method OrderByPrice(direction: string := "ASC") returns (self: ProductQuery)
      modifies this
      ensures self == this && Criteria() == old(Criteria()) && related == old(related)
      ensures order == Some(SortOrder(PriceColumn, direction))
    {
      order := Some(Order(PriceColumn, direction == "DESC"));
      self := this;
    }

    method OrderByStock(direction: string := "DESC") returns (self: ProductQuery)
      modifies this
      ensures self == this && Criteria() == old(Criteria()) && related == old(related)
      ensures order == Some(SortOrder(StockColumn, direction))
    {
      order := Some(Order(StockColumn, direction == "DESC"));
      self := this;
    }

    method OrderBySku(direction: string := "ASC") returns (self: ProductQuery)
      modifies this
      ensures self == this && Criteria() == old(Criteria()) && related == old(related)
      ensures order == Some(SortOrder(SkuColumn, direction))
    {
      order := Some(Order(SkuColumn, direction == "DESC"));
      self := this;
    }

    method OrderByRating(direction: string := "DESC") returns (self: ProductQuery)
      modifies this
      ensures self == this && Criteria() == old(Criteria()) && related == old(related)
      ensures order == Some(SortOrder(RatingColumn, direction))
    {
      order := Some(Order(RatingColumn, direction == "DESC"));
      self := this;
    }

    /** The loop of `mythology` and `entity`: look the slugs up, relate to any tag found. */
    static method TaxonomyPart(store: Store, g: Group, slugs: seq<string>) returns (conds: seq<Condition>)
      ensures conds == TaxonomyCondition(store.View(), g, slugs)
    {
      var ts := LookUpTags(store, g, slugs);
      conds := [];
      if ts != [] {
        conds := [RelatedToAny(ts)];
      }
    }

    /** The `foreach` of `hasAttributes` and `inCategories`: look each slug up, keep the tags found. */
    static method LookUpTags(store: Store, g: Group, slugs: seq<string>) returns (ts: seq<TagId>)
      ensures ts == FoundTags(store.View(), g, slugs)
    {
      ts := [];
      for i := 0 to |slugs|
        invariant ts == FoundTags(store.View(), g, slugs[..i])
      {
        assert slugs[..i + 1][..i] == slugs[..i];
        var found := FindTag(store.View(), (g, slugs[i]));
        if found.Some? {
          ts := ts + [found.value];
        }
      }
      assert slugs[..|slugs|] == slugs;
    }

    /** The `sku`, `price` and `stock` filters of `beforePrepare`, each one `andWhere`. */
    static method ValuePart(f: Filters) returns (conds: seq<Condition>)
      ensures conds == ValueConditions(f)
    {
      conds := [];
      if f.sku.Some? { conds := conds + [SkuIs(f.sku.value)]; }
      assert conds == When(f.sku.Some?, SkuIs(f.sku.GetOr([])));
      ghost var done := conds;
      if f.price.Some? { conds := conds + [PriceIs(f.price.value)]; }
      assert conds == done + When(f.price.Some?, PriceIs(f.price.GetOr(Exactly(0))));
      done := conds;
      if f.stock.Some? { conds := conds + [StockIs(f.stock.value)]; }
      assert conds == done + When(f.stock.Some?, StockIs(f.stock.GetOr(Exactly(0))));
    }

    /** The `inStock`, `trackStock`, `allowBackorder` and `status` filters, each one `andWhere`. */
    static method StockPart(f: Filters) returns (conds: seq<Condition>)
      ensures conds == StockConditions(f)
    {
      conds := [];
      if f.inStock.Some? {
        conds := conds + [if f.inStock.value then InStockCondition else OutOfStockCondition];
      }
      assert conds == When(f.inStock.Some?, if f.inStock == Some(true) then InStockCondition else OutOfStockCondition);
      ghost var done := conds;
      if f.trackStock.Some? { conds := conds + [TrackStockIs(f.trackStock.value)]; }
      assert conds == done + When(f.trackStock.Some?, TrackStockIs(f.trackStock == Some(true)));
      done := conds;
      if f.allowBackorder.Some? { conds := conds + [AllowBackorderIs(f.allowBackorder.value)]; }
      assert conds == done + When(f.allowBackorder.Some?, AllowBackorderIs(f.allowBackorder == Some(true)));
      done := conds;
      if f.status.Some? { conds := conds + [StatusIs(f.status.value)]; }
      assert conds == done + When(f.status.Some?, StatusIs(f.status.GetOr([])));
    }

    /** The `isMainProduct` and `isVariant` filters, each skipped when no `parent-*` tag exists. */
    static method HierarchyPart(f: Filters, store: Store) returns (conds: seq<Condition>)
      ensures conds == HierarchyConditions(f, store.View())
    {
      conds := [];
      if f.isMainProduct.Some? {
        var pts := ParentTags(store.tagKeys);
        if pts != [] {
          conds := conds + [if f.isMainProduct.value then RelatedToNone(pts) else RelatedToAny(pts)];
        }
      }
      if f.isVariant.Some? {
        var pts := ParentTags(store.tagKeys);
        if pts != [] {
          conds := conds + [if f.isVariant.value then RelatedToAny(pts) else RelatedToNone(pts)];
        }
      }
    }

    /** The `parentSku`, `hasAttributes` and `inCategories` filters. */
    static method TagPart(f: Filters, store: Store) returns (conds: seq<Condition>)
      ensures conds == TagConditions(f, store.View())
    {
      ghost var db := store.View();
      conds := [];
      if f.parentSku.Some? {
        var parentTag := FindTag(store.View(), (Hierarchy, ParentSlug(f.parentSku.value)));
        if parentTag.Some? {
          conds := conds + [RelatedToAny([parentTag.value])];
        }
      }
      assert conds == When(ParentSkuTag(f, db).Some?, RelatedToAny([ParentSkuTag(f, db).GetOr(0)]));
      ghost var done := conds;
      var attrTags := LookUpTags(store, Attributes, AttributeQuerySlugs(f.hasAttributes.GetOr([])));
      if f.hasAttributes.Some? && attrTags != [] {
        conds := conds + [RelatedToAll(attrTags)];
      }
      assert conds == done + When(f.hasAttributes.Some? && attrTags != [], RelatedToAll(attrTags));
      done := conds;
      var catTags := LookUpTags(store, Categories, CategoryQuerySlugs(f.inCategories.GetOr([])));
      if f.inCategories.Some? && catTags != [] {
        conds := conds + [RelatedToAny(catTags)];
      }
      assert conds == done + When(f.inCategories.Some? && catTags != [], RelatedToAny(catTags));
    }

    /** `beforePrepare`: the conditions the recorded criteria add, in order; the rating filters add none. */
    method BeforePrepare(store: Store) returns (conds: seq<Condition>)
      ensures conds == Conditions(Criteria(), store.View())
    {
      var values := ValuePart(Criteria());
      var stockFlags := StockPart(Criteria());
      var hierarchy := HierarchyPart(Criteria(), store);
      var tagged := TagPart(Criteria(), store);
      conds := values + stockFlags + hierarchy + tagged;
    }
  }

  // ---------------------------------------------------------------------
  // Lemmas

  lemma AllHoldAppend(a: seq<Condition>, b: seq<Condition>, db: Db, p: Product)
    ensures AllHold(a + b, db, p) <==> AllHold(a, db, p) && AllHold(b, db, p)
  {
    if AllHold(a, db, p) && AllHold(b, db, p) {
      forall i | 0 <= i < |a + b| ensures Holds((a + b)[i], db, p) {
        if i >= |a| { assert (a + b)[i] == b[i - |a|]; }
      }
    }
    if AllHold(a + b, db, p) {
      forall i | 0 <= i < |a| ensures Holds(a[i], db, p) {
        assert (a + b)[i] == a[i];
      }
      forall i | 0 <= i < |b| ensures Holds(b[i], db, p) {
        assert (a + b)[|a| + i] == b[i];
      }
    }
  }

  lemma AllHoldWhen(b: bool, c: Condition, db: Db, p: Product)
    ensures AllHold(When(b, c), db, p) <==> (b ==> Holds(c, db, p))
  {
    if b { assert When(b, c)[0] == c; }
  }

  /** `ParentTags` lists exactly the `parent-*` hierarchy tags. */
  lemma {:induction false} ParentTagsMembers(keys: seq<TagKey>, t: TagId)
    ensures t in ParentTags(keys) <==> IsParentTag(keys, t)
    decreases |keys|
  {
    if keys != [] {
      var n := |keys| - 1;
      ParentTagsMembers(keys[..n], t);
      if t < n { assert keys[..n][t] == keys[t]; }
    }
  }

  /** `FoundTags` lists exactly the tags some slug names. */
  lemma {:induction false} FoundTagsMembers(db: Db, g: Group, slugs: seq<string>, t: TagId)
    ensures t in FoundTags(db, g, slugs) <==> exists i :: 0 <= i < |slugs| && FindTag(db, (g, slugs[i])) == Some(t)
    decreases |slugs|
  {
    if slugs != [] {
      var n := |slugs| - 1;
      FoundTagsMembers(db, g, slugs[..n], t);
      if exists i :: 0 <= i < |slugs| && FindTag(db, (g, slugs[i])) == Some(t) {
        var i :| 0 <= i < |slugs| && FindTag(db, (g, slugs[i])) == Some(t);
        if i < n { assert slugs[..n][i] == slugs[i]; }
      }
      if exists i :: 0 <= i < n && FindTag(db, (g, slugs[..n][i])) == Some(t) {
        var i :| 0 <= i < n && FindTag(db, (g, slugs[..n][i])) == Some(t);
        assert slugs[..n][i] == slugs[i];
      }
    }
  }

  lemma RelatedToAnyParent(db: Db, p: Product)
    ensures Holds(RelatedToAny(ParentTags(db.tagKeys)), db, p) <==> HasParentRelation(db, p.id)
    ensures ParentTags(db.tagKeys) != [] <==> AnyParentTag(db.tagKeys)
  {
    var pts := ParentTags(db.tagKeys);
    if Holds(RelatedToAny(pts), db, p) {
      var i :| 0 <= i < |pts| && Related(db, p.id, pts[i]);
      ParentTagsMembers(db.tagKeys, pts[i]);
      var j :| 0 <= j < |db.relations| && db.relations[j] == Relation(p.id, pts[i]);
    }
    if HasParentRelation(db, p.id) {
      var j :| 0 <= j < |db.relations| && db.relations[j].product == p.id && IsParentTag(db.tagKeys, db.relations[j].tag);
      var t := db.relations[j].tag;
      ParentTagsMembers(db.tagKeys, t);
      var i :| 0 <= i < |pts| && pts[i] == t;
      assert Related(db, p.id, pts[i]);
    }
    if pts != [] {
      ParentTagsMembers(db.tagKeys, pts[0]);
    }
    if AnyParentTag(db.tagKeys) {
      var t :| 0 <= t < |db.tagKeys| && IsParentTag(db.tagKeys, t);
      ParentTagsMembers(db.tagKeys, t);
    }
  }

  lemma HierarchyConditionsMatch(f: Filters, db: Db, p: Product)
    ensures AllHold(HierarchyConditions(f, db), db, p) <==> HierarchyMatch(f, db, p)
  {
    RelatedToAnyParent(db, p);
    var pts := ParentTags(db.tagKeys);
    assert Holds(RelatedToNone(pts), db, p) <==> !Holds(RelatedToAny(pts), db, p);
    var main := if f.isMainProduct == Some(true) then RelatedToNone(pts) else RelatedToAny(pts);
    var variant := if f.isVariant == Some(true) then RelatedToAny(pts) else RelatedToNone(pts);
    AllHoldAppend(When(f.isMainProduct.Some? && pts != [], main), When(f.isVariant.Some? && pts != [], variant), db, p);
    AllHoldWhen(f.isMainProduct.Some? && pts != [], main, db, p);
    AllHoldWhen(f.isVariant.Some? && pts != [], variant, db, p);
  }

  lemma FoundAllMatch(db: Db, p: Product, g: Group, slugs: seq<string>)
    ensures var ts := FoundTags(db, g, slugs);
      (ts == [] || Holds(RelatedToAll(ts), db, p)) <==> AllFoundRelated(db, p.id, g, slugs)
  {
    var ts := FoundTags(db, g, slugs);
    if ts == [] || Holds(RelatedToAll(ts), db, p) {
      forall i | 0 <= i < |slugs| && FindTag(db, (g, slugs[i])).Some?
        ensures Related(db, p.id, FindTag(db, (g, slugs[i])).value)
      {
        FoundTagsMembers(db, g, slugs, FindTag(db, (g, slugs[i])).value);
      }
    }
    if AllFoundRelated(db, p.id, g, slugs) {
      forall k | 0 <= k < |ts| ensures Related(db, p.id, ts[k]) {
        FoundTagsMembers(db, g, slugs, ts[k]);
      }
    }
  }

  lemma FoundAnyMatch(db: Db, p: Product, g: Group, slugs: seq<string>)
    ensures var ts := FoundTags(db, g, slugs);
      && (ts != [] <==> AnyFound(db, g, slugs))
      && (Holds(RelatedToAny(ts), db, p) <==> SomeFoundRelated(db, p.id, g, slugs))
  {
    var ts := FoundTags(db, g, slugs);
    if ts != [] {
      FoundTagsMembers(db, g, slugs, ts[0]);
    }
    if AnyFound(db, g, slugs) {
      var i :| 0 <= i < |slugs| && FindTag(db, (g, slugs[i])).Some?;
      FoundTagsMembers(db, g, slugs, FindTag(db, (g, slugs[i])).value);
    }
    if Holds(RelatedToAny(ts), db, p) {
      var k :| 0 <= k < |ts| && Related(db, p.id, ts[k]);
      FoundTagsMembers(db, g, slugs, ts[k]);
    }
    if SomeFoundRelated(db, p.id, g, slugs) {
      var i :| 0 <= i < |slugs| && FindTag(db, (g, slugs[i])).Some? && Related(db, p.id, FindTag(db, (g, slugs[i])).value);
      FoundTagsMembers(db, g, slugs, FindTag(db, (g, slugs[i])).value);
      var k :| 0 <= k < |ts| && ts[k] == FindTag(db, (g, slugs[i])).value;
    }
  }

  lemma TagConditionsMatch(f: Filters, db: Db, p: Product)
    ensures AllHold(TagConditions(f, db), db, p) <==> TagFiltersMatch(f, db, p)
  {
    var parentTag := ParentSkuTag(f, db);
    var attrSlugs := AttributeQuerySlugs(f.hasAttributes.GetOr([]));
    var catSlugs := CategoryQuerySlugs(f.inCategories.GetOr([]));
    var attrTags := FoundTags(db, Attributes, attrSlugs);
    var catTags := FoundTags(db, Categories, catSlugs);
    var a := When(parentTag.Some?, RelatedToAny([parentTag.GetOr(0)]));
    var b := When(f.hasAttributes.Some? && attrTags != [], RelatedToAll(attrTags));
    var c := When(f.inCategories.Some? && catTags != [], RelatedToAny(catTags));
    AllHoldAppend(a + b, c, db, p);
    AllHoldAppend(a, b, db, p);
    AllHoldWhen(parentTag.Some?, RelatedToAny([parentTag.GetOr(0)]), db, p);
    AllHoldWhen(f.hasAttributes.Some? && attrTags != [], RelatedToAll(attrTags), db, p);
    AllHoldWhen(f.inCategories.Some? && catTags != [], RelatedToAny(catTags), db, p);
    FoundAllMatch(db, p, Attributes, attrSlugs);
    FoundAnyMatch(db, p, Categories, catSlugs);
    if parentTag.Some? {
      assert Holds(RelatedToAny([parentTag.value]), db, p) <==> Related(db, p.id, parentTag.value) by {
        assert [parentTag.value][0] == parentTag.value;
      }
    }
  }

  lemma ValueConditionsMatch(f: Filters, p: Product, db: Db)
    ensures AllHold(ValueConditions(f), db, p) <==> ValuesMatch(f, p)
  {
    var c1 := When(f.sku.Some?, SkuIs(f.sku.GetOr([])));
    var c2 := When(f.price.Some?, PriceIs(f.price.GetOr(Exactly(0))));
    var c3 := When(f.stock.Some?, StockIs(f.stock.GetOr(Exactly(0))));
    AllHoldWhen(f.sku.Some?, SkuIs(f.sku.GetOr([])), db, p);
    AllHoldWhen(f.price.Some?, PriceIs(f.price.GetOr(Exactly(0))), db, p);
    AllHoldWhen(f.stock.Some?, StockIs(f.stock.GetOr(Exactly(0))), db, p);
    AllHoldAppend(c1, c2, db, p);
    AllHoldAppend(c1 + c2, c3, db, p);
  }

  lemma StockConditionsMatch(f: Filters, p: Product, db: Db)
    ensures AllHold(StockConditions(f), db, p) <==> StockFlagsMatch(f, p)
  {
    var c4 := When(f.inStock.Some?, if f.inStock == Some(true) then InStockCondition else OutOfStockCondition);
    var c5 := When(f.trackStock.Some?, TrackStockIs(f.trackStock == Some(true)));
    var c6 := When(f.allowBackorder.Some?, AllowBackorderIs(f.allowBackorder == Some(true)));
    var c7 := When(f.status.Some?, StatusIs(f.status.GetOr([])));
    AllHoldWhen(f.inStock.Some?, if f.inStock == Some(true) then InStockCondition else OutOfStockCondition, db, p);
    AllHoldWhen(f.trackStock.Some?, TrackStockIs(f.trackStock == Some(true)), db, p);
    AllHoldWhen(f.allowBackorder.Some?, AllowBackorderIs(f.allowBackorder == Some(true)), db, p);
    AllHoldWhen(f.status.Some?, StatusIs(f.status.GetOr([])), db, p);
    AllHoldAppend(c4, c5, db, p);
    AllHoldAppend(c4 + c5, c6, db, p);
    AllHoldAppend(c4 + c5 + c6, c7, db, p);
    match f.inStock
    case None =>
    case Some(b) => assert c4[0] == if b then InStockCondition else OutOfStockCondition;
  }

  lemma ScalarConditionsMatch(f: Filters, p: Product, db: Db)
    ensures AllHold(ScalarConditions(f), db, p) <==> ColumnsMatch(f, p)
  {
    AllHoldAppend(ValueConditions(f), StockConditions(f), db, p);
    ValueConditionsMatch(f, p, db);
    StockConditionsMatch(f, p, db);
  }

  /** The conditions of `beforePrepare` admit exactly the products `Matches` describes. */
  lemma ConditionsMatch(f: Filters, db: Db, p: Product)
    ensures AllHold(Conditions(f, db), db, p) <==> Matches(f, db, p)
  {
    AllHoldAppend(ScalarConditions(f) + HierarchyConditions(f, db), TagConditions(f, db), db, p);
    AllHoldAppend(ScalarConditions(f), HierarchyConditions(f, db), db, p);
    ScalarConditionsMatch(f, p, db);
    HierarchyConditionsMatch(f, db, p);
    TagConditionsMatch(f, db, p);
  }

  /** A query with no criteria admits every product. */
  lemma NoFiltersMatchAll(db: Db, p: Product)
    ensures Conditions(NoFilters, db) == [] && Matches(NoFilters, db, p)
  {
  }

  /**
   * `inStock(true)` is `isInStock`; `inStock(false)` is its negation for a
   * product with a stock value; a null stock that is tracked without
   * backorders satisfies neither.
   */
  lemma InStockFilters(p: Product, db: Db)
    ensures Holds(InStockCondition, db, p) <==> IsInStock(p)
    ensures p.stock.Some? ==> (Holds(OutOfStockCondition, db, p) <==> !IsInStock(p))
    ensures p.stock.None? && p.trackStock && !p.allowBackorder ==>
      !Holds(InStockCondition, db, p) && !Holds(OutOfStockCondition, db, p)
  {
  }

  /** The first `parent-*` slug in a list exists exactly when some slug starts with `parent-`. */
  lemma {:induction false} FirstParentSlugSome(keys: seq<TagKey>, ts: seq<TagId>)
    ensures FirstParentSlug(keys, ts).Some? <==> exists i :: 0 <= i < |ts| && StartsWith(SlugOf(keys, ts[i]), ParentPrefix)
    decreases |ts|
  {
    if ts != [] {
      FirstParentSlugSome(keys, ts[1..]);
      if exists i :: 0 <= i < |ts| && StartsWith(SlugOf(keys, ts[i]), ParentPrefix) {
        var i :| 0 <= i < |ts| && StartsWith(SlugOf(keys, ts[i]), ParentPrefix);
        if i > 0 { assert ts[1..][i - 1] == ts[i]; }
      }
    }
  }

  /**
   * The `isVariant(true)` filter agrees with `isVariant` on the product: it
   * is related to a `parent-*` hierarchy tag exactly when `getParentSku`
   * finds a parent.
   */
  lemma VariantFilterAgrees(db: Db, pid: ProductId)
    requires WellFormed(db)
    ensures HasParentRelation(db, pid) <==> IsVariant(db, pid)
  {
    var ts := TagsOf(db, pid, Hierarchy);
    FirstParentSlugSome(db.tagKeys, ts);
    var first := FirstParentSlug(db.tagKeys, ts);
    assert first.Some? ==> ParentSkuOfSlug(first.value).Some? by {
      if first.Some? { FirstParentSlugIsParent(db.tagKeys, ts); }
    }
    if HasParentRelation(db, pid) {
      var j :| 0 <= j < |db.relations| && db.relations[j].product == pid && IsParentTag(db.tagKeys, db.relations[j].tag);
      var t := db.relations[j].tag;
      TagsInMembers(db.tagKeys, db.relations, pid, Hierarchy, t);
      var i :| 0 <= i < |ts| && ts[i] == t;
      assert StartsWith(SlugOf(db.tagKeys, ts[i]), ParentPrefix);
    }
    if IsVariant(db, pid) {
      var i :| 0 <= i < |ts| && StartsWith(SlugOf(db.tagKeys, ts[i]), ParentPrefix);
      TagsInMembers(db.tagKeys, db.relations, pid, Hierarchy, ts[i]);
      var j :| 0 <= j < |db.relations| && db.relations[j] == Relation(pid, ts[i]);
      assert IsParentTag(db.tagKeys, db.relations[j].tag);
    }
  }

  /** The first `parent-*` slug found does start with `parent-`. */
  lemma {:induction false} FirstParentSlugIsParent(keys: seq<TagKey>, ts: seq<TagId>)
    ensures FirstParentSlug(keys, ts).Some? ==> StartsWith(FirstParentSlug(keys, ts).value, ParentPrefix)
    decreases |ts|
  {
    if ts != [] { FirstParentSlugIsParent(keys, ts[1..]); }
  }

  /** `parentSku(P)`, when the tag `parent-P` exists, admits exactly the stored products `getVariants` of P lists. */
  lemma ParentSkuFilterAgrees(db: Db, parentSku: string, p: Product)
    requires p in db.products && FindTag(db, (Hierarchy, ParentSlug(parentSku))).Some?
    ensures Matches(NoFilters.(parentSku := Some(parentSku)), db, p) <==> p in Variants(db, parentSku)
  {
    VariantsMembers(db, parentSku, p);
  }

  /**
   * After `addToCategory(path)`, `inCategories([path])` admits the product,
   * provided the path's first segment is neither "" nor "0".
   */
  lemma CategoryQueryFindsAdded(db: Db, p: Product, path: string, variants: Option<seq<Product>>)
    requires Truthy(Explode(path, '/')[0])
    ensures Matches(NoFilters.(inCategories := Some([path])), AddToCategorySpec(db, p, path, variants).0, p)
  {
    var db' := AddToCategorySpec(db, p, path, variants).0;
    AddToCategoryRelates(db, p, path, variants);
    CategorySlugsAgree(path);
    var steps := CategoryStepSlugs(path);
    var slugs := CategoryQuerySlugs([path]);
    assert slugs[0] == steps[|steps| - 1];
    assert FindTag(db', (Categories, slugs[0])).Some?;
    assert SomeFoundRelated(db', p.id, Categories, slugs);
  }

  /**
   * `hasAttributes` looks slugs up without lower-casing the value, while
   * `addAttributeTagToProduct` lower-cases it: when none of the looked-up
   * slugs exists the filter adds no condition and admits every product.
   */
  lemma AttributeFilterWithoutTags(db: Db, attrs: Assoc<string>, p: Product)
    requires forall i :: 0 <= i < |attrs| ==> FindTag(db, (Attributes, QueryAttributeSlug(attrs[i].0, attrs[i].1))).None?
    ensures Conditions(NoFilters.(hasAttributes := Some(attrs)), db) == []
    ensures Matches(NoFilters.(hasAttributes := Some(attrs)), db, p)
  {
    var slugs := AttributeQuerySlugs(attrs);
    var ts := FoundTags(db, Attributes, slugs);
    if ts != [] {
      FoundTagsMembers(db, Attributes, slugs, ts[0]);
    }
  }

  /** A taxonomy setter adds a condition exactly when some value names a tag, and a product meets it exactly when it is related to one of them. */
  lemma TaxonomyConditionMatch(db: Db, p: Product, g: Group, slugs: seq<string>)
    ensures TaxonomyCondition(db, g, slugs) != [] <==> AnyFound(db, g, slugs)
    ensures AllHold(TaxonomyCondition(db, g, slugs), db, p) <==> (!AnyFound(db, g, slugs) || SomeFoundRelated(db, p.id, g, slugs))
  {
    var ts := FoundTags(db, g, slugs);
    AllHoldWhen(ts != [], RelatedToAny(ts), db, p);
    FoundAnyMatch(db, p, g, slugs);
  }
}
