/**
 * The data the product element lives on: product records keyed by id with a
 * unique SKU, tags keyed by (group, slug), and product-to-tag relations.
 * `Db` is a snapshot of that store as a value; the read-side queries of
 * src/elements/Product.php are functions of it; `Store` is the mutable store
 * whose methods are the host's find-or-create, relate, unrelate and
 * record-save primitives.
 */
module Catalog {
  import opened Wrappers
  import opened Text
  import opened Assoc
  import opened Tags

  type ProductId = nat
  type TagId = nat

  /** One entry of `priceTiers`. Prices are integer cents. */
  datatype Tier = Tier(minQuantity: int, price: int)

  /**
   * The product fields the core reads or writes. An unsaved product has id 0
   * (PHP `null`); a missing title is the empty string.
   */
  datatype Product = Product(
    id: ProductId,
    sku: string,
    title: string,
    description: Option<string>,
    price: int,
    comparePrice: Option<int>,
    weight: int,
    stock: Option<int>,
    trackStock: bool,
    allowBackorder: bool,
    status: string,
    customAttributes: Assoc<string>,
    priceTiers: seq<Tier>,
    isDigital: bool)

  /** A freshly constructed product: the property defaults of the element class. */
  const NewProduct: Product :=
    Product(0, "", "", None, 0, None, 0, None, true, false, "active", [], [], false)

  datatype Relation = Relation(product: ProductId, tag: TagId)

  /**
   * A snapshot of the store. A tag's id is its position in `tagKeys`;
   * `tagIndex` maps (group, slug) back to that id. Products and relations are
   * listed in the order they were created, which is the order every query
   * below returns them in. `nextId` is the id the next saved product gets.
   */
  datatype Db = Db(
    products: seq<Product>,
    tagIndex: map<TagKey, TagId>,
    tagKeys: seq<TagKey>,
    relations: seq<Relation>,
    nextId: ProductId)

  const EmptyDb: Db := Db([], map[], [], [], 1)

  /** Relations form a set: no pair is stored twice. */
  predicate DistinctRelations(rels: seq<Relation>) {
    forall i, j :: 0 <= i < j < |rels| ==> rels[i] != rels[j]
  }

  /** Referential integrity of a snapshot. */
  ghost predicate WellFormed(db: Db) {
    && (forall k :: k in db.tagIndex ==> db.tagIndex[k] < |db.tagKeys| && db.tagKeys[db.tagIndex[k]] == k)
    && (forall i :: 0 <= i < |db.tagKeys| ==> db.tagKeys[i] in db.tagIndex && db.tagIndex[db.tagKeys[i]] == i)
    && DistinctRelations(db.relations)
    && (forall i :: 0 <= i < |db.relations| ==> db.relations[i].tag < |db.tagKeys|)
    && (forall i, j :: 0 <= i < j < |db.products| ==>
          db.products[i].id != db.products[j].id && db.products[i].sku != db.products[j].sku)
    && db.nextId >= 1
    && (forall i :: 0 <= i < |db.products| ==> 1 <= db.products[i].id < db.nextId)
    && (forall i :: 0 <= i < |db.relations| ==> db.relations[i].product < db.nextId)
  }

  /** What every change of the store keeps: ids only grow and tags are only added. */
  predicate Grows(db: Db, db': Db) {
    db.nextId <= db'.nextId && |db.tagKeys| <= |db'.tagKeys|
    && forall i :: 0 <= i < |db.tagKeys| ==> db'.tagKeys[i] == db.tagKeys[i]
  }

  // ---------------------------------------------------------------------
  // Queries

  /** `Tag::find()->group($g)->slug($s)->one()`. */
  function FindTag(db: Db, key: TagKey): Option<TagId> {
    if key in db.tagIndex then Some(db.tagIndex[key]) else None
  }

  predicate InGroup(keys: seq<TagKey>, t: TagId, g: Group) {
    t < |keys| && keys[t].0 == g
  }

  function SlugOf(keys: seq<TagKey>, t: TagId): string {
    if t < |keys| then keys[t].1 else ""
  }

  predicate Related(db: Db, pid: ProductId, t: TagId) {
    Relation(pid, t) in db.relations
  }

  /** The tags of group `g` related to the product, in relation order. */
  function TagsIn(keys: seq<TagKey>, rels: seq<Relation>, pid: ProductId, g: Group): seq<TagId>
    decreases |rels|
  {
    if rels == [] then []
    else
      (if rels[0].product == pid && InGroup(keys, rels[0].tag, g) then [rels[0].tag] else [])
      + TagsIn(keys, rels[1..], pid, g)
  }

  /** `Tag::find()->relatedTo($product)->group($g)->all()`. */
  function TagsOf(db: Db, pid: ProductId, g: Group): seq<TagId> {
    TagsIn(db.tagKeys, db.relations, pid, g)
  }

  function ProductsIn(db: Db, ps: seq<Product>, t: TagId): seq<Product>
    decreases |ps|
  {
    if ps == [] then []
    else (if Related(db, ps[0].id, t) then [ps[0]] else []) + ProductsIn(db, ps[1..], t)
  }

  /** `Product::find()->relatedTo($tag)->all()`. */
  function ProductsRelatedTo(db: Db, t: TagId): seq<Product> {
    ProductsIn(db, db.products, t)
  }

  function FindSkuIn(ps: seq<Product>, sku: string): (r: Option<Product>)
    ensures r.Some? ==> r.value in ps && r.value.sku == sku
    ensures r.None? <==> forall i :: 0 <= i < |ps| ==> ps[i].sku != sku
  {
    if ps == [] then None else if ps[0].sku == sku then Some(ps[0]) else FindSkuIn(ps[1..], sku)
  }

  /** `Product::find()->sku($sku)->one()`. */
  function FindBySku(db: Db, sku: string): Option<Product> {
    FindSkuIn(db.products, sku)
  }

  predicate HasSku(db: Db, sku: string) {
    FindBySku(db, sku).Some?
  }

  predicate HasId(db: Db, id: ProductId) {
    exists i :: 0 <= i < |db.products| && db.products[i].id == id
  }

  function FirstParentSlug(keys: seq<TagKey>, ts: seq<TagId>): Option<string>
    decreases |ts|
  {
    if ts == [] then None
    else if StartsWith(SlugOf(keys, ts[0]), ParentPrefix) then Some(SlugOf(keys, ts[0]))
    else FirstParentSlug(keys, ts[1..])
  }

  /**
   * `getParentSku` with the prefix match it evidently intends: the first
   * hierarchy tag of the product whose slug starts with `parent-`, without
   * that prefix. `ParentSkuAsWritten` is the lookup as the code writes it.
   */
  function ParentSku(db: Db, pid: ProductId): Option<string> {
    match FirstParentSlug(db.tagKeys, TagsOf(db, pid, Hierarchy))
    case None => None
    case Some(slug) => ParentSkuOfSlug(slug)
  }

  /**
   * The pattern `getParentSku` matches as written: given as a plain value,
   * `['like', 'slug', 'parent-%']` has its `%` escaped and is wrapped in
   * `%...%`, so it matches the slugs that contain `parent-%`.
   */
  const EscapedParentPattern: string := ParentPrefix + "%"

  /** The first listed slug that contains `parent-%`. */
  function FirstLikeSlugAsWritten(keys: seq<TagKey>, ts: seq<TagId>): (r: Option<string>)
    ensures r.Some? ==> Contains(r.value, EscapedParentPattern)
    decreases |ts|
  {
    if ts == [] then None
    else if Contains(SlugOf(keys, ts[0]), EscapedParentPattern) then Some(SlugOf(keys, ts[0]))
    else FirstLikeSlugAsWritten(keys, ts[1..])
  }

  /**
   * `getParentSku` as written: the first hierarchy tag the escaped pattern
   * matches, decoded only if its slug starts with `parent-`.
   */
  function ParentSkuAsWritten(db: Db, pid: ProductId): Option<string> {
    match FirstLikeSlugAsWritten(db.tagKeys, TagsOf(db, pid, Hierarchy))
    case None => None
    case Some(slug) => ParentSkuOfSlug(slug)
  }

  /** `isMainProduct`: no parent SKU. */
  predicate IsMainProduct(db: Db, pid: ProductId) {
    ParentSku(db, pid).None?
  }

  /** `isVariant`: a parent SKU. */
  predicate IsVariant(db: Db, pid: ProductId) {
    ParentSku(db, pid).Some?
  }

  /**
   * `getParentProduct`: null for a main product, and null too when the parent
   * SKU is "" or "0" (PHP's `if ($parentSku)`), else the product with that SKU.
   */
  function ParentProduct(db: Db, p: Product): Option<Product> {
    if IsMainProduct(db, p.id) then None
    else
      var parentSku := ParentSku(db, p.id).value;
      if Truthy(parentSku) then FindBySku(db, parentSku) else None
  }

  /** `getVariants`: the products related to the hierarchy tag `parent-<sku>`, or none. */
  function Variants(db: Db, sku: string): seq<Product> {
    match FindTag(db, (Hierarchy, ParentSlug(sku)))
    case None => []
    case Some(t) => ProductsRelatedTo(db, t)
  }

  // ---------------------------------------------------------------------
  // State changes, as functions of the snapshot

  /** Adds the tag (group, slug) with the next free id. */
  function AddTag(db: Db, key: TagKey): Db {
    db.(tagIndex := db.tagIndex[key := |db.tagKeys|], tagKeys := db.tagKeys + [key])
  }

  /** Find-or-create: the existing tag, or a new one. */
  function FindOrCreateTag(db: Db, key: TagKey): (r: (Db, TagId)) {
    if key in db.tagIndex then (db, db.tagIndex[key]) else (AddTag(db, key), |db.tagKeys|)
  }

  /** `saveRelations($product, [$tag])`: relations form a set. */
  function Relate(db: Db, pid: ProductId, t: TagId): Db {
    if Relation(pid, t) in db.relations then db else db.(relations := db.relations + [Relation(pid, t)])
  }

  /** Find or create the tag `key` and relate it to the product. */
  function Attach(db: Db, pid: ProductId, key: TagKey): Db {
    var (db1, t) := FindOrCreateTag(db, key);
    Relate(db1, pid, t)
  }

  /** Relates every tag of `ts` to the product, in order. */
  function RelateAll(db: Db, pid: ProductId, ts: seq<TagId>): Db
    decreases |ts|
  {
    if ts == [] then db else Relate(RelateAll(db, pid, ts[..|ts| - 1]), pid, ts[|ts| - 1])
  }

  function Without(rels: seq<Relation>, r: Relation): (out: seq<Relation>)
    ensures forall x :: x in out <==> x in rels && x != r
    ensures forall i :: 0 <= i < |out| ==> out[i] in rels
    decreases |rels|
  {
    if rels == [] then [] else (if rels[0] == r then [] else [rels[0]]) + Without(rels[1..], r)
  }

  /** `deleteRelations($product, [$tag])`. */
  function Unrelate(db: Db, pid: ProductId, t: TagId): Db {
    db.(relations := Without(db.relations, Relation(pid, t)))
  }

  /** Saves a new record under the next id. */
  function Insert(db: Db, p: Product): Db {
    db.(products := db.products + [p.(id := db.nextId)], nextId := db.nextId + 1)
  }

  /** Replaces the record whose id is `p.id`. */
  function ReplaceRecord(ps: seq<Product>, p: Product): (out: seq<Product>)
    ensures |out| == |ps|
    decreases |ps|
  {
    if ps == [] then [] else [if ps[0].id == p.id then p else ps[0]] + ReplaceRecord(ps[1..], p)
  }

  // ---------------------------------------------------------------------
  // Lemmas about queries and state changes

  /** Membership in a product's tag listing is exactly a relation to a tag of that group. */
  lemma {:induction false} TagsInMembers(keys: seq<TagKey>, rels: seq<Relation>, pid: ProductId, g: Group, t: TagId)
    ensures t in TagsIn(keys, rels, pid, g) <==> Relation(pid, t) in rels && InGroup(keys, t, g)
    decreases |rels|
  {
    if rels != [] {
      TagsInMembers(keys, rels[1..], pid, g, t);
      assert Relation(pid, t) in rels <==> rels[0] == Relation(pid, t) || Relation(pid, t) in rels[1..];
    }
  }

  lemma {:induction false} ProductsInMembers(db: Db, ps: seq<Product>, t: TagId, p: Product)
    ensures p in ProductsIn(db, ps, t) <==> p in ps && Related(db, p.id, t)
    decreases |ps|
  {
    if ps != [] {
      ProductsInMembers(db, ps[1..], t, p);
      assert p in ps <==> ps[0] == p || p in ps[1..];
    }
  }

  /** `getVariants`: exactly the stored products related to the tag `parent-<sku>`. */
  lemma VariantsMembers(db: Db, sku: string, v: Product)
    ensures v in Variants(db, sku) <==>
      v in db.products && FindTag(db, (Hierarchy, ParentSlug(sku))).Some?
      && Related(db, v.id, FindTag(db, (Hierarchy, ParentSlug(sku))).value)
  {
    match FindTag(db, (Hierarchy, ParentSlug(sku)))
    case None =>
    case Some(t) => ProductsInMembers(db, db.products, t, v);
  }

  /** `isMainProduct` and `isVariant` are exact negations. */
  lemma MainXorVariant(db: Db, pid: ProductId)
    ensures IsMainProduct(db, pid) <==> !IsVariant(db, pid)
  {
  }

  /** Adding a tag keeps the snapshot well formed and makes the key find the new id. */
  lemma AddTagWellFormed(db: Db, key: TagKey)
    requires WellFormed(db) && key !in db.tagIndex
    ensures WellFormed(AddTag(db, key))
    ensures FindTag(AddTag(db, key), key) == Some(|db.tagKeys|)
  {
    var db' := AddTag(db, key);
    forall k | k in db'.tagIndex
      ensures db'.tagIndex[k] < |db'.tagKeys| && db'.tagKeys[db'.tagIndex[k]] == k
    {
      if k != key { assert k in db.tagIndex; }
    }
    forall i | 0 <= i < |db'.tagKeys|
      ensures db'.tagKeys[i] in db'.tagIndex && db'.tagIndex[db'.tagKeys[i]] == i
    {
      if i < |db.tagKeys| {
        assert db'.tagKeys[i] == db.tagKeys[i];
        assert db.tagKeys[i] != key;
      }
    }
  }

  /**
   * Find-or-create is idempotent: a second call finds the tag the first one
   * returned and changes nothing.
   */
  lemma FindOrCreateIdempotent(db: Db, key: TagKey)
    requires WellFormed(db)
    ensures var (db1, t1) := FindOrCreateTag(db, key);
            WellFormed(db1) && FindOrCreateTag(db1, key) == (db1, t1) && FindTag(db1, key) == Some(t1)
            && db1.tagKeys[t1] == key
  {
    if key !in db.tagIndex { AddTagWellFormed(db, key); }
  }

  lemma RelateWellFormed(db: Db, pid: ProductId, t: TagId)
    requires WellFormed(db) && t < |db.tagKeys| && pid < db.nextId
    ensures WellFormed(Relate(db, pid, t))
    ensures Related(Relate(db, pid, t), pid, t)
    ensures forall r :: r in Relate(db, pid, t).relations <==> r in db.relations || r == Relation(pid, t)
  {
  }

  lemma {:induction false} RelateAllWellFormed(db: Db, pid: ProductId, ts: seq<TagId>)
    requires WellFormed(db) && pid < db.nextId && forall i :: 0 <= i < |ts| ==> ts[i] < |db.tagKeys|
    ensures WellFormed(RelateAll(db, pid, ts))
    ensures RelateAll(db, pid, ts).tagKeys == db.tagKeys && RelateAll(db, pid, ts).tagIndex == db.tagIndex
    ensures RelateAll(db, pid, ts).products == db.products
    ensures forall r :: r in RelateAll(db, pid, ts).relations <==>
              r in db.relations || (r.product == pid && r.tag in ts)
    decreases |ts|
  {
    if ts != [] {
      var init := ts[..|ts| - 1];
      RelateAllWellFormed(db, pid, init);
      RelateWellFormed(RelateAll(db, pid, init), pid, ts[|ts| - 1]);
      assert forall x :: x in ts <==> x in init || x == ts[|ts| - 1] by {
        assert ts == init + [ts[|ts| - 1]];
      }
    }
  }

  lemma UnrelateWellFormed(db: Db, pid: ProductId, t: TagId)
    requires WellFormed(db)
    ensures WellFormed(Unrelate(db, pid, t))
    ensures !Related(Unrelate(db, pid, t), pid, t)
  {
    WithoutDistinct(db.relations, Relation(pid, t));
    var out := Without(db.relations, Relation(pid, t));
    forall i | 0 <= i < |out| ensures out[i].tag < |db.tagKeys| {
      assert out[i] in db.relations;
    }
  }

  lemma {:induction false} WithoutDistinct(rels: seq<Relation>, r: Relation)
    requires DistinctRelations(rels)
    ensures DistinctRelations(Without(rels, r))
    decreases |rels|
  {
    if rels != [] {
      assert DistinctRelations(rels[1..]) by {
        forall i, j | 0 <= i < j < |rels[1..]| ensures rels[1..][i] != rels[1..][j] {
          assert rels[1..][i] == rels[i + 1] && rels[1..][j] == rels[j + 1];
        }
      }
      WithoutDistinct(rels[1..], r);
      var rest := Without(rels[1..], r);
      assert rels[0] !in rels[1..] by {
        forall j | 0 <= j < |rels[1..]| ensures rels[1..][j] != rels[0] {
          assert rels[1..][j] == rels[j + 1];
        }
      }
      assert rels[0] !in rest;
      var out := Without(rels, r);
      if rels[0] != r {
        assert out == [rels[0]] + rest;
        forall i, j | 0 <= i < j < |out| ensures out[i] != out[j] {
          assert out[j] == rest[j - 1];
          if i > 0 { assert out[i] == rest[i - 1]; } else { assert out[i] == rels[0]; }
        }
      } else {
        assert out == rest;
      }
    }
  }

  /**
   * Relating a tag of another group leaves the hierarchy tags of every
   * product, and therefore every parent SKU, as they were.
   */
  lemma RelateKeepsParentSku(db: Db, pid: ProductId, t: TagId, q: ProductId)
    requires !InGroup(db.tagKeys, t, Hierarchy)
    ensures TagsOf(Relate(db, pid, t), q, Hierarchy) == TagsOf(db, q, Hierarchy)
    ensures ParentSku(Relate(db, pid, t), q) == ParentSku(db, q)
  {
    if Relation(pid, t) !in db.relations {
      TagsInAppendOther(db.tagKeys, db.relations, Relation(pid, t), q);
    }
  }

  lemma {:induction false} TagsInAppendOther(keys: seq<TagKey>, rels: seq<Relation>, r: Relation, q: ProductId)
    requires !InGroup(keys, r.tag, Hierarchy)
    ensures TagsIn(keys, rels + [r], q, Hierarchy) == TagsIn(keys, rels, q, Hierarchy)
    decreases |rels|
  {
    if rels == [] {
      assert TagsIn(keys, [r], q, Hierarchy) == [] + TagsIn(keys, [], q, Hierarchy);
    } else {
      assert (rels + [r])[1..] == rels[1..] + [r];
      TagsInAppendOther(keys, rels[1..], r, q);
    }
  }

  /** A new tag changes no existing tag's group or slug, so no listing changes. */
  lemma {:induction false} AddTagKeepsListings(keys: seq<TagKey>, key: TagKey, rels: seq<Relation>, q: ProductId, g: Group)
    requires forall i :: 0 <= i < |rels| ==> rels[i].tag < |keys|
    ensures TagsIn(keys + [key], rels, q, g) == TagsIn(keys, rels, q, g)
    decreases |rels|
  {
    if rels != [] {
      AddTagKeepsListings(keys, key, rels[1..], q, g);
    }
  }

  /** Creating a tag changes no product's parent SKU. */
  lemma AddTagKeepsParentSku(db: Db, key: TagKey, q: ProductId)
    requires WellFormed(db)
    ensures ParentSku(AddTag(db, key), q) == ParentSku(db, q)
  {
    var ts := TagsOf(db, q, Hierarchy);
    AddTagKeepsListings(db.tagKeys, key, db.relations, q, Hierarchy);
    TagsInValid(db.tagKeys, db.relations, q, Hierarchy);
    FirstParentSlugSameSlugs(db.tagKeys, db.tagKeys + [key], ts);
  }

  /** The parent SKU only depends on the slugs of the listed tags. */
  lemma {:induction false} FirstParentSlugSameSlugs(keys: seq<TagKey>, keys': seq<TagKey>, ts: seq<TagId>)
    requires forall i :: 0 <= i < |ts| ==> SlugOf(keys, ts[i]) == SlugOf(keys', ts[i])
    ensures FirstParentSlug(keys, ts) == FirstParentSlug(keys', ts)
    decreases |ts|
  {
    if ts != [] { FirstParentSlugSameSlugs(keys, keys', ts[1..]); }
  }

  lemma {:induction false} TagsInValid(keys: seq<TagKey>, rels: seq<Relation>, pid: ProductId, g: Group)
    ensures forall i :: 0 <= i < |TagsIn(keys, rels, pid, g)| ==> InGroup(keys, TagsIn(keys, rels, pid, g)[i], g)
    decreases |rels|
  {
    if rels != [] { TagsInValid(keys, rels[1..], pid, g); }
  }

  /**
   * Relating a product that has no hierarchy tag yet to the hierarchy tag
   * `parent-<sku>` gives it exactly that parent SKU.
   */
  lemma RelateParentGivesParentSku(db: Db, pid: ProductId, t: TagId, sku: string)
    requires t < |db.tagKeys| && db.tagKeys[t] == (Hierarchy, ParentSlug(sku))
    requires TagsOf(db, pid, Hierarchy) == []
    ensures TagsOf(Relate(db, pid, t), pid, Hierarchy) == [t]
    ensures ParentSku(Relate(db, pid, t), pid) == Some(sku)
  {
    TagsInMembers(db.tagKeys, db.relations, pid, Hierarchy, t);
    assert Relation(pid, t) !in db.relations;
    TagsInAppendOwn(db.tagKeys, db.relations, Relation(pid, t));
    ParentSlugRoundTrip(sku);
    assert StartsWith(ParentSlug(sku), ParentPrefix);
  }

  /** A parent slug contains `parent-%` only if its SKU contains a `%`. */
  lemma PercentInParentSku(sku: string)
    requires Contains(ParentSlug(sku), EscapedParentPattern)
    ensures '%' in sku
  {
    var slug := ParentSlug(sku);
    var i :| 0 <= i <= |slug| - |EscapedParentPattern| && StartsWith(slug[i..], EscapedParentPattern);
    assert slug[i..][7] == '%';
    assert slug[i + 7] == sku[i];
  }

  /**
   * As written, `getParentSku` finds a parent only when the parent SKU
   * contains a `%`; for every other SKU the product counts as a main product.
   */
  lemma ParentSkuAsWrittenNeedsPercent(db: Db, pid: ProductId)
    ensures ParentSkuAsWritten(db, pid).Some? ==> '%' in ParentSkuAsWritten(db, pid).value
  {
    match FirstLikeSlugAsWritten(db.tagKeys, TagsOf(db, pid, Hierarchy))
    case None =>
    case Some(slug) =>
      if ParentSkuOfSlug(slug).Some? {
        ParentSlugOnly(slug, ParentSkuOfSlug(slug).value);
        PercentInParentSku(ParentSkuOfSlug(slug).value);
      }
  }

  /**
   * The link `ensureParentTag` makes is invisible to `getParentSku` as
   * written: relating `parent-<sku>`, for a SKU with no `%`, gives the
   * product the parent `sku` under the prefix test and none as written.
   */
  lemma RelateParentAsWritten(db: Db, pid: ProductId, t: TagId, sku: string)
    requires t < |db.tagKeys| && db.tagKeys[t] == (Hierarchy, ParentSlug(sku))
    requires TagsOf(db, pid, Hierarchy) == [] && '%' !in sku
    ensures ParentSku(Relate(db, pid, t), pid) == Some(sku)
    ensures ParentSkuAsWritten(Relate(db, pid, t), pid) == None
  {
    RelateParentGivesParentSku(db, pid, t, sku);
    var db' := Relate(db, pid, t);
    assert SlugOf(db'.tagKeys, t) == ParentSlug(sku);
    if Contains(ParentSlug(sku), EscapedParentPattern) {
      PercentInParentSku(sku);
    }
    assert FirstLikeSlugAsWritten(db'.tagKeys, [t][1..]) == None;
  }

  /** A product with no relation is listed under no tag. */
  lemma {:induction false} NoRelationsNoParent(keys: seq<TagKey>, rels: seq<Relation>, pid: ProductId)
    requires forall i :: 0 <= i < |rels| ==> rels[i].product < pid
    ensures TagsIn(keys, rels, pid, Hierarchy) == []
    decreases |rels|
  {
    if rels != [] { NoRelationsNoParent(keys, rels[1..], pid); }
  }

  lemma {:induction false} TagsInAppendOwn(keys: seq<TagKey>, rels: seq<Relation>, r: Relation)
    requires InGroup(keys, r.tag, Hierarchy)
    ensures TagsIn(keys, rels + [r], r.product, Hierarchy) == TagsIn(keys, rels, r.product, Hierarchy) + [r.tag]
    decreases |rels|
  {
    if rels == [] {
      assert TagsIn(keys, [r], r.product, Hierarchy) == [r.tag] + TagsIn(keys, [], r.product, Hierarchy);
    } else {
      assert (rels + [r])[1..] == rels[1..] + [r];
      TagsInAppendOwn(keys, rels[1..], r);
    }
  }

  // ---------------------------------------------------------------------
  // The mutable store

  /** The host's tag, relation and product-record tables. */
  class Store {
    var products: seq<Product>
    var tagIndex: map<TagKey, TagId>
    var tagKeys: seq<TagKey>
    var relations: seq<Relation>
    var nextId: ProductId

    function View(): Db
      reads this
    {
      Db(products, tagIndex, tagKeys, relations, nextId)
    }

    ghost predicate Valid()
      reads this
    {
      WellFormed(View())
    }

    constructor ()
      ensures Valid() && View() == EmptyDb
    {
      products, tagIndex, tagKeys, relations, nextId := [], map[], [], [], 1;
    }

    /** Find-or-create of the tag (group, slug). */
    method FindOrCreate(key: TagKey) returns (t: TagId)
      requires Valid()
      modifies this
      ensures Valid() && Grows(old(View()), View())
      ensures (View(), t) == FindOrCreateTag(old(View()), key)
      ensures t < |tagKeys| && tagKeys[t] == key
    {
      if key in tagIndex {
        t := tagIndex[key];
      } else {
        AddTagWellFormed(View(), key);
        t := |tagKeys|;
        tagIndex := tagIndex[key := t];
        tagKeys := tagKeys + [key];
      }
    }

    method Link(pid: ProductId, t: TagId)
      requires Valid() && t < |tagKeys| && pid < nextId
      modifies this
      ensures Valid() && Grows(old(View()), View())
      ensures View() == Relate(old(View()), pid, t)
    {
      RelateWellFormed(View(), pid, t);
      if Relation(pid, t) !in relations {
        relations := relations + [Relation(pid, t)];
      }
    }

    /** Find or create the tag, then relate it: every single-tag write of the product element. */
    method AttachTag(pid: ProductId, key: TagKey)
      requires Valid() && pid < nextId
      modifies this
      ensures Valid() && Grows(old(View()), View())
      ensures View() == Attach(old(View()), pid, key)
    {
      var t := FindOrCreate(key);
      Link(pid, t);
    }

    /** `saveRelations($product, $tagIds)` with several tags. */
    method LinkAll(pid: ProductId, ts: seq<TagId>)
      requires Valid() && pid < nextId && forall i :: 0 <= i < |ts| ==> ts[i] < |tagKeys|
      modifies this
      ensures Valid() && Grows(old(View()), View())
      ensures View() == RelateAll(old(View()), pid, ts)
    {
      var i := 0;
      while i < |ts|
        invariant 0 <= i <= |ts|
        invariant Valid() && nextId == old(nextId) && tagKeys == old(tagKeys)
        invariant View() == RelateAll(old(View()), pid, ts[..i])
      {
        assert ts[..i + 1][..i] == ts[..i];
        Link(pid, ts[i]);
        i := i + 1;
      }
      assert ts[..i] == ts;
    }

    method Unlink(pid: ProductId, t: TagId)
      requires Valid()
      modifies this
      ensures Valid() && Grows(old(View()), View())
      ensures View() == Unrelate(old(View()), pid, t)
    {
      UnrelateWellFormed(View(), pid, t);
      relations := Without(relations, Relation(pid, t));
    }

    /** Saves a new record under the next id, which it returns. */
    method Add(p: Product) returns (id: ProductId)
      requires Valid() && !HasSku(View(), p.sku)
      modifies this
      ensures Valid() && Grows(old(View()), View())
      ensures id == old(nextId) && View() == Insert(old(View()), p)
    {
      InsertWellFormed(View(), p);
      id := nextId;
      products := products + [p.(id := id)];
      nextId := nextId + 1;
    }

    /** Overwrites the record with `p`'s id. */
    method Update(p: Product)
      requires Valid() && 1 <= p.id < nextId
      requires forall i :: 0 <= i < |products| && products[i].id != p.id ==> products[i].sku != p.sku
      modifies this
      ensures Valid() && Grows(old(View()), View())
      ensures View() == old(View()).(products := ReplaceRecord(old(products), p))
    {
      ReplaceRecordWellFormed(View(), p);
      products := ReplaceRecord(products, p);
    }
  }

  lemma InsertWellFormed(db: Db, p: Product)
    requires WellFormed(db) && !HasSku(db, p.sku)
    ensures WellFormed(Insert(db, p)) && Grows(db, Insert(db, p))
  {
    var ps := Insert(db, p).products;
    var n := |ps| - 1;
    forall i | 0 <= i < n ensures ps[i].sku != ps[n].sku && ps[i].id != ps[n].id {
      assert ps[i] == db.products[i];
    }
  }

  lemma ReplaceRecordWellFormed(db: Db, p: Product)
    requires WellFormed(db) && 1 <= p.id < db.nextId
    requires forall i :: 0 <= i < |db.products| && db.products[i].id != p.id ==> db.products[i].sku != p.sku
    ensures WellFormed(db.(products := ReplaceRecord(db.products, p)))
  {
    ReplaceRecordFacts(db.products, p);
  }

  lemma {:induction false} ReplaceRecordFacts(ps: seq<Product>, p: Product)
    ensures forall i :: 0 <= i < |ps| ==>
      ReplaceRecord(ps, p)[i] == (if ps[i].id == p.id then p else ps[i])
    decreases |ps|
  {
    if ps != [] {
      ReplaceRecordFacts(ps[1..], p);
      forall i | 0 < i < |ps| ensures ReplaceRecord(ps, p)[i] == ReplaceRecord(ps[1..], p)[i - 1] { }
    }
  }
}
