/**
 * The state changes of src/elements/Product.php as functions of a store
 * snapshot: find-or-create-and-relate, `ensureSkuTag`, the SKU-prefix search
 * of `ensureParentTag`, saving a record (`afterSave`), category inheritance,
 * `createVariant` and `createVariantMatrix`. The methods of
 * `Elements.ProductElement` are proved equal to these; the lemmas here say
 * what the changes mean.
 */
module Effects {
  import opened Wrappers
  import opened Text
  import opened Assoc
  import opened Tags
  import opened Catalog
  import opened Validation
  import opened Variation

  // ---------------------------------------------------------------------
  // Relating tags by group and slug

  /** `Attach` for each slug of group `g`, in order. */
  function AttachAll(db: Db, pid: ProductId, g: Group, slugs: seq<string>): Db
    decreases |slugs|
  {
    if slugs == [] then db
    else Attach(AttachAll(db, pid, g, slugs[..|slugs| - 1]), pid, (g, slugs[|slugs| - 1]))
  }

  /** `ensureSkuTag`: the tag `sku-<SKU>` of group `sku`, related once. */
  function SkuTagStep(db: Db, p: Product): Db {
    Attach(db, p.id, (SkuGroup, SkuSlug(p.sku)))
  }

  /** The slugs of `addAttributeTagToProduct` for each attribute, in order. */
  function AttributeSlugs(attrs: Combo): (r: seq<string>)
    ensures |r| == |attrs|
  {
    seq(|attrs|, i requires 0 <= i < |attrs| => AttributeSlug(attrs[i].0, attrs[i].1))
  }

  /** `inheritCategoryTags`: the source product's category tags, related to the target. */
  function InheritCategories(db: Db, from: ProductId, to: ProductId): Db {
    RelateAll(db, to, TagsOf(db, from, Categories))
  }

  /** `inheritCategoryTags` for each product of `vs`, in order. */
  function InheritAll(db: Db, from: ProductId, vs: seq<Product>): Db
    decreases |vs|
  {
    if vs == [] then db else InheritCategories(InheritAll(db, from, vs[..|vs| - 1]), from, vs[|vs| - 1].id)
  }

  /** `addToCategory`, before the propagation to variants. */
  function CategoryStep(db: Db, pid: ProductId, path: string): Db {
    AttachAll(db, pid, Categories, CategoryStepSlugs(path))
  }

  /**
   * `addToCategory`: relate the category tag of every accumulated path; then,
   * if the product is main (read after those relations), give each variant
   * (read through the cache) the product's category tags.
   */
  function AddToCategorySpec(db: Db, p: Product, path: string, variants: Option<seq<Product>>): (Db, Option<seq<Product>>) {
    var db1 := CategoryStep(db, p.id, path);
    if IsMainProduct(db1, p.id) then
      var vs := variants.GetOr(Variants(db1, p.sku));
      (InheritAll(db1, p.id, vs), Some(vs))
    else (db1, variants)
  }

  /** `removeSystemTag` on the store: the relation goes if the tag exists. */
  function DetachSystem(db: Db, pid: ProductId, slug: string): Db {
    match FindTag(db, (System, slug))
    case None => db
    case Some(t) => Unrelate(db, pid, t)
  }

  /** System tags `createVariant` copies to a new variant. */
  predicate CopiedSlug(slug: string) {
    StartsWith(slug, "price-tier") || StartsWith(slug, "stock")
  }

  /** The slugs of the listed tags that are copied, in order. */
  function CopiedSlugs(keys: seq<TagKey>, ts: seq<TagId>): seq<string>
    decreases |ts|
  {
    if ts == [] then []
    else
      var slug := SlugOf(keys, ts[|ts| - 1]);
      CopiedSlugs(keys, ts[..|ts| - 1]) + (if CopiedSlug(slug) then [slug] else [])
  }

  // ---------------------------------------------------------------------
  // ensureParentTag

  /** `implode('-', $parts)` names a stored product. */
  predicate PrefixNamesProduct(ps: seq<Product>, parts: seq<string>, j: nat)
    requires j <= |parts|
  {
    FindSkuIn(ps, Implode(parts[..j], '-')).Some?
  }

  /**
   * The `array_pop` loop: the prefixes of `k`, `k - 1`, ... down to 3
   * segments, and the first of them that names a stored product.
   */
  function SearchPrefix(ps: seq<Product>, parts: seq<string>, k: nat): Option<string>
    requires k <= |parts|
    decreases k
  {
    if k < 3 then None
    else if PrefixNamesProduct(ps, parts, k) then Some(Implode(parts[..k], '-'))
    else SearchPrefix(ps, parts, k - 1)
  }

  /** The parent `ensureParentTag` links a SKU to: prefixes of all but the last segment down to 3 segments. */
  function ParentCandidate(db: Db, sku: string): Option<string> {
    var parts := Explode(sku, '-');
    SearchPrefix(db.products, parts, |parts| - 1)
  }

  /** `ensureParentTag`: relate `parent-<candidate>` of group `hierarchy`, if there is a candidate. */
  function ParentTagStep(db: Db, p: Product): Db {
    match ParentCandidate(db, p.sku)
    case None => db
    case Some(ps) => Attach(db, p.id, (Hierarchy, ParentSlug(ps)))
  }

  // ---------------------------------------------------------------------
  // Saving

  datatype SaveOutcome = Saved | Invalid | Thrown

  /**
   * `saveElement` followed by `afterSave`. A record that breaks a rule is not
   * saved. A new record (id 0) gets the next id, its SKU tag and its parent
   * link. An existing record is overwritten and gets its SKU tag; if there is
   * no record with its id, `afterSave` throws and nothing changes. This is
   * the save with the relation check of `ensureSkuTag` as evidently intended;
   * `SaveAsWritten` is the save as the code writes it.
   */
  function SaveSpec(db: Db, p: Product): (Db, Product, SaveOutcome) {
    if Violations(db, p) != [] then (db, p, Invalid)
    else if p.id == 0 then
      var row := p.(id := db.nextId);
      (ParentTagStep(SkuTagStep(Insert(db, p), row), row), row, Saved)
    else if !HasId(db, p.id) then (db, p, Thrown)
    else (SkuTagStep(db.(products := ReplaceRecord(db.products, p)), p), p, Saved)
  }

  /**
   * `saveElement` followed by `afterSave` as written: `ensureSkuTag` creates
   * the SKU tag if it is missing, then its relation check calls
   * `\craft\db\Query()` without `new`, which throws; no relation is made and
   * `ensureParentTag` is never reached. The record and the tag written before
   * the throw are kept.
   */
  function SaveAsWritten(db: Db, p: Product): (Db, Product, SaveOutcome) {
    if Violations(db, p) != [] then (db, p, Invalid)
    else if p.id == 0 then
      var row := p.(id := db.nextId);
      (FindOrCreateTag(Insert(db, p), (SkuGroup, SkuSlug(row.sku))).0, row, Thrown)
    else if !HasId(db, p.id) then (db, p, Thrown)
    else (FindOrCreateTag(db.(products := ReplaceRecord(db.products, p)), (SkuGroup, SkuSlug(p.sku))).0, p, Thrown)
  }

  // ---------------------------------------------------------------------
  // createVariant and createVariantMatrix

  /** The store, the parent's system-tag cache, and the variant if one was saved. */
  datatype VariantOutcome = VariantOutcome(db: Db, systemTags: Option<seq<TagId>>, variant: Option<Product>)

  /**
   * `createVariant`: save the record; on success relate the attribute tags,
   * inherit the parent's categories, and copy the parent's `price-tier*` and
   * `stock*` system tags (read through the parent's cache).
   */
  function CreateVariantSpec(db: Db, parent: Product, systemTags: Option<seq<TagId>>, attrs: Combo, extra: Extra): VariantOutcome {
    var (db1, v, outcome) := SaveSpec(db, VariantRecord(parent, attrs, extra));
    if outcome != Saved then VariantOutcome(db, systemTags, None)
    else
      var (db4, tags) := Decorate(db1, parent.id, v.id, systemTags, attrs);
      VariantOutcome(db4, Some(tags), Some(v))
  }

  /**
   * The steps of `createVariant` after a successful save: attribute tags,
   * inherited categories, copied system tags; with the parent's system tags
   * as read.
   */
  function Decorate(db: Db, parentId: ProductId, vid: ProductId, systemTags: Option<seq<TagId>>, attrs: Combo): (Db, seq<TagId>) {
    var db2 := AttachAll(db, vid, Attributes, AttributeSlugs(attrs));
    var db3 := InheritCategories(db2, parentId, vid);
    var tags := if systemTags.Some? then systemTags.value else TagsOf(db3, parentId, System);
    (AttachAll(db3, vid, System, CopiedSlugs(db3.tagKeys, tags)), tags)
  }

  /** The state after the first `n` combinations of a matrix, with the variants made so far. */
  datatype MatrixOutcome = MatrixOutcome(db: Db, systemTags: Option<seq<TagId>>, variants: seq<Product>, picked: seq<nat>)

  /** `createVariantMatrix`: one `createVariant` per combination; failures are skipped. */
  function MatrixSpec(db: Db, parent: Product, systemTags: Option<seq<TagId>>, combos: seq<Combo>, mods: Modifiers): MatrixOutcome
    decreases |combos|
  {
    if combos == [] then MatrixOutcome(db, systemTags, [], [])
    else
      var n := |combos| - 1;
      var st := MatrixSpec(db, parent, systemTags, combos[..n], mods);
      var o := CreateVariantSpec(st.db, parent, st.systemTags, combos[n], MatrixExtra(parent, combos[n], mods));
      if o.variant.Some? then MatrixOutcome(o.db, o.systemTags, st.variants + [o.variant.value], st.picked + [n])
      else MatrixOutcome(o.db, o.systemTags, st.variants, st.picked)
  }

  // =====================================================================
  // Lemmas: well-formedness and growth

  lemma AttachWellFormed(db: Db, pid: ProductId, key: TagKey)
    requires WellFormed(db) && pid < db.nextId
    ensures var db' := Attach(db, pid, key);
      WellFormed(db') && Grows(db, db') && db'.nextId == db.nextId && db'.products == db.products
      && FindTag(db', key).Some? && Related(db', pid, FindTag(db', key).value)
  {
    FindOrCreateIdempotent(db, key);
    var (db1, t) := FindOrCreateTag(db, key);
    RelateWellFormed(db1, pid, t);
  }

  lemma {:induction false} AttachAllWellFormed(db: Db, pid: ProductId, g: Group, slugs: seq<string>)
    requires WellFormed(db) && pid < db.nextId
    ensures var db' := AttachAll(db, pid, g, slugs);
      WellFormed(db') && Grows(db, db') && db'.nextId == db.nextId && db'.products == db.products
    decreases |slugs|
  {
    if slugs != [] {
      var prev := AttachAll(db, pid, g, slugs[..|slugs| - 1]);
      AttachAllWellFormed(db, pid, g, slugs[..|slugs| - 1]);
      AttachWellFormed(prev, pid, (g, slugs[|slugs| - 1]));
    }
  }

  lemma {:induction false} RelateAllFrame(db: Db, pid: ProductId, ts: seq<TagId>)
    ensures var db' := RelateAll(db, pid, ts);
      db'.tagKeys == db.tagKeys && db'.tagIndex == db.tagIndex && db'.products == db.products && db'.nextId == db.nextId
    decreases |ts|
  {
    if ts != [] { RelateAllFrame(db, pid, ts[..|ts| - 1]); }
  }

  lemma InheritWellFormed(db: Db, from: ProductId, to: ProductId)
    requires WellFormed(db) && to < db.nextId
    ensures var db' := InheritCategories(db, from, to);
      WellFormed(db') && Grows(db, db') && db'.nextId == db.nextId && db'.products == db.products
  {
    var ts := TagsOf(db, from, Categories);
    TagsInValid(db.tagKeys, db.relations, from, Categories);
    RelateAllWellFormed(db, to, ts);
    RelateAllFrame(db, to, ts);
  }

  lemma {:induction false} InheritAllWellFormed(db: Db, from: ProductId, vs: seq<Product>)
    requires WellFormed(db) && forall i :: 0 <= i < |vs| ==> vs[i].id < db.nextId
    ensures var db' := InheritAll(db, from, vs);
      WellFormed(db') && Grows(db, db') && db'.nextId == db.nextId && db'.products == db.products
    decreases |vs|
  {
    if vs != [] {
      var init := vs[..|vs| - 1];
      InheritAllWellFormed(db, from, init);
      InheritWellFormed(InheritAll(db, from, init), from, vs[|vs| - 1].id);
    }
  }

  lemma DetachWellFormed(db: Db, pid: ProductId, slug: string)
    requires WellFormed(db)
    ensures var db' := DetachSystem(db, pid, slug);
      WellFormed(db') && Grows(db, db') && db'.nextId == db.nextId && db'.products == db.products
  {
    match FindTag(db, (System, slug))
    case None =>
    case Some(t) => UnrelateWellFormed(db, pid, t);
  }

  lemma ParentTagWellFormed(db: Db, p: Product)
    requires WellFormed(db) && p.id < db.nextId
    ensures var db' := ParentTagStep(db, p);
      WellFormed(db') && Grows(db, db') && db'.nextId == db.nextId && db'.products == db.products
  {
    match ParentCandidate(db, p.sku)
    case None =>
    case Some(ps) => AttachWellFormed(db, p.id, (Hierarchy, ParentSlug(ps)));
  }

  lemma {:induction false} FindSkuInAppend(ps: seq<Product>, x: Product, sku: string)
    requires x.sku != sku
    ensures FindSkuIn(ps + [x], sku) == FindSkuIn(ps, sku)
    decreases |ps|
  {
    if ps == [] {
      assert ([] + [x])[1..] == [];
    } else {
      assert (ps + [x])[1..] == ps[1..] + [x];
      FindSkuInAppend(ps[1..], x, sku);
    }
  }

  /** A product's saved record and what `saveElement` returns, with the store kept well formed. */
  lemma SaveWellFormed(db: Db, p: Product)
    requires WellFormed(db) && p.id < db.nextId
    ensures var (db', row, outcome) := SaveSpec(db, p);
      WellFormed(db') && Grows(db, db') && row.id < db'.nextId
      && (outcome != Saved ==> db' == db && row == p)
      && (outcome == Saved ==> Violations(db, p) == [])
      && (outcome == Saved && p.id == 0 ==> row == p.(id := db.nextId) && db'.nextId == db.nextId + 1)
      && (outcome == Saved && p.id != 0 ==> row == p && db'.nextId == db.nextId)
      && (outcome == Thrown <==> Violations(db, p) == [] && p.id != 0 && !HasId(db, p.id))
  {
    var (db', row, outcome) := SaveSpec(db, p);
    if Violations(db, p) == [] {
      if p.id == 0 {
        NewValidIsFresh(db, p);
        InsertWellFormed(db, p);
        var db1 := Insert(db, p);
        var r := p.(id := db.nextId);
        AttachWellFormed(db1, r.id, (SkuGroup, SkuSlug(r.sku)));
        ParentTagWellFormed(SkuTagStep(db1, r), r);
      } else if HasId(db, p.id) {
        var i :| 0 <= i < |db.products| && db.products[i].id == p.id;
        assert p.sku != "" by { assert !Blank(p.sku); }
        assert !SkuTaken(db, p);
        ReplaceRecordWellFormed(db, p);
        AttachWellFormed(db.(products := ReplaceRecord(db.products, p)), p.id, (SkuGroup, SkuSlug(p.sku)));
      }
    }
  }

  lemma DecorateWellFormed(db: Db, parentId: ProductId, vid: ProductId, systemTags: Option<seq<TagId>>, attrs: Combo)
    requires WellFormed(db) && vid < db.nextId
    ensures var db' := Decorate(db, parentId, vid, systemTags, attrs).0;
      WellFormed(db') && Grows(db, db') && db'.nextId == db.nextId && db'.products == db.products
    ensures systemTags.Some? ==> Decorate(db, parentId, vid, systemTags, attrs).1 == systemTags.value
  {
    var db2 := AttachAll(db, vid, Attributes, AttributeSlugs(attrs));
    AttachAllWellFormed(db, vid, Attributes, AttributeSlugs(attrs));
    var db3 := InheritCategories(db2, parentId, vid);
    InheritWellFormed(db2, parentId, vid);
    var tags := if systemTags.Some? then systemTags.value else TagsOf(db3, parentId, System);
    AttachAllWellFormed(db3, vid, System, CopiedSlugs(db3.tagKeys, tags));
  }

  lemma CreateVariantWellFormed(db: Db, parent: Product, systemTags: Option<seq<TagId>>, attrs: Combo, extra: Extra)
    requires WellFormed(db)
    ensures var o := CreateVariantSpec(db, parent, systemTags, attrs, extra);
      && WellFormed(o.db) && Grows(db, o.db)
      && (o.variant.None? <==> Violations(db, VariantRecord(parent, attrs, extra)) != [])
      && (o.variant.None? ==> o.db == db && o.systemTags == systemTags)
      && (o.variant.Some? ==>
            && o.variant.value == VariantRecord(parent, attrs, extra).(id := db.nextId)
            && o.db.nextId == db.nextId + 1
            && o.systemTags.Some? && (systemTags.Some? ==> o.systemTags == systemTags))
  {
    var rec := VariantRecord(parent, attrs, extra);
    assert rec.id == 0;
    SaveWellFormed(db, rec);
    var (db1, v, outcome) := SaveSpec(db, rec);
    if outcome == Saved {
      DecorateWellFormed(db1, parent.id, v.id, systemTags, attrs);
    }
  }

  lemma {:induction false} MatrixWellFormed(db: Db, parent: Product, systemTags: Option<seq<TagId>>, combos: seq<Combo>, mods: Modifiers)
    requires WellFormed(db)
    ensures var st := MatrixSpec(db, parent, systemTags, combos, mods);
      WellFormed(st.db) && Grows(db, st.db)
    decreases |combos|
  {
    if combos != [] {
      var n := |combos| - 1;
      MatrixWellFormed(db, parent, systemTags, combos[..n], mods);
      var st := MatrixSpec(db, parent, systemTags, combos[..n], mods);
      CreateVariantWellFormed(st.db, parent, st.systemTags, combos[n], MatrixExtra(parent, combos[n], mods));
    }
  }

  /** Once read, the parent's system tags are not read again. */
  lemma {:induction false} MatrixKeepsCache(db: Db, parent: Product, systemTags: Option<seq<TagId>>, combos: seq<Combo>, mods: Modifiers)
    requires WellFormed(db) && systemTags.Some?
    ensures MatrixSpec(db, parent, systemTags, combos, mods).systemTags == systemTags
    decreases |combos|
  {
    if combos != [] {
      var n := |combos| - 1;
      MatrixKeepsCache(db, parent, systemTags, combos[..n], mods);
      MatrixWellFormed(db, parent, systemTags, combos[..n], mods);
      var st := MatrixSpec(db, parent, systemTags, combos[..n], mods);
      CreateVariantWellFormed(st.db, parent, st.systemTags, combos[n], MatrixExtra(parent, combos[n], mods));
    }
  }

  /** Each saved variant is paired with the position of its combination; positions rise. */
  lemma {:induction false} MatrixPicked(db: Db, parent: Product, systemTags: Option<seq<TagId>>, combos: seq<Combo>, mods: Modifiers)
    ensures var st := MatrixSpec(db, parent, systemTags, combos, mods);
      && |st.variants| == |st.picked|
      && (forall j :: 0 <= j < |st.picked| ==> st.picked[j] < |combos|)
      && (forall j, j' :: 0 <= j < j' < |st.picked| ==> st.picked[j] < st.picked[j'])
    decreases |combos|
  {
    if combos != [] {
      var n := |combos| - 1;
      MatrixPicked(db, parent, systemTags, combos[..n], mods);
      var st := MatrixSpec(db, parent, systemTags, combos[..n], mods);
      var o := CreateVariantSpec(st.db, parent, st.systemTags, combos[n], MatrixExtra(parent, combos[n], mods));
      PickedRise(st.picked, n);
    }
  }

  /** Picking position `n` after positions below `n` keeps the positions rising and in range. */
  lemma PickedRise(picked: seq<nat>, n: nat)
    requires forall j :: 0 <= j < |picked| ==> picked[j] < n
    requires forall j, j' :: 0 <= j < j' < |picked| ==> picked[j] < picked[j']
    ensures forall j :: 0 <= j < |picked + [n]| ==> (picked + [n])[j] < n + 1
    ensures forall j, j' :: 0 <= j < j' < |picked + [n]| ==> (picked + [n])[j] < (picked + [n])[j']
  {
  }

  /** One more step of `AttachAll` over a prefix of the slugs. */
  lemma AttachAllSnoc(db: Db, pid: ProductId, g: Group, slugs: seq<string>, i: nat)
    requires i < |slugs|
    ensures AttachAll(db, pid, g, slugs[..i + 1]) == Attach(AttachAll(db, pid, g, slugs[..i]), pid, (g, slugs[i]))
  {
    assert slugs[..i + 1][..i] == slugs[..i];
  }

  /** `AttachAll` over one more slug. */
  lemma AttachAllAppend(db: Db, pid: ProductId, g: Group, slugs: seq<string>, x: string)
    ensures AttachAll(db, pid, g, slugs + [x]) == Attach(AttachAll(db, pid, g, slugs), pid, (g, x))
  {
    assert (slugs + [x])[..|slugs|] == slugs;
  }

  /** The copied slugs of one more tag. */
  lemma CopiedSlugsSnoc(keys: seq<TagKey>, ts: seq<TagId>, i: nat)
    requires i < |ts|
    ensures var slug := SlugOf(keys, ts[i]);
      CopiedSlugs(keys, ts[..i + 1]) == if CopiedSlug(slug) then CopiedSlugs(keys, ts[..i]) + [slug] else CopiedSlugs(keys, ts[..i])
  {
    assert ts[..i + 1][..i] == ts[..i];
    var prev := CopiedSlugs(keys, ts[..i]);
    assert prev + [] == prev;
  }

  /** One more combination of the matrix, over a prefix of the combinations. */
  lemma MatrixSpecSnoc(db: Db, parent: Product, systemTags: Option<seq<TagId>>, combos: seq<Combo>, mods: Modifiers, n: nat)
    requires n < |combos|
    ensures var st := MatrixSpec(db, parent, systemTags, combos[..n], mods);
      var o := CreateVariantSpec(st.db, parent, st.systemTags, combos[n], MatrixExtra(parent, combos[n], mods));
      MatrixSpec(db, parent, systemTags, combos[..n + 1], mods) ==
        if o.variant.Some? then MatrixOutcome(o.db, o.systemTags, st.variants + [o.variant.value], st.picked + [n])
        else MatrixOutcome(o.db, o.systemTags, st.variants, st.picked)
  {
    assert combos[..n + 1][..n] == combos[..n];
  }

  /** One more step of `InheritAll` over a prefix of the variants. */
  lemma InheritAllSnoc(db: Db, from: ProductId, vs: seq<Product>, i: nat)
    requires i < |vs|
    ensures InheritAll(db, from, vs[..i + 1]) == InheritCategories(InheritAll(db, from, vs[..i]), from, vs[i].id)
  {
    assert vs[..i + 1][..i] == vs[..i];
  }

  /** Existing tags keep their ids and existing relations stay. */
  ghost predicate Keeps(db: Db, db': Db) {
    && (forall k :: k in db.tagIndex ==> k in db'.tagIndex && db'.tagIndex[k] == db.tagIndex[k])
    && (forall r :: r in db.relations ==> r in db'.relations)
  }

  lemma AttachKeeps(db: Db, pid: ProductId, key: TagKey)
    ensures Keeps(db, Attach(db, pid, key))
  {
  }

  /** After `AttachAll` every slug names a tag of the group related to the product. */
  lemma {:induction false} AttachAllRelates(db: Db, pid: ProductId, g: Group, slugs: seq<string>)
    ensures var db' := AttachAll(db, pid, g, slugs);
      && Keeps(db, db')
      && forall i :: 0 <= i < |slugs| ==>
           FindTag(db', (g, slugs[i])).Some? && Related(db', pid, FindTag(db', (g, slugs[i])).value)
    decreases |slugs|
  {
    if slugs != [] {
      var init := slugs[..|slugs| - 1];
      AttachAllRelates(db, pid, g, init);
      var prev := AttachAll(db, pid, g, init);
      AttachKeeps(prev, pid, (g, slugs[|slugs| - 1]));
      var db' := AttachAll(db, pid, g, slugs);
      forall i | 0 <= i < |slugs|
        ensures FindTag(db', (g, slugs[i])).Some? && Related(db', pid, FindTag(db', (g, slugs[i])).value)
      {
        if i < |init| { assert slugs[i] == init[i]; }
      }
    }
  }

  /** After `RelateAll` every listed tag is related to the product. */
  lemma {:induction false} RelateAllRelates(db: Db, pid: ProductId, ts: seq<TagId>)
    ensures var db' := RelateAll(db, pid, ts);
      Keeps(db, db') && forall i :: 0 <= i < |ts| ==> Related(db', pid, ts[i])
    decreases |ts|
  {
    if ts != [] {
      RelateAllRelates(db, pid, ts[..|ts| - 1]);
      forall i | 0 <= i < |ts| - 1 ensures ts[..|ts| - 1][i] == ts[i] { }
    }
  }

  /** `inheritCategoryTags`: the target gets every category tag of the source. */
  lemma InheritRelates(db: Db, from: ProductId, to: ProductId)
    ensures var db' := InheritCategories(db, from, to);
      Keeps(db, db') && forall t :: t in TagsOf(db, from, Categories) ==> Related(db', to, t)
  {
    var ts := TagsOf(db, from, Categories);
    RelateAllRelates(db, to, ts);
    forall t | t in ts ensures Related(InheritCategories(db, from, to), to, t) {
      var i :| 0 <= i < |ts| && ts[i] == t;
    }
  }

  /** `addSystemTag` then `hasSystemTag`: a system tag with the slug is listed for the product. */
  lemma AttachListsTag(db: Db, pid: ProductId, key: TagKey)
    requires WellFormed(db)
    ensures var db' := Attach(db, pid, key); var ts := TagsOf(db', pid, key.0);
      exists i :: 0 <= i < |ts| && SlugOf(db'.tagKeys, ts[i]) == key.1
  {
    var (db1, t) := FindOrCreateTag(db, key);
    if key !in db.tagIndex { AddTagWellFormed(db, key); }
    var db' := Attach(db, pid, key);
    TagsInMembers(db'.tagKeys, db'.relations, pid, key.0, t);
    var ts := TagsOf(db', pid, key.0);
    var i :| 0 <= i < |ts| && ts[i] == t;
  }

  /** `removeSystemTag` then `hasSystemTag`: no system tag with the slug is listed any more. */
  lemma DetachSystemDrops(db: Db, pid: ProductId, slug: string)
    requires WellFormed(db)
    ensures var db' := DetachSystem(db, pid, slug); var ts := TagsOf(db', pid, System);
      forall i :: 0 <= i < |ts| ==> SlugOf(db'.tagKeys, ts[i]) != slug
  {
    var db' := DetachSystem(db, pid, slug);
    var ts := TagsOf(db', pid, System);
    forall i | 0 <= i < |ts| ensures SlugOf(db'.tagKeys, ts[i]) != slug {
      TagsInMembers(db'.tagKeys, db'.relations, pid, System, ts[i]);
    }
  }

  lemma AddToCategoryWellFormed(db: Db, p: Product, path: string, variants: Option<seq<Product>>)
    requires WellFormed(db) && p.id < db.nextId
    requires variants.Some? ==> forall i :: 0 <= i < |variants.value| ==> variants.value[i].id < db.nextId
    ensures var (db', cache) := AddToCategorySpec(db, p, path, variants);
      && WellFormed(db') && Grows(db, db') && db'.nextId == db.nextId
      && (cache.Some? ==> forall i :: 0 <= i < |cache.value| ==> cache.value[i].id < db.nextId)
  {
    var db1 := CategoryStep(db, p.id, path);
    AttachAllWellFormed(db, p.id, Categories, CategoryStepSlugs(path));
    if IsMainProduct(db1, p.id) {
      var vs := variants.GetOr(Variants(db1, p.sku));
      forall i | 0 <= i < |vs| ensures vs[i].id < db.nextId {
        if variants.None? { VariantsMembers(db1, p.sku, vs[i]); }
      }
      InheritAllWellFormed(db1, p.id, vs);
    }
  }

  /**
   * `addToCategory("a/b/c")` relates the product to `category-a`,
   * `category-a-b` and `category-a-b-c`; a main product's variants get every
   * category tag the product has after that.
   */
  lemma AddToCategoryRelates(db: Db, p: Product, path: string, variants: Option<seq<Product>>)
    ensures var (db', cache) := AddToCategorySpec(db, p, path, variants);
      var slugs := CategoryStepSlugs(path);
      && Keeps(db, db')
      && (forall i :: 0 <= i < |slugs| ==>
            FindTag(db', (Categories, slugs[i])).Some? && Related(db', p.id, FindTag(db', (Categories, slugs[i])).value))
      && (cache != variants ==> IsMainProduct(CategoryStep(db, p.id, path), p.id))
  {
    var db1 := CategoryStep(db, p.id, path);
    AttachAllRelates(db, p.id, Categories, CategoryStepSlugs(path));
    if IsMainProduct(db1, p.id) {
      var vs := variants.GetOr(Variants(db1, p.sku));
      InheritAllKeeps(db1, p.id, vs);
    }
  }

  lemma {:induction false} InheritAllKeeps(db: Db, from: ProductId, vs: seq<Product>)
    ensures Keeps(db, InheritAll(db, from, vs))
    decreases |vs|
  {
    if vs != [] {
      InheritAllKeeps(db, from, vs[..|vs| - 1]);
      InheritRelates(InheritAll(db, from, vs[..|vs| - 1]), from, vs[|vs| - 1].id);
    }
  }

  // =====================================================================
  // Lemmas: which steps can change a parent link

  /** No product's hierarchy tags change. */
  ghost predicate SameHierarchy(db: Db, db': Db) {
    forall q :: TagsOf(db', q, Hierarchy) == TagsOf(db, q, Hierarchy)
  }

  /** With the same hierarchy tags and only added tag keys, every parent SKU stays. */
  lemma SameHierarchyParent(db: Db, db': Db, q: ProductId)
    requires SameHierarchy(db, db') && Grows(db, db')
    ensures ParentSku(db', q) == ParentSku(db, q)
  {
    var ts := TagsOf(db, q, Hierarchy);
    assert TagsOf(db', q, Hierarchy) == ts;
    TagsInValid(db.tagKeys, db.relations, q, Hierarchy);
    forall i | 0 <= i < |ts| ensures SlugOf(db.tagKeys, ts[i]) == SlugOf(db'.tagKeys, ts[i]) {
      assert db'.tagKeys[ts[i]] == db.tagKeys[ts[i]];
    }
    FirstParentSlugSameSlugs(db.tagKeys, db'.tagKeys, ts);
  }

  lemma AttachKeepsHierarchy(db: Db, pid: ProductId, key: TagKey)
    requires WellFormed(db) && key.0 != Hierarchy
    ensures SameHierarchy(db, Attach(db, pid, key))
  {
    FindOrCreateIdempotent(db, key);
    var (db1, t) := FindOrCreateTag(db, key);
    forall q ensures TagsOf(Attach(db, pid, key), q, Hierarchy) == TagsOf(db, q, Hierarchy) {
      if key !in db.tagIndex { AddTagKeepsListings(db.tagKeys, key, db.relations, q, Hierarchy); }
      RelateKeepsParentSku(db1, pid, t, q);
    }
  }

  lemma {:induction false} AttachAllKeepsHierarchy(db: Db, pid: ProductId, g: Group, slugs: seq<string>)
    requires WellFormed(db) && pid < db.nextId && g != Hierarchy
    ensures SameHierarchy(db, AttachAll(db, pid, g, slugs))
    decreases |slugs|
  {
    if slugs != [] {
      var prev := AttachAll(db, pid, g, slugs[..|slugs| - 1]);
      AttachAllKeepsHierarchy(db, pid, g, slugs[..|slugs| - 1]);
      AttachAllWellFormed(db, pid, g, slugs[..|slugs| - 1]);
      AttachKeepsHierarchy(prev, pid, (g, slugs[|slugs| - 1]));
    }
  }

  lemma {:induction false} RelateAllKeepsHierarchy(db: Db, pid: ProductId, ts: seq<TagId>)
    requires forall i :: 0 <= i < |ts| ==> !InGroup(db.tagKeys, ts[i], Hierarchy)
    ensures SameHierarchy(db, RelateAll(db, pid, ts))
    decreases |ts|
  {
    if ts != [] {
      var init := ts[..|ts| - 1];
      RelateAllKeepsHierarchy(db, pid, init);
      var prev := RelateAll(db, pid, init);
      RelateAllFrame(db, pid, init);
      forall q ensures TagsOf(RelateAll(db, pid, ts), q, Hierarchy) == TagsOf(db, q, Hierarchy) {
        RelateKeepsParentSku(prev, pid, ts[|ts| - 1], q);
      }
    }
  }

  lemma InheritKeepsHierarchy(db: Db, from: ProductId, to: ProductId)
    ensures SameHierarchy(db, InheritCategories(db, from, to))
  {
    TagsInValid(db.tagKeys, db.relations, from, Categories);
    RelateAllKeepsHierarchy(db, to, TagsOf(db, from, Categories));
  }

  lemma AttachAllKeepsParent(db: Db, pid: ProductId, g: Group, slugs: seq<string>, q: ProductId)
    requires WellFormed(db) && pid < db.nextId && g != Hierarchy
    ensures ParentSku(AttachAll(db, pid, g, slugs), q) == ParentSku(db, q)
  {
    AttachAllWellFormed(db, pid, g, slugs);
    AttachAllKeepsHierarchy(db, pid, g, slugs);
    SameHierarchyParent(db, AttachAll(db, pid, g, slugs), q);
  }

  lemma InheritKeepsParent(db: Db, from: ProductId, to: ProductId, q: ProductId)
    requires WellFormed(db) && to < db.nextId
    ensures ParentSku(InheritCategories(db, from, to), q) == ParentSku(db, q)
  {
    InheritWellFormed(db, from, to);
    InheritKeepsHierarchy(db, from, to);
    SameHierarchyParent(db, InheritCategories(db, from, to), q);
  }

  /** The steps of `createVariant` after its save change no parent link. */
  lemma DecorateKeepsParent(db: Db, parentId: ProductId, vid: ProductId, systemTags: Option<seq<TagId>>, attrs: Combo, q: ProductId)
    requires WellFormed(db) && vid < db.nextId
    ensures ParentSku(Decorate(db, parentId, vid, systemTags, attrs).0, q) == ParentSku(db, q)
  {
    var db2 := AttachAll(db, vid, Attributes, AttributeSlugs(attrs));
    AttachAllWellFormed(db, vid, Attributes, AttributeSlugs(attrs));
    AttachAllKeepsParent(db, vid, Attributes, AttributeSlugs(attrs), q);
    var db3 := InheritCategories(db2, parentId, vid);
    InheritWellFormed(db2, parentId, vid);
    InheritKeepsParent(db2, parentId, vid, q);
    var tags := if systemTags.Some? then systemTags.value else TagsOf(db3, parentId, System);
    AttachAllKeepsParent(db3, vid, System, CopiedSlugs(db3.tagKeys, tags), q);
  }

  // =====================================================================
  // Lemmas: the SKU-prefix search

  /**
   * The search returns the longest prefix of at least 3 and at most `k`
   * segments that names a stored product, and nothing when none does.
   */
  lemma {:induction false} SearchPrefixLongest(ps: seq<Product>, parts: seq<string>, k: nat)
    requires k <= |parts|
    ensures SearchPrefix(ps, parts, k).None? <==> forall j :: 3 <= j <= k ==> !PrefixNamesProduct(ps, parts, j)
    ensures SearchPrefix(ps, parts, k).Some? ==>
      exists j :: 3 <= j <= k && PrefixNamesProduct(ps, parts, j)
        && SearchPrefix(ps, parts, k).value == Implode(parts[..j], '-')
        && forall j' :: j < j' <= k ==> !PrefixNamesProduct(ps, parts, j')
    decreases k
  {
    if k >= 3 && !PrefixNamesProduct(ps, parts, k) {
      SearchPrefixLongest(ps, parts, k - 1);
    }
  }

  /** Prefixes longer than `m` segments naming no product leave the search at `m`. */
  lemma {:induction false} SearchPrefixSkips(ps: seq<Product>, parts: seq<string>, m: nat, k: nat)
    requires m <= k <= |parts|
    requires forall j :: m < j <= k ==> !PrefixNamesProduct(ps, parts, j)
    ensures SearchPrefix(ps, parts, k) == SearchPrefix(ps, parts, m)
    decreases k
  {
    if k > m { SearchPrefixSkips(ps, parts, m, k - 1); }
  }

  /** The search stops at the longest prefix that names a product. */
  lemma SearchPrefixStopsAt(ps: seq<Product>, parts: seq<string>, m: nat)
    requires 3 <= m < |parts| && PrefixNamesProduct(ps, parts, m)
    requires forall j :: m < j < |parts| ==> !PrefixNamesProduct(ps, parts, j)
    ensures SearchPrefix(ps, parts, |parts| - 1) == Some(Implode(parts[..m], '-'))
  {
    SearchPrefixSkips(ps, parts, m, |parts| - 1);
  }

  lemma {:induction false} UpperValuesPrefix(attrs: Combo, i: nat)
    requires i <= |attrs|
    ensures UpperValues(attrs[..i]) == UpperValues(attrs)[..i]
    decreases |attrs|
  {
    if i < |attrs| {
      var init := attrs[..|attrs| - 1];
      assert attrs[..i] == init[..i];
      UpperValuesPrefix(init, i);
    } else {
      assert attrs[..i] == attrs;
    }
  }

  lemma DashFreePrefix(attrs: Combo, i: nat)
    requires DashFreeValues(attrs) && i <= |attrs|
    ensures DashFreeValues(attrs[..i])
  {
    forall j | 0 <= j < i ensures '-' !in Upper(attrs[..i][j].1) { assert attrs[..i][j] == attrs[j]; }
  }

  /** The first `|parent segments| + i` segments of a variant SKU spell the SKU made from the first `i` attributes. */
  lemma VariantSkuPrefixes(parentSku: string, attrs: Combo, i: nat)
    requires DashFreeValues(attrs) && i <= |attrs|
    ensures var parts := Explode(parentSku, '-') + UpperValues(attrs);
      |Explode(parentSku, '-')| + i <= |parts|
      && Implode(parts[..|Explode(parentSku, '-')| + i], '-') == parentSku + SkuSuffix(attrs[..i])
  {
    var pp := Explode(parentSku, '-');
    var parts := pp + UpperValues(attrs);
    DashFreePrefix(attrs, i);
    SkuSuffixSegments(parentSku, attrs[..i]);
    UpperValuesPrefix(attrs, i);
    assert parts[..|pp| + i] == pp + UpperValues(attrs[..i]);
    ImplodeExplode(parentSku + SkuSuffix(attrs[..i]), '-');
  }

  lemma SegmentsDashFree(parentSku: string, attrs: Combo)
    requires DashFreeValues(attrs)
    ensures var parts := Explode(parentSku, '-') + UpperValues(attrs);
      forall i :: 0 <= i < |parts| ==> '-' !in parts[i]
  {
    SkuSuffixSegments(parentSku, attrs);
    ExplodeNoSeparator(parentSku + SkuSuffix(attrs), '-');
  }

  /** A prefix of `j` dash-free segments has `j - 1` dashes, so different prefixes differ. */
  lemma PrefixesDiffer(parts: seq<string>, j: nat, j': nat)
    requires 1 <= j <= |parts| && 1 <= j' <= |parts| && j != j'
    requires forall i :: 0 <= i < |parts| ==> '-' !in parts[i]
    ensures Implode(parts[..j], '-') != Implode(parts[..j'], '-')
  {
    ImplodeCount(parts[..j], '-');
    ImplodeCount(parts[..j'], '-');
  }

  /** The segments of a variant SKU and what its longer prefixes spell. */
  lemma VariantSkuSegments(ps: seq<Product>, parentSku: string, attrs: Combo)
    requires DashFreeValues(attrs)
    ensures var parts := Explode(parentSku + SkuSuffix(attrs), '-');
      var m := |Explode(parentSku, '-')|;
      && parts == Explode(parentSku, '-') + UpperValues(attrs)
      && |parts| == m + |attrs|
      && Implode(parts[..m], '-') == parentSku
      && (forall i :: 1 <= i < |attrs| ==>
            PrefixNamesProduct(ps, parts, m + i) == FindSkuIn(ps, parentSku + SkuSuffix(attrs[..i])).Some?)
  {
    SkuSuffixSegments(parentSku, attrs);
    VariantSkuPrefixes(parentSku, attrs, 0);
    assert attrs[..0] == [];
    forall i | 1 <= i < |attrs| ensures
      PrefixNamesProduct(ps, Explode(parentSku + SkuSuffix(attrs), '-'), |Explode(parentSku, '-')| + i)
        == FindSkuIn(ps, parentSku + SkuSuffix(attrs[..i])).Some?
    {
      VariantSkuPrefixes(parentSku, attrs, i);
    }
  }

  /** No longer SKU prefix names a product: no segment prefix beyond the parent's does. */
  lemma LongerPrefixesFree(db: Db, parentSku: string, attrs: Combo)
    requires DashFreeValues(attrs)
    requires forall i :: 1 <= i < |attrs| ==> !HasSku(db, parentSku + SkuSuffix(attrs[..i]))
    ensures var parts := Explode(parentSku + SkuSuffix(attrs), '-');
      forall j :: |Explode(parentSku, '-')| < j < |parts| ==> !PrefixNamesProduct(db.products, parts, j)
  {
    var ps := db.products;
    VariantSkuSegments(ps, parentSku, attrs);
    var parts := Explode(parentSku + SkuSuffix(attrs), '-');
    var m := |Explode(parentSku, '-')|;
    forall j | m < j < |parts| ensures !PrefixNamesProduct(ps, parts, j) {
      var i := j - m;
      assert PrefixNamesProduct(ps, parts, m + i) == FindSkuIn(ps, parentSku + SkuSuffix(attrs[..i])).Some?;
    }
  }

  /** The parent SKU is found when it names a product and no longer prefix does. */
  lemma ParentCandidateIf(db: Db, parentSku: string, attrs: Combo)
    requires |attrs| >= 1 && DashFreeValues(attrs)
    requires |Explode(parentSku, '-')| >= 3 && HasSku(db, parentSku)
    requires forall i :: 1 <= i < |attrs| ==> !HasSku(db, parentSku + SkuSuffix(attrs[..i]))
    ensures ParentCandidate(db, parentSku + SkuSuffix(attrs)) == Some(parentSku)
  {
    var parts := Explode(parentSku + SkuSuffix(attrs), '-');
    ParentSegments(parentSku, attrs);
    LongerPrefixesFree(db, parentSku, attrs);
    assert FindSkuIn(db.products, parentSku).Some?;
    SearchFindsParent(db.products, parts, |Explode(parentSku, '-')|, parentSku);
  }

  /** The search returns the `m`-segment prefix once that one names a product and no longer one does. */
  lemma SearchFindsParent(ps: seq<Product>, parts: seq<string>, m: nat, parentSku: string)
    requires 3 <= m < |parts| && Implode(parts[..m], '-') == parentSku && FindSkuIn(ps, parentSku).Some?
    requires forall j :: m < j < |parts| ==> !PrefixNamesProduct(ps, parts, j)
    ensures SearchPrefix(ps, parts, |parts| - 1) == Some(parentSku)
  {
    SearchPrefixStopsAt(ps, parts, m);
  }

  /** A variant SKU has more segments than its parent's, and its first ones spell the parent. */
  lemma ParentSegments(parentSku: string, attrs: Combo)
    requires DashFreeValues(attrs)
    ensures var parts := Explode(parentSku + SkuSuffix(attrs), '-');
      var m := |Explode(parentSku, '-')|;
      |parts| == m + |attrs| && Implode(parts[..m], '-') == parentSku
  {
    VariantSkuSegments([], parentSku, attrs);
  }

  /** When the parent SKU is found, it names a product and no longer prefix does. */
  lemma ParentCandidateOnlyIf(db: Db, parentSku: string, attrs: Combo)
    requires |attrs| >= 1 && DashFreeValues(attrs)
    requires ParentCandidate(db, parentSku + SkuSuffix(attrs)) == Some(parentSku)
    ensures |Explode(parentSku, '-')| >= 3 && HasSku(db, parentSku)
    ensures forall i :: 1 <= i < |attrs| ==> !HasSku(db, parentSku + SkuSuffix(attrs[..i]))
  {
    VariantSkuSegments(db.products, parentSku, attrs);
    var parts := Explode(parentSku + SkuSuffix(attrs), '-');
    var m := |Explode(parentSku, '-')|;
    SearchPrefixLongest(db.products, parts, |parts| - 1);
    var j :| 3 <= j <= |parts| - 1 && PrefixNamesProduct(db.products, parts, j)
      && Implode(parts[..j], '-') == parentSku
      && forall j' :: j < j' <= |parts| - 1 ==> !PrefixNamesProduct(db.products, parts, j');
    SegmentsDashFree(parentSku, attrs);
    if j != m { PrefixesDiffer(parts, j, m); }
    forall i | 1 <= i < |attrs| ensures !HasSku(db, parentSku + SkuSuffix(attrs[..i])) {
      assert !PrefixNamesProduct(db.products, parts, m + i);
    }
  }

  /**
   * The parent link of a variant SKU: `ensureParentTag` links
   * `<parentSku>-<V1>-...-<Vn>` to `parentSku` exactly when `parentSku` has at
   * least 3 dash segments, names a stored product, and no longer SKU prefix
   * `<parentSku>-<V1>-...-<Vi>` (i < n) names one.
   */
  lemma ParentCandidateOfVariantSku(db: Db, parentSku: string, attrs: Combo)
    requires |attrs| >= 1 && DashFreeValues(attrs)
    ensures ParentCandidate(db, parentSku + SkuSuffix(attrs)) == Some(parentSku) <==>
      |Explode(parentSku, '-')| >= 3 && HasSku(db, parentSku)
      && forall i :: 1 <= i < |attrs| ==> !HasSku(db, parentSku + SkuSuffix(attrs[..i]))
  {
    if ParentCandidate(db, parentSku + SkuSuffix(attrs)) == Some(parentSku) {
      ParentCandidateOnlyIf(db, parentSku, attrs);
    }
    if |Explode(parentSku, '-')| >= 3 && HasSku(db, parentSku)
      && forall i :: 1 <= i < |attrs| ==> !HasSku(db, parentSku + SkuSuffix(attrs[..i]))
    {
      ParentCandidateIf(db, parentSku, attrs);
    }
  }

  /** A strict prefix of a SKU's segments never spells the SKU itself. */
  lemma CandidatesAreShorter(sku: string, k: nat)
    requires 1 <= k < |Explode(sku, '-')|
    ensures |Implode(Explode(sku, '-')[..k], '-')| < |sku|
  {
    var parts := Explode(sku, '-');
    ImplodeExplode(sku, '-');
    ImplodeSplitAt(parts, k, '-');
  }

  /** Storing a record does not change the candidates for its own SKU. */
  lemma {:induction false} SearchIgnoresOwnRecord(ps: seq<Product>, x: Product, k: nat)
    requires k < |Explode(x.sku, '-')|
    ensures SearchPrefix(ps + [x], Explode(x.sku, '-'), k) == SearchPrefix(ps, Explode(x.sku, '-'), k)
    decreases k
  {
    if k >= 3 {
      var parts := Explode(x.sku, '-');
      CandidatesAreShorter(x.sku, k);
      FindSkuInAppend(ps, x, Implode(parts[..k], '-'));
      SearchIgnoresOwnRecord(ps, x, k - 1);
    }
  }

  /** A new product's parent link is the candidate for its SKU before it was stored. */
  lemma SaveNewLinksParent(db: Db, p: Product)
    requires WellFormed(db) && p.id == 0 && Violations(db, p) == []
    ensures ParentSku(SaveSpec(db, p).0, db.nextId) == ParentCandidate(db, p.sku)
  {
    NewValidIsFresh(db, p);
    InsertWellFormed(db, p);
    var row := p.(id := db.nextId);
    var db1 := Insert(db, p);
    NoRelationsNoParent(db1.tagKeys, db1.relations, row.id);
    AttachKeepsHierarchy(db1, row.id, (SkuGroup, SkuSlug(row.sku)));
    AttachWellFormed(db1, row.id, (SkuGroup, SkuSlug(row.sku)));
    var db2 := SkuTagStep(db1, row);
    assert TagsOf(db2, row.id, Hierarchy) == [];
    SearchIgnoresOwnRecord(db.products, row, |Explode(p.sku, '-')| - 1);
    assert ParentCandidate(db2, row.sku) == ParentCandidate(db, p.sku);
    match ParentCandidate(db2, row.sku)
    case None =>
    case Some(ps) =>
      var key := (Hierarchy, ParentSlug(ps));
      FindOrCreateIdempotent(db2, key);
      var (db3, t) := FindOrCreateTag(db2, key);
      if key !in db2.tagIndex { AddTagKeepsListings(db2.tagKeys, key, db2.relations, row.id, Hierarchy); }
      RelateParentGivesParentSku(db3, row.id, t, ps);
  }

  /**
   * As written, no save succeeds: every record that passes validation ends
   * in a throw, no relation is made, and no product's parent SKU changes;
   * in particular a new variant is never linked to its parent.
   */
  lemma SaveAsWrittenNeverLinks(db: Db, p: Product, q: ProductId)
    requires WellFormed(db)
    ensures var (db', _, outcome) := SaveAsWritten(db, p);
      && outcome != Saved
      && (outcome == Thrown <==> Violations(db, p) == [])
      && db'.relations == db.relations
      && ParentSku(db', q) == ParentSku(db, q)
  {
    var key := (SkuGroup, SkuSlug(p.sku));
    if Violations(db, p) == [] && (p.id == 0 || HasId(db, p.id)) {
      AddTagKeepsParentSku(db, key, q);
    }
  }

  /** The steps after the save leave the variant's parent link as the save made it. */
  lemma CreateVariantLinksParent(db: Db, parent: Product, systemTags: Option<seq<TagId>>, attrs: Combo, extra: Extra)
    requires WellFormed(db)
    ensures var o := CreateVariantSpec(db, parent, systemTags, attrs, extra);
      o.variant.Some? ==> ParentSku(o.db, o.variant.value.id) == ParentCandidate(db, o.variant.value.sku)
  {
    var rec := VariantRecord(parent, attrs, extra);
    assert rec.id == 0;
    SaveWellFormed(db, rec);
    var (db1, v, outcome) := SaveSpec(db, rec);
    if outcome == Saved {
      SaveNewLinksParent(db, rec);
      DecorateKeepsParent(db1, parent.id, v.id, systemTags, attrs, v.id);
    }
  }

  /**
   * The composition of `createVariant` and `ensureParentTag`: a variant made
   * from a stored parent, with dash-free values, is linked to that parent
   * exactly when the parent SKU has at least 3 segments and no longer prefix
   * of the variant SKU names a stored product.
   */
  lemma CreateVariantParentIff(db: Db, parent: Product, systemTags: Option<seq<TagId>>, attrs: Combo, extra: Extra)
    requires WellFormed(db) && |attrs| >= 1 && DashFreeValues(attrs)
    requires HasSku(db, parent.sku)
    ensures var o := CreateVariantSpec(db, parent, systemTags, attrs, extra);
      o.variant.Some? ==>
        (ParentSku(o.db, o.variant.value.id) == Some(parent.sku) <==>
          |Explode(parent.sku, '-')| >= 3
          && forall i :: 1 <= i < |attrs| ==> !HasSku(db, parent.sku + SkuSuffix(attrs[..i])))
  {
    CreateVariantLinksParent(db, parent, systemTags, attrs, extra);
    CreateVariantWellFormed(db, parent, systemTags, attrs, extra);
    ParentCandidateOfVariantSku(db, parent.sku, attrs);
  }

  /**
   * `ensureParentTag` relates at most one tag: none when there is no
   * candidate, and otherwise the hierarchy tag `parent-<candidate>`.
   */
  lemma ParentTagAtMostOne(db: Db, p: Product)
    requires WellFormed(db)
    ensures var db' := ParentTagStep(db, p);
      && db'.products == db.products
      && (ParentCandidate(db, p.sku).None? ==> db' == db)
      && (ParentCandidate(db, p.sku).Some? ==>
            var key := (Hierarchy, ParentSlug(ParentCandidate(db, p.sku).value));
            && FindTag(db', key).Some?
            && (db'.relations == db.relations || db'.relations == db.relations + [Relation(p.id, FindTag(db', key).value)]))
  {
    match ParentCandidate(db, p.sku)
    case None =>
    case Some(ps) =>
      FindOrCreateIdempotent(db, (Hierarchy, ParentSlug(ps)));
  }

  /** Saving an existing product runs no parent search and changes no parent link. */
  lemma SaveExistingKeepsParents(db: Db, p: Product, q: ProductId)
    requires WellFormed(db) && p.id != 0 && p.id < db.nextId
    ensures ParentSku(SaveSpec(db, p).0, q) == ParentSku(db, q)
  {
    if Violations(db, p) == [] && HasId(db, p.id) {
      assert p.sku != "" by { assert !Blank(p.sku); }
      ReplaceRecordWellFormed(db, p);
      var db1 := db.(products := ReplaceRecord(db.products, p));
      assert SameHierarchy(db, db1);
      AttachKeepsHierarchy(db1, p.id, (SkuGroup, SkuSlug(p.sku)));
      AttachWellFormed(db1, p.id, (SkuGroup, SkuSlug(p.sku)));
      SameHierarchyParent(db, SkuTagStep(db1, p), q);
    }
  }

  // =====================================================================
  // Lemmas: the matrix

  /** A variant `createVariant` saves is the record derived from the parent and its attributes. */
  lemma CreateVariantRecord(db: Db, parent: Product, systemTags: Option<seq<TagId>>, attrs: Combo, extra: Extra)
    ensures var o := CreateVariantSpec(db, parent, systemTags, attrs, extra);
      o.variant.Some? ==> o.variant.value == VariantRecord(parent, attrs, extra).(id := db.nextId)
  {
    assert VariantRecord(parent, attrs, extra).id == 0;
  }

  lemma MatrixStepMadeFrom(db: Db, parent: Product, systemTags: Option<seq<TagId>>, c: Combo, mods: Modifiers)
    ensures var o := CreateVariantSpec(db, parent, systemTags, c, MatrixExtra(parent, c, mods));
      o.variant.Some? ==> MadeFrom(o.variant.value, parent, c, mods)
  {
    CreateVariantRecord(db, parent, systemTags, c, MatrixExtra(parent, c, mods));
    MatrixPrice(parent, c, mods);
  }

  /**
   * `createVariantMatrix` saves the variants in combination order, each built
   * from its own combination and priced at the parent price plus that
   * combination's modifiers.
   */
  lemma {:induction false} MatrixVariants(db: Db, parent: Product, systemTags: Option<seq<TagId>>, combos: seq<Combo>, mods: Modifiers)
    ensures var st := MatrixSpec(db, parent, systemTags, combos, mods);
      forall j :: 0 <= j < |st.variants| && j < |st.picked| && st.picked[j] < |combos| ==>
        MadeFrom(st.variants[j], parent, combos[st.picked[j]], mods)
    decreases |combos|
  {
    if combos != [] {
      var n := |combos| - 1;
      MatrixVariants(db, parent, systemTags, combos[..n], mods);
      MatrixPicked(db, parent, systemTags, combos[..n], mods);
      var st := MatrixSpec(db, parent, systemTags, combos[..n], mods);
      MatrixStepMadeFrom(st.db, parent, st.systemTags, combos[n], mods);
      forall j | 0 <= j < |st.picked| ensures combos[..n][st.picked[j]] == combos[st.picked[j]] { }
    }
  }

  /** A matrix variant: its SKU, its attributes and its price come from its combination. */
  predicate MadeFrom(v: Product, parent: Product, c: Combo, mods: Modifiers) {
    && v.sku == parent.sku + SkuSuffix(c)
    && v.customAttributes == Merge(parent.customAttributes, c)
    && v.price == parent.price + ModifierSum(c, mods)
  }

  /** A combination is skipped exactly when its variant would not validate. */
  lemma MatrixStep(db: Db, parent: Product, systemTags: Option<seq<TagId>>, combos: seq<Combo>, mods: Modifiers)
    requires WellFormed(db) && combos != []
    ensures var n := |combos| - 1;
      var st := MatrixSpec(db, parent, systemTags, combos[..n], mods);
      var rec := VariantRecord(parent, combos[n], MatrixExtra(parent, combos[n], mods));
      var st' := MatrixSpec(db, parent, systemTags, combos, mods);
      && (Violations(st.db, rec) == [] ==> st'.picked == st.picked + [n] && st'.variants == st.variants + [rec.(id := st.db.nextId)])
      && (Violations(st.db, rec) != [] ==> st' == st)
  {
    var n := |combos| - 1;
    MatrixWellFormed(db, parent, systemTags, combos[..n], mods);
    var st := MatrixSpec(db, parent, systemTags, combos[..n], mods);
    CreateVariantWellFormed(st.db, parent, st.systemTags, combos[n], MatrixExtra(parent, combos[n], mods));
  }
}
