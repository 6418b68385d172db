/**
 * The product element of src/elements/Product.php: a record, the three
 * caches it fills on first read (`_variants`, `_attributeTags`,
 * `_systemTags`), and the methods that read and change the tag store. Each
 * method is proved equal to its specification function over store
 * snapshots (modules Catalog, Effects, Hierarchy, Attributes, Pricing);
 * the lemmas about those functions say what the methods mean.
 */
module Elements {
  import opened Wrappers
  import opened Text
  import opened Assoc
  import opened Tags
  import opened Catalog
  import opened Validation
  import opened Pricing
  import opened Variation
  import opened Effects
  import opened Hierarchy
  import opened Attributes

  /** The cached ids are ids of existing tags. */
  predicate TagIdsIn(ts: seq<TagId>, n: nat) {
    forall i :: 0 <= i < |ts| ==> ts[i] < n
  }

  class ProductElement {
    var row: Product
    var variantsCache: Option<seq<Product>>
    var attributeTagsCache: Option<seq<TagId>>
    var systemTagsCache: Option<seq<TagId>>

    constructor (p: Product)
      ensures row == p && variantsCache.None? && attributeTagsCache.None? && systemTagsCache.None?
    {
      row := p;
      variantsCache, attributeTagsCache, systemTagsCache := None, None, None;
    }

    /**
     * The element belongs to the store: its id is one the store handed out
     * (or 0 before the first save) and its cached tags exist.
     */
    ghost predicate Fits(db: Db)
      reads this
    {
      && row.id < db.nextId
      && (variantsCache.Some? ==> forall i :: 0 <= i < |variantsCache.value| ==> variantsCache.value[i].id < db.nextId)
      && (attributeTagsCache.Some? ==> TagIdsIn(attributeTagsCache.value, |db.tagKeys|))
      && (systemTagsCache.Some? ==> TagIdsIn(systemTagsCache.value, |db.tagKeys|))
    }

    // -------------------------------------------------------------------
    // Cached reads

    /** `getVariants`: the cached list, or the products related to `parent-<sku>`. */
    method GetVariants(store: Store) returns (vs: seq<Product>)
      requires store.Valid() && Fits(store.View())
      modifies this
      ensures vs == old(variantsCache).GetOr(Variants(store.View(), row.sku))
      ensures variantsCache == Some(vs) && Fits(store.View())
      ensures row == old(row) && attributeTagsCache == old(attributeTagsCache) && systemTagsCache == old(systemTagsCache)
    {
      if variantsCache.None? {
        var found := Variants(store.View(), row.sku);
        forall i | 0 <= i < |found| ensures found[i].id < store.nextId {
          VariantsMembers(store.View(), row.sku, found[i]);
        }
        variantsCache := Some(found);
      }
      vs := variantsCache.value;
    }

    /** `getAttributeTags`: the cached list, or the related tags of group `attributes`. */
    method GetAttributeTags(store: Store) returns (ts: seq<TagId>)
      requires store.Valid() && Fits(store.View())
      modifies this
      ensures ts == old(attributeTagsCache).GetOr(TagsOf(store.View(), row.id, Attributes))
      ensures attributeTagsCache == Some(ts) && Fits(store.View())
      ensures row == old(row) && variantsCache == old(variantsCache) && systemTagsCache == old(systemTagsCache)
    {
      if attributeTagsCache.None? {
        TagsInValid(store.tagKeys, store.relations, row.id, Attributes);
        attributeTagsCache := Some(TagsOf(store.View(), row.id, Attributes));
      }
      ts := attributeTagsCache.value;
    }

    /** `getSystemTags`: the cached list, or the related tags of group `system`. */
    method GetSystemTags(store: Store) returns (ts: seq<TagId>)
      requires store.Valid() && Fits(store.View())
      modifies this
      ensures ts == old(systemTagsCache).GetOr(TagsOf(store.View(), row.id, System))
      ensures systemTagsCache == Some(ts) && Fits(store.View())
      ensures row == old(row) && variantsCache == old(variantsCache) && attributeTagsCache == old(attributeTagsCache)
    {
      if systemTagsCache.None? {
        TagsInValid(store.tagKeys, store.relations, row.id, System);
        systemTagsCache := Some(TagsOf(store.View(), row.id, System));
      }
      ts := systemTagsCache.value;
    }

    /** `hasSystemTag`: some system tag read through the cache has the slug. */
    method HasSystemTag(store: Store, slug: string) returns (b: bool)
      requires store.Valid() && Fits(store.View())
      modifies this
      ensures var ts := old(systemTagsCache).GetOr(TagsOf(store.View(), row.id, System));
        b <==> exists i :: 0 <= i < |ts| && SlugOf(store.tagKeys, ts[i]) == slug
      ensures systemTagsCache.Some? && Fits(store.View())
      ensures row == old(row) && variantsCache == old(variantsCache) && attributeTagsCache == old(attributeTagsCache)
    {
      var ts := GetSystemTags(store);
      b := false;
      var i := 0;
      while i < |ts|
        invariant 0 <= i <= |ts|
        invariant forall j :: 0 <= j < i ==> SlugOf(store.tagKeys, ts[j]) != slug
      {
        if SlugOf(store.tagKeys, ts[i]) == slug {
          b := true;
          return;
        }
        i := i + 1;
      }
    }

    // -------------------------------------------------------------------
    // Saving

    /** `ensureSkuTag`: find or create `sku-<SKU>` and relate it unless it is related. */
    method EnsureSkuTag(store: Store)
      requires store.Valid() && row.id < store.nextId
      modifies store
      ensures store.Valid() && Grows(old(store.View()), store.View())
      ensures store.View() == SkuTagStep(old(store.View()), row)
    {
      var t := store.FindOrCreate((SkuGroup, SkuSlug(row.sku)));
      if !Related(store.View(), row.id, t) {
        store.Link(row.id, t);
      }
    }

    /**
     * `ensureParentTag`: drop the last dash segment while more than 3 remain,
     * and relate `parent-<prefix>` for the first prefix that names a product.
     */
    method EnsureParentTag(store: Store)
      requires store.Valid() && row.id < store.nextId
      modifies store
      ensures store.Valid() && Grows(old(store.View()), store.View())
      ensures store.View() == ParentTagStep(old(store.View()), row)
    {
      ghost var db := store.View();
      var all := Explode(row.sku, '-');
      var parts := all;
      if |parts| > 3 {
        var found := false;
        while |parts| > 3 && !found
          invariant 3 <= |parts| <= |all| && parts == all[..|parts|]
          invariant store.Valid() && Grows(db, store.View())
          invariant !found ==> store.View() == db
          invariant !found ==> SearchPrefix(db.products, all, |all| - 1) == SearchPrefix(db.products, all, |parts| - 1)
          invariant found ==> store.View() == ParentTagStep(db, row)
          decreases |parts|
        {
          parts := parts[..|parts| - 1];
          assert parts == all[..|parts|];
          var candidate := Implode(parts, '-');
          if HasSku(store.View(), candidate) {
            var t := store.FindOrCreate((Hierarchy, ParentSlug(candidate)));
            store.Link(row.id, t);
            found := true;
          }
        }
      }
    }

    /**
     * `saveElement` then `afterSave`: validate; store a new record under the
     * next id, or overwrite the existing one (throwing when its id is
     * unknown); then the SKU tag, and the parent tag for a new record.
     */
    method Save(store: Store) returns (outcome: SaveOutcome)
      requires store.Valid() && row.id < store.nextId
      modifies this, store
      ensures store.Valid() && Grows(old(store.View()), store.View()) && row.id < store.nextId
      ensures (store.View(), row, outcome) == SaveSpec(old(store.View()), old(row))
      ensures variantsCache == old(variantsCache) && attributeTagsCache == old(attributeTagsCache)
      ensures systemTagsCache == old(systemTagsCache)
    {
      ghost var db := store.View();
      SaveWellFormed(db, row);
      if Violations(store.View(), row) != [] {
        return Invalid;
      }
      if row.id == 0 {
        NewValidIsFresh(db, row);
        var id := store.Add(row);
        row := row.(id := id);
        EnsureSkuTag(store);
        EnsureParentTag(store);
        outcome := Saved;
      } else if !HasId(store.View(), row.id) {
        outcome := Thrown;
      } else {
        assert row.sku != "" by { assert !Blank(row.sku); }
        store.Update(row);
        EnsureSkuTag(store);
        outcome := Saved;
      }
    }

    // -------------------------------------------------------------------
    // System tags

    /**
     * `addSystemTag`: find or create the system tag, relate it, save when
     * asked, then drop the system-tag cache (not reached when the save throws).
     */
    method AddSystemTag(store: Store, slug: string, save: bool) returns (outcome: Option<SaveOutcome>)
      requires store.Valid() && Fits(store.View())
      modifies this, store
      ensures store.Valid() && Grows(old(store.View()), store.View()) && Fits(store.View())
      ensures var db1 := Attach(old(store.View()), old(row).id, (System, slug));
        if save then outcome.Some? && (store.View(), row, outcome.value) == SaveSpec(db1, old(row))
        else outcome.None? && store.View() == db1 && row == old(row)
      ensures systemTagsCache == if outcome == Some(Thrown) then old(systemTagsCache) else None
      ensures variantsCache == old(variantsCache) && attributeTagsCache == old(attributeTagsCache)
    {
      store.AttachTag(row.id, (System, slug));
      outcome := None;
      if save {
        var o := Save(store);
        outcome := Some(o);
        if o == Thrown {
          return;
        }
      }
      systemTagsCache := None;
    }

    /**
     * `removeSystemTag`: when the system tag exists, drop its relation, save
     * when asked and drop the cache; otherwise nothing happens.
     */
    method RemoveSystemTag(store: Store, slug: string, save: bool) returns (outcome: Option<SaveOutcome>)
      requires store.Valid() && Fits(store.View())
      modifies this, store
      ensures store.Valid() && Grows(old(store.View()), store.View()) && Fits(store.View())
      ensures var exists_ := FindTag(old(store.View()), (System, slug)).Some?;
        var db1 := DetachSystem(old(store.View()), old(row).id, slug);
        if save && exists_ then outcome.Some? && (store.View(), row, outcome.value) == SaveSpec(db1, old(row))
        else outcome.None? && store.View() == db1 && row == old(row)
      ensures systemTagsCache ==
        if FindTag(old(store.View()), (System, slug)).None? || outcome == Some(Thrown) then old(systemTagsCache) else None
      ensures variantsCache == old(variantsCache) && attributeTagsCache == old(attributeTagsCache)
    {
      outcome := None;
      var found := FindTag(store.View(), (System, slug));
      if found.Some? {
        store.Unlink(row.id, found.value);
        if save {
          var o := Save(store);
          outcome := Some(o);
          if o == Thrown {
            return;
          }
        }
        systemTagsCache := None;
      }
    }

    // -------------------------------------------------------------------
    // Categories and attributes

    /** `inheritCategoryTags`: relate this product's category tags to the product `to`. */
    method InheritCategoryTags(store: Store, to: ProductId)
      requires store.Valid() && row.id < store.nextId && to < store.nextId
      modifies store
      ensures store.Valid() && Grows(old(store.View()), store.View())
      ensures store.View() == InheritCategories(old(store.View()), row.id, to)
    {
      var ids := TagsOf(store.View(), row.id, Categories);
      TagsInValid(store.tagKeys, store.relations, row.id, Categories);
      if ids != [] {
        store.LinkAll(to, ids);
      }
    }

    /** `addAttributeTagToProduct`: find or create the tag `<type>-<lower value>` and relate it. */
    method AddAttributeTagToProduct(store: Store, pid: ProductId, attrType: string, value: string)
      requires store.Valid() && pid < store.nextId
      modifies store
      ensures store.Valid() && Grows(old(store.View()), store.View())
      ensures store.View() == Attach(old(store.View()), pid, (Attributes, AttributeSlug(attrType, value)))
    {
      store.AttachTag(pid, (Attributes, attrType + "-" + Lower(value)));
    }

    /** The loop of `addToCategory` over the `/` segments, accumulating the path. */
    method RelateCategoryPaths(store: Store, path: string)
      requires store.Valid() && row.id < store.nextId
      modifies store
      ensures store.Valid() && Grows(old(store.View()), store.View())
      ensures store.View() == CategoryStep(old(store.View()), row.id, path)
    {
      ghost var db0 := store.View();
      var parts := Explode(path, '/');
      ghost var slugs := CategoryStepSlugs(path);
      var fullPath := "";
      for i := 0 to |parts|
        invariant store.Valid() && store.nextId == db0.nextId
        invariant fullPath == if i == 0 then "" else CategoryPaths(parts)[i - 1]
        invariant store.View() == AttachAll(db0, row.id, Categories, slugs[..i])
      {
        ghost var acc := fullPath;
        fullPath := if Truthy(fullPath) then fullPath + "-" + parts[i] else parts[i];
        CategoryStepSlugAt(path, i, acc, fullPath);
        ghost var before := store.View();
        store.AttachTag(row.id, (Categories, CategoryPrefix + fullPath));
        assert store.View() == Attach(before, row.id, (Categories, slugs[i]));
        AttachAllSnoc(db0, row.id, Categories, slugs, i);
      }
      assert slugs[..|parts|] == slugs;
      AttachAllWellFormed(db0, row.id, Categories, slugs);
    }

    /** The loop of `addToCategory` over the variants: each inherits this product's categories. */
    method ShareCategories(store: Store, vs: seq<Product>)
      requires store.Valid() && row.id < store.nextId
      requires forall i :: 0 <= i < |vs| ==> vs[i].id < store.nextId
      modifies store
      ensures store.Valid() && Grows(old(store.View()), store.View())
      ensures store.View() == InheritAll(old(store.View()), row.id, vs)
    {
      ghost var db0 := store.View();
      for i := 0 to |vs|
        invariant store.Valid() && Grows(db0, store.View())
        invariant store.View() == InheritAll(db0, row.id, vs[..i])
      {
        InheritCategoryTags(store, vs[i].id);
        InheritAllSnoc(db0, row.id, vs, i);
      }
      assert vs[..|vs|] == vs;
    }

    /**
     * `addToCategory`: relate `category-<path so far>` for each `/` segment;
     * then, if the product is main, its variants inherit its categories.
     */
    method AddToCategory(store: Store, path: string)
      requires store.Valid() && Fits(store.View())
      modifies this, store
      ensures store.Valid() && Grows(old(store.View()), store.View()) && Fits(store.View())
      ensures (store.View(), variantsCache) == AddToCategorySpec(old(store.View()), row, path, old(variantsCache))
      ensures row == old(row) && attributeTagsCache == old(attributeTagsCache) && systemTagsCache == old(systemTagsCache)
    {
      ghost var db0 := store.View();
      AddToCategoryWellFormed(db0, row, path, variantsCache);
      RelateCategoryPaths(store, path);
      ghost var db1 := store.View();
      if IsMainProduct(store.View(), row.id) {
        var vs := GetVariants(store);
        ShareCategories(store, vs);
      }
    }

    // -------------------------------------------------------------------
    // createVariant and createVariantMatrix

    /** The SKU loop of `createVariant`: one `-<VALUE>` per attribute. */
    method VariantSku(attrs: Combo) returns (sku: string)
      ensures sku == row.sku + SkuSuffix(attrs)
      ensures Explode(row.sku, '-') + UpperValues(attrs) == Explode(sku, '-') || !DashFreeValues(attrs)
    {
      sku := row.sku;
      for i := 0 to |attrs|
        invariant sku == row.sku + SkuSuffix(attrs[..i])
      {
        assert attrs[..i + 1][..i] == attrs[..i];
        sku := sku + "-" + Upper(attrs[i].1);
      }
      assert attrs[..|attrs|] == attrs;
      if DashFreeValues(attrs) {
        SkuSuffixSegments(row.sku, attrs);
      }
    }

    /** The attribute loop of `createVariant`: `addAttributeTagToProduct` for each attribute. */
    method AddAttributeTags(store: Store, vid: ProductId, attrs: Combo)
      requires store.Valid() && vid < store.nextId
      modifies store
      ensures store.Valid() && Grows(old(store.View()), store.View())
      ensures store.View() == AttachAll(old(store.View()), vid, Attributes, AttributeSlugs(attrs))
    {
      ghost var db0 := store.View();
      ghost var slugs := AttributeSlugs(attrs);
      for i := 0 to |attrs|
        invariant store.Valid() && Grows(db0, store.View())
        invariant store.View() == AttachAll(db0, vid, Attributes, slugs[..i])
      {
        AddAttributeTagToProduct(store, vid, attrs[i].0, attrs[i].1);
        AttachAllSnoc(db0, vid, Attributes, slugs, i);
      }
      assert slugs[..|attrs|] == slugs;
    }

    /** The system-tag loop of `createVariant`: the variant gets the `price-tier*` and `stock*` tags. */
    static method CopySystemTags(store: Store, variant: ProductElement, tags: seq<TagId>)
      requires store.Valid() && variant.Fits(store.View()) && TagIdsIn(tags, |store.tagKeys|)
      modifies store, variant
      ensures store.Valid() && Grows(old(store.View()), store.View()) && variant.Fits(store.View())
      ensures store.View() == AttachAll(old(store.View()), variant.row.id, System, CopiedSlugs(old(store.tagKeys), tags))
      ensures variant.row == old(variant.row)
    {
      ghost var db0 := store.View();
      for i := 0 to |tags|
        invariant store.Valid() && Grows(db0, store.View()) && variant.Fits(store.View())
        invariant variant.row == old(variant.row)
        invariant store.View() == AttachAll(db0, variant.row.id, System, CopiedSlugs(db0.tagKeys, tags[..i]))
      {
        var slug := SlugOf(store.tagKeys, tags[i]);
        assert slug == SlugOf(db0.tagKeys, tags[i]);
        CopiedSlugsSnoc(db0.tagKeys, tags, i);
        if CopiedSlug(slug) {
          ghost var before := store.View();
          AttachAllAppend(db0, variant.row.id, System, CopiedSlugs(db0.tagKeys, tags[..i]), slug);
          var _ := variant.AddSystemTag(store, slug, false);
          assert store.View() == Attach(before, variant.row.id, (System, slug));
        }
      }
      assert tags[..|tags|] == tags;
    }

    /** The steps of `createVariant` after the variant is saved. */
    method DecorateVariant(store: Store, variant: ProductElement, attrs: Combo)
      requires store.Valid() && Fits(store.View()) && variant.Fits(store.View()) && variant != this
      modifies this, store, variant
      ensures store.Valid() && Grows(old(store.View()), store.View()) && Fits(store.View())
      ensures systemTagsCache.Some? && variant.row == old(variant.row)
      ensures (store.View(), systemTagsCache.value) == Decorate(old(store.View()), row.id, variant.row.id, old(systemTagsCache), attrs)
      ensures row == old(row) && variantsCache == old(variantsCache) && attributeTagsCache == old(attributeTagsCache)
    {
      AddAttributeTags(store, variant.row.id, attrs);
      InheritCategoryTags(store, variant.row.id);
      var tags := GetSystemTags(store);
      CopySystemTags(store, variant, tags);
    }

    /**
     * `createVariant`: build and save the variant record; on success relate
     * its attribute tags, inherit the categories and copy the system tags.
     * `None` is the exception thrown when the save fails.
     */
    method CreateVariant(store: Store, attrs: Combo, extra: Extra) returns (v: Option<ProductElement>)
      requires store.Valid() && Fits(store.View())
      modifies this, store
      ensures store.Valid() && Grows(old(store.View()), store.View()) && Fits(store.View())
      ensures var o := CreateVariantSpec(old(store.View()), old(row), old(systemTagsCache), attrs, extra);
        && store.View() == o.db && systemTagsCache == o.systemTags
        && (v.Some? <==> o.variant.Some?)
        && (v.Some? ==> fresh(v.value) && v.value.row == o.variant.value)
      ensures row == old(row) && variantsCache == old(variantsCache) && attributeTagsCache == old(attributeTagsCache)
    {
      ghost var db0 := store.View();
      var sku := VariantSku(attrs);
      var rec := NewProduct.(
        sku := sku,
        title := VariantTitle(row.title, attrs),
        description := row.description,
        price := extra.price.GetOr(row.price),
        weight := extra.weight.GetOr(row.weight),
        stock := Some(extra.stock.GetOr(0)),
        trackStock := row.trackStock,
        status := "active",
        customAttributes := Merge(row.customAttributes, attrs),
        isDigital := row.isDigital);
      assert rec == VariantRecord(row, attrs, extra);
      var e := new ProductElement(rec);
      var outcome := e.Save(store);
      if outcome != Saved {
        return None;
      }
      DecorateVariant(store, e, attrs);
      v := Some(e);
    }

    /** The modifier loop of `createVariantMatrix`: the combination's modifiers added up. */
    static method PriceModifier(combo: Combo, mods: Modifiers) returns (m: int)
      ensures m == ModifierSum(combo, mods)
    {
      m := 0;
      for j := 0 to |combo|
        invariant m == ModifierSum(combo[..j], mods)
      {
        assert combo[..j + 1][..j] == combo[..j];
        m := m + ModifierOf(mods, combo[j].0, combo[j].1);
      }
      assert combo[..|combo|] == combo;
    }

    /**
     * `createVariantMatrix`: one `createVariant` per combination, with the
     * price raised by the combination's modifiers when they add up to
     * something; variants that fail are skipped.
     */
    method CreateVariantMatrix(store: Store, opts: Options, mods: Modifiers) returns (made: seq<Product>)
      requires store.Valid() && Fits(store.View())
      modifies this, store
      ensures store.Valid() && Grows(old(store.View()), store.View()) && Fits(store.View())
      ensures var o := MatrixSpec(old(store.View()), old(row), old(systemTagsCache), Combinations(opts), mods);
        store.View() == o.db && systemTagsCache == o.systemTags && made == o.variants
      ensures row == old(row) && variantsCache == old(variantsCache) && attributeTagsCache == old(attributeTagsCache)
    {
      ghost var db0 := store.View();
      ghost var cache0 := systemTagsCache;
      var combos := Combinations(opts);
      made := [];
      for n := 0 to |combos|
        invariant store.Valid() && Grows(db0, store.View()) && Fits(store.View())
        invariant row == old(row) && variantsCache == old(variantsCache) && attributeTagsCache == old(attributeTagsCache)
        invariant var st := MatrixSpec(db0, row, cache0, combos[..n], mods);
          store.View() == st.db && systemTagsCache == st.systemTags && made == st.variants
      {
        MatrixSpecSnoc(db0, row, cache0, combos, mods, n);
        var m := PriceModifier(combos[n], mods);
        var extra := if m != 0 then Extra(Some(row.price + m), None, None) else NoExtra;
        assert extra == MatrixExtra(row, combos[n], mods);
        var v := CreateVariant(store, combos[n], extra);
        if v.Some? {
          made := made + [v.value.row];
        }
      }
      assert combos[..|combos|] == combos;
    }

    // -------------------------------------------------------------------
    // Walks over the hierarchy

    /**
     * `getMainProduct`: this product if it is main, else climb through
     * parent products until a main one is reached or a parent is missing.
     * The walk must end within `fuel` steps.
     */
    method GetMainProduct(store: Store, ghost fuel: nat) returns (main: Option<Product>)
      requires Climb(store.View(), row, fuel).Some?
      ensures Some(main) == Climb(store.View(), row, fuel)
    {
      var db := store.View();
      if IsMainProduct(db, row.id) {
        ClimbMain(db, row, fuel);
        return Some(row);
      }
      var current := Some(row);
      ghost var f := fuel;
      while current.Some? && !IsMainProduct(db, current.value.id)
        invariant current.Some? ==> Climb(db, current.value, f) == Climb(db, row, fuel)
        invariant current.None? ==> Climb(db, row, fuel) == Some(None)
        decreases f
      {
        ClimbStep(db, current.value, f);
        current := ParentProduct(db, current.value);
        f := f - 1;
      }
      if current.Some? {
        ClimbMain(db, current.value, f);
      }
      main := current;
    }

    /**
     * `getAllDescendants`: a queue that starts with the variants (through the
     * cache); each product taken from the front is listed and its own
     * variants go to the back. The walk must end within `fuel` steps.
     */
    method GetAllDescendants(store: Store, ghost fuel: nat) returns (descendants: seq<Product>)
      requires store.Valid() && Fits(store.View())
      requires Walk(store.View(), variantsCache.GetOr(Variants(store.View(), row.sku)), fuel).Some?
      modifies this
      ensures Some(descendants) == Walk(store.View(), old(variantsCache).GetOr(Variants(store.View(), row.sku)), fuel)
      ensures variantsCache.Some? && Fits(store.View())
      ensures row == old(row) && attributeTagsCache == old(attributeTagsCache) && systemTagsCache == old(systemTagsCache)
    {
      ghost var db := store.View();
      var toProcess := GetVariants(store);
      ghost var whole := Walk(db, toProcess, fuel).value;
      ghost var f := fuel;
      descendants := [];
      while toProcess != []
        invariant Walk(db, toProcess, f).Some?
        invariant whole == descendants + Walk(db, toProcess, f).value
        decreases f
      {
        var current := toProcess[0];
        descendants := descendants + [current];
        // `$current->getVariants()` on a product fresh from a query: no cache yet
        toProcess := toProcess[1..] + Variants(store.View(), current.sku);
        f := f - 1;
      }
      assert descendants + [] == descendants;
    }

    // -------------------------------------------------------------------
    // Reads over the attribute tags

    /** `getVariantsGrouped`: each variant under the type of each of its attribute tags. */
    method GetVariantsGrouped(store: Store) returns (grouped: Grouping)
      requires store.Valid() && Fits(store.View())
      modifies this
      ensures grouped == Grouped(store.View(), old(variantsCache).GetOr(Variants(store.View(), row.sku)))
      ensures variantsCache.Some? && Fits(store.View())
      ensures row == old(row) && attributeTagsCache == old(attributeTagsCache) && systemTagsCache == old(systemTagsCache)
    {
      var vs := GetVariants(store);
      var db := store.View();
      grouped := [];
      for i := 0 to |vs|
        invariant grouped == Grouped(db, vs[..i])
        modifies {}
      {
        GroupedStep(db, vs, i);
        var v := vs[i];
        // `$variant->getAttributeTags()` on a product fresh from a query: no cache yet
        var ts := TagsOf(db, v.id, Attributes);
        ghost var slugs := Slugs(db.tagKeys, ts);
        ghost var before := grouped;
        for j := 0 to |ts|
          invariant grouped == GroupSlugs(before, v, slugs[..j])
          modifies {}
        {
          GroupSlugsStep(before, v, slugs, j);
          match AttributePair(SlugOf(db.tagKeys, ts[j]))
          case None =>
          case Some(pair) => grouped := Put(grouped, pair.0, Listed(grouped, pair.0) + [v]);
        }
        assert slugs[..|ts|] == slugs;
      }
      assert vs[..|vs|] == vs;
    }

    /**
     * `getAvailableOptions`: for each in-stock variant, each attribute value
     * under its type, once.
     */
    method GetAvailableOptions(store: Store) returns (options: Assoc<seq<string>>)
      requires store.Valid() && Fits(store.View())
      modifies this
      ensures options == AvailableOptions(store.View(), old(variantsCache).GetOr(Variants(store.View(), row.sku)))
      ensures variantsCache.Some? && Fits(store.View())
      ensures row == old(row) && attributeTagsCache == old(attributeTagsCache) && systemTagsCache == old(systemTagsCache)
    {
      var vs := GetVariants(store);
      options := [];
      for i := 0 to |vs|
        invariant options == AvailableOptions(store.View(), vs[..i])
        modifies {}
      {
        AvailableOptionsStep(store.View(), vs, i);
        var v := vs[i];
        if IsInStock(v) {
          var ts := TagsOf(store.View(), v.id, Attributes);
          ghost var slugs := Slugs(store.tagKeys, ts);
          ghost var before := options;
          for j := 0 to |ts|
            invariant options == OfferSlugs(before, slugs[..j])
            modifies {}
          {
            OfferSlugsStep(before, slugs, j);
            match AttributePair(SlugOf(store.tagKeys, ts[j]))
            case None =>
            case Some(pair) =>
              var listed := Listed(options, pair.0);
              if pair.1 !in listed {
                options := Put(options, pair.0, listed + [pair.1]);
              }
          }
          assert slugs[..|ts|] == slugs;
        }
      }
      assert vs[..|vs|] == vs;
    }

    /** `getVariantLabel`: the title, and for a variant its attributes (through the cache) in parentheses. */
    method GetVariantLabel(store: Store) returns (caption: string)
      requires store.Valid() && Fits(store.View())
      modifies this
      ensures var ts := old(attributeTagsCache).GetOr(TagsOf(store.View(), row.id, Attributes));
        caption == VariantLabel(store.View(), row, Slugs(store.tagKeys, ts))
      ensures attributeTagsCache ==
        if IsMainProduct(store.View(), row.id) then old(attributeTagsCache)
        else Some(old(attributeTagsCache).GetOr(TagsOf(store.View(), row.id, Attributes)))
      ensures Fits(store.View())
      ensures row == old(row) && variantsCache == old(variantsCache) && systemTagsCache == old(systemTagsCache)
    {
      if IsMainProduct(store.View(), row.id) {
        return row.title;
      }
      var ts := GetAttributeTags(store);
      ghost var slugs := Slugs(store.tagKeys, ts);
      var parts: seq<string> := [];
      for j := 0 to |ts|
        invariant parts == LabelParts(slugs[..j])
        modifies {}
      {
        LabelPartsStep(slugs, j);
        match AttributePair(SlugOf(store.tagKeys, ts[j]))
        case None =>
        case Some(pair) => parts := parts + [PartLabel(pair.0, pair.1)];
      }
      assert slugs[..|ts|] == slugs;
      caption := row.title;
      if parts != [] {
        caption := caption + " (" + Join(parts, ", ") + ")";
      }
    }

    // -------------------------------------------------------------------
    // Price and stock

    /** The tier loop of `getFinalPrice`: each tier the quantity reaches overrides the price. */
    method GetFinalPrice(quantity: int) returns (price: int)
      ensures price == TierPrice(row.price, row.priceTiers, quantity)
    {
      var tiers := row.priceTiers;
      price := row.price;
      for i := 0 to |tiers|
        invariant price == TierPrice(row.price, tiers[..i], quantity)
      {
        assert tiers[..i + 1][..i] == tiers[..i];
        if quantity >= tiers[i].minQuantity {
          price := tiers[i].price;
        }
      }
      assert tiers[..|tiers|] == tiers;
    }

    /**
     * `getTotalStock`: null when stock is not tracked; a main product's own
     * stock plus its variants' (through the cache); a variant's own stock.
     */
    method GetTotalStock(store: Store) returns (total: Option<int>)
      requires store.Valid() && Fits(store.View())
      modifies this
      ensures total == TotalStock(row, IsMainProduct(store.View(), row.id), old(variantsCache).GetOr(Variants(store.View(), row.sku)))
      ensures variantsCache == if row.trackStock && IsMainProduct(store.View(), row.id)
        then Some(old(variantsCache).GetOr(Variants(store.View(), row.sku))) else old(variantsCache)
      ensures Fits(store.View())
      ensures row == old(row) && attributeTagsCache == old(attributeTagsCache) && systemTagsCache == old(systemTagsCache)
    {
      if !row.trackStock {
        return None;
      }
      if IsMainProduct(store.View(), row.id) {
        var vs := GetVariants(store);
        var sum := AddStocks(row.stock.GetOr(0), vs);
        return Some(sum);
      }
      total := row.stock;
    }
  }

  /** The loop of `getTotalStock`: adds every variant's stock that is not null. */
  method AddStocks(own: int, vs: seq<Product>) returns (sum: int)
    ensures sum == own + StockSum(vs)
  {
    sum := own;
    for i := 0 to |vs|
      invariant sum == own + StockSum(vs[..i])
    {
      assert vs[..i + 1][..i] == vs[..i];
      if vs[i].stock.Some? {
        sum := sum + vs[i].stock.value;
      }
    }
    assert vs[..|vs|] == vs;
  }
}
