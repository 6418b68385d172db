/**
 * The attribute read queries of src/elements/Product.php:
 * `getVariantsGrouped`, `getAvailableOptions` and `getVariantLabel`. Each is a
 * fold over the attribute-tag slugs of products, split at their first dash
 * (`explode('-', $slug, 2)`); slugs without a dash are skipped. The loops are
 * methods of `Elements.ProductElement`, proved against these folds; the
 * lemmas relate each fold to a direct description of its result.
 */
module Attributes {
  import opened Wrappers
  import opened Text
  import opened Assoc
  import opened Tags
  import opened Catalog
  import opened Pricing

  /** The slugs of the listed tags. */
  function Slugs(keys: seq<TagKey>, ts: seq<TagId>): (r: seq<string>)
    ensures |r| == |ts| && forall i :: 0 <= i < |ts| ==> r[i] == SlugOf(keys, ts[i])
  {
    seq(|ts|, i requires 0 <= i < |ts| => SlugOf(keys, ts[i]))
  }

  /** `$product->getAttributeTags()` read from the store, as slugs. */
  function AttributeSlugsOf(db: Db, pid: ProductId): seq<string> {
    Slugs(db.tagKeys, TagsOf(db, pid, Attributes))
  }

  /** The entry for `k`, or an empty list. */
  function Listed<V>(a: Assoc<seq<V>>, k: string): seq<V> {
    Get(a, k).GetOr([])
  }

  // ---------------------------------------------------------------------
  // getVariantsGrouped

  type Grouping = Assoc<seq<Product>>

  /** `$grouped[$type][] = $variant` for each slug with a dash. */
  function GroupSlugs(g: Grouping, v: Product, slugs: seq<string>): Grouping
    decreases |slugs|
  {
    if slugs == [] then g
    else
      var prev := GroupSlugs(g, v, slugs[..|slugs| - 1]);
      match AttributePair(slugs[|slugs| - 1])
      case None => prev
      case Some(pair) => Put(prev, pair.0, Listed(prev, pair.0) + [v])
  }

  /** `getVariantsGrouped` over the given variants. */
  function Grouped(db: Db, vs: seq<Product>): Grouping
    decreases |vs|
  {
    if vs == [] then []
    else
      var v := vs[|vs| - 1];
      GroupSlugs(Grouped(db, vs[..|vs| - 1]), v, AttributeSlugsOf(db, v.id))
  }

  /** `GroupSlugs` over one more slug of a prefix. */
  lemma GroupSlugsStep(g: Grouping, v: Product, slugs: seq<string>, j: nat)
    requires j < |slugs|
    ensures var prev := GroupSlugs(g, v, slugs[..j]);
      GroupSlugs(g, v, slugs[..j + 1]) ==
        match AttributePair(slugs[j])
        case None => prev
        case Some(pair) => Put(prev, pair.0, Listed(prev, pair.0) + [v])
  {
    assert slugs[..j + 1][..j] == slugs[..j];
  }

  /** `Grouped` over one more variant of a prefix. */
  lemma GroupedStep(db: Db, vs: seq<Product>, i: nat)
    requires i < |vs|
    ensures Grouped(db, vs[..i + 1]) == GroupSlugs(Grouped(db, vs[..i]), vs[i], AttributeSlugsOf(db, vs[i].id))
  {
    assert vs[..i + 1][..i] == vs[..i];
  }

  /** How many of the slugs have type `t`. */
  function TypeCount(slugs: seq<string>, t: string): nat
    decreases |slugs|
  {
    if slugs == [] then 0
    else
      var p := AttributePair(slugs[|slugs| - 1]);
      TypeCount(slugs[..|slugs| - 1], t) + (if p.Some? && p.value.0 == t then 1 else 0)
  }

  function Repeat<T>(x: T, n: nat): (r: seq<T>)
    ensures |r| == n && forall i :: 0 <= i < n ==> r[i] == x
  {
    seq(n, _ => x)
  }

  /** Reference: the variants in order, each once per attribute tag of type `t` it carries. */
  function Occurrences(db: Db, vs: seq<Product>, t: string): seq<Product>
    decreases |vs|
  {
    if vs == [] then []
    else
      var v := vs[|vs| - 1];
      Occurrences(db, vs[..|vs| - 1], t) + Repeat(v, TypeCount(AttributeSlugsOf(db, v.id), t))
  }

  /** Every key of a grouping is set together with a variant, so no entry is empty. */
  predicate NoEmptyEntries<V>(a: Assoc<seq<V>>) {
    forall i :: 0 <= i < |a| ==> a[i].1 != []
  }

  lemma {:induction false} PutNoEmpty<V>(a: Assoc<seq<V>>, k: string, v: seq<V>)
    requires NoEmptyEntries(a) && v != []
    ensures NoEmptyEntries(Put(a, k, v))
    decreases |a|
  {
    if a != [] && a[0].0 != k {
      PutNoEmpty(a[1..], k, v);
    }
  }

  lemma {:induction false} GetNoEmpty<V>(a: Assoc<seq<V>>, k: string)
    requires NoEmptyEntries(a)
    ensures Get(a, k).Some? ==> Get(a, k).value != []
    decreases |a|
  {
    if a != [] && a[0].0 != k {
      GetNoEmpty(a[1..], k);
    }
  }

  /** Adding `v` under one key keeps entries non-empty and grows only that key's list. */
  lemma AddUnderKey(prev: Grouping, v: Product, key: string, t: string)
    requires NoEmptyEntries(prev)
    ensures var next := Put(prev, key, Listed(prev, key) + [v]);
      && NoEmptyEntries(next)
      && Listed(next, t) == Listed(prev, t) + (if key == t then [v] else [])
      && (Get(next, t).Some? <==> Get(prev, t).Some? || key == t)
  {
    PutGet(prev, key, Listed(prev, key) + [v], t);
    PutNoEmpty(prev, key, Listed(prev, key) + [v]);
  }

  lemma {:induction false} GroupSlugsSpec(g: Grouping, v: Product, slugs: seq<string>, t: string)
    requires NoEmptyEntries(g)
    ensures NoEmptyEntries(GroupSlugs(g, v, slugs))
    ensures Listed(GroupSlugs(g, v, slugs), t) == Listed(g, t) + Repeat(v, TypeCount(slugs, t))
    ensures Get(GroupSlugs(g, v, slugs), t).Some? <==> Get(g, t).Some? || TypeCount(slugs, t) > 0
    decreases |slugs|
  {
    if slugs != [] {
      var init := slugs[..|slugs| - 1];
      GroupSlugsSpec(g, v, init, t);
      var prev := GroupSlugs(g, v, init);
      var n := TypeCount(init, t);
      match AttributePair(slugs[|slugs| - 1])
      case None =>
        assert TypeCount(slugs, t) == n;
      case Some(pair) =>
        assert GroupSlugs(g, v, slugs) == Put(prev, pair.0, Listed(prev, pair.0) + [v]);
        AddUnderKey(prev, v, pair.0, t);
        if pair.0 == t {
          assert TypeCount(slugs, t) == n + 1;
          assert Repeat(v, n + 1) == Repeat(v, n) + [v];
        } else {
          assert TypeCount(slugs, t) == n;
        }
    }
  }

  /**
   * `getVariantsGrouped`: the entry for type `t` lists each variant once per
   * attribute tag of type `t` it carries, in variant order, and the key is
   * present exactly when that list is not empty.
   */
  lemma {:induction false} GroupedSpec(db: Db, vs: seq<Product>, t: string)
    ensures NoEmptyEntries(Grouped(db, vs))
    ensures Listed(Grouped(db, vs), t) == Occurrences(db, vs, t)
    ensures Get(Grouped(db, vs), t).Some? <==> Occurrences(db, vs, t) != []
    decreases |vs|
  {
    if vs != [] {
      var init := vs[..|vs| - 1];
      var v := vs[|vs| - 1];
      GroupedSpec(db, init, t);
      GroupSlugsSpec(Grouped(db, init), v, AttributeSlugsOf(db, v.id), t);
    }
  }

  // ---------------------------------------------------------------------
  // getAvailableOptions

  /** For each slug with a dash, add its value to its type's list unless it is listed. */
  function OfferSlugs(o: Assoc<seq<string>>, slugs: seq<string>): Assoc<seq<string>>
    decreases |slugs|
  {
    if slugs == [] then o
    else
      var prev := OfferSlugs(o, slugs[..|slugs| - 1]);
      match AttributePair(slugs[|slugs| - 1])
      case None => prev
      case Some(pair) =>
        if pair.1 in Listed(prev, pair.0) then prev else Put(prev, pair.0, Listed(prev, pair.0) + [pair.1])
  }

  /** `getAvailableOptions` over the given variants: out-of-stock variants are skipped. */
  function AvailableOptions(db: Db, vs: seq<Product>): Assoc<seq<string>>
    decreases |vs|
  {
    if vs == [] then []
    else
      var prev := AvailableOptions(db, vs[..|vs| - 1]);
      var v := vs[|vs| - 1];
      if IsInStock(v) then OfferSlugs(prev, AttributeSlugsOf(db, v.id)) else prev
  }

  /** `OfferSlugs` over one more slug of a prefix. */
  lemma OfferSlugsStep(o: Assoc<seq<string>>, slugs: seq<string>, j: nat)
    requires j < |slugs|
    ensures var prev := OfferSlugs(o, slugs[..j]);
      OfferSlugs(o, slugs[..j + 1]) ==
        match AttributePair(slugs[j])
        case None => prev
        case Some(pair) =>
          if pair.1 in Listed(prev, pair.0) then prev else Put(prev, pair.0, Listed(prev, pair.0) + [pair.1])
  {
    assert slugs[..j + 1][..j] == slugs[..j];
  }

  /** `AvailableOptions` over one more variant of a prefix. */
  lemma AvailableOptionsStep(db: Db, vs: seq<Product>, i: nat)
    requires i < |vs|
    ensures AvailableOptions(db, vs[..i + 1]) ==
      if IsInStock(vs[i]) then OfferSlugs(AvailableOptions(db, vs[..i]), AttributeSlugsOf(db, vs[i].id))
      else AvailableOptions(db, vs[..i])
  {
    assert vs[..i + 1][..i] == vs[..i];
  }

  /** Some slug of the list splits into type `t` and value `x`. */
  predicate SlugOffers(slugs: seq<string>, t: string, x: string) {
    exists j :: 0 <= j < |slugs| && AttributePair(slugs[j]) == Some((t, x))
  }

  /** The slug has a dash and type `t` before it. */
  predicate HasType(slug: string, t: string) {
    match AttributePair(slug)
    case None => false
    case Some(pair) => pair.0 == t
  }

  /** Some slug of the list has type `t`. */
  predicate SlugHasType(slugs: seq<string>, t: string) {
    exists j :: 0 <= j < |slugs| && HasType(slugs[j], t)
  }

  /** The variant is in stock and carries an attribute tag `t-x`. */
  predicate Offers(db: Db, v: Product, t: string, x: string) {
    IsInStock(v) && SlugOffers(AttributeSlugsOf(db, v.id), t, x)
  }

  /** The variant is in stock and carries an attribute tag of type `t`. */
  predicate OffersType(db: Db, v: Product, t: string) {
    IsInStock(v) && SlugHasType(AttributeSlugsOf(db, v.id), t)
  }

  /** Reference: some in-stock variant carries an attribute tag `t-x`. */
  predicate Offered(db: Db, vs: seq<Product>, t: string, x: string) {
    exists i :: 0 <= i < |vs| && Offers(db, vs[i], t, x)
  }

  /** Reference: some in-stock variant carries an attribute tag of type `t`. */
  predicate TypeOffered(db: Db, vs: seq<Product>, t: string) {
    exists i :: 0 <= i < |vs| && OffersType(db, vs[i], t)
  }

  predicate NoRepeats(xs: seq<string>) {
    forall i, j :: 0 <= i < j < |xs| ==> xs[i] != xs[j]
  }

  lemma SlugOffersSnoc(slugs: seq<string>, t: string, x: string)
    requires slugs != []
    ensures SlugOffers(slugs, t, x) <==>
      SlugOffers(slugs[..|slugs| - 1], t, x) || AttributePair(slugs[|slugs| - 1]) == Some((t, x))
  {
    var init := slugs[..|slugs| - 1];
    if SlugOffers(slugs, t, x) {
      var j :| 0 <= j < |slugs| && AttributePair(slugs[j]) == Some((t, x));
      if j < |init| { assert init[j] == slugs[j]; }
    }
    if SlugOffers(init, t, x) {
      var j :| 0 <= j < |init| && AttributePair(init[j]) == Some((t, x));
      assert slugs[j] == init[j];
    }
  }

  lemma SlugHasTypeSnoc(slugs: seq<string>, t: string)
    requires slugs != []
    ensures SlugHasType(slugs, t) <==> SlugHasType(slugs[..|slugs| - 1], t) || HasType(slugs[|slugs| - 1], t)
  {
    var init := slugs[..|slugs| - 1];
    if SlugHasType(slugs, t) {
      var j :| 0 <= j < |slugs| && HasType(slugs[j], t);
      if j < |init| { assert init[j] == slugs[j]; }
    }
    if SlugHasType(init, t) {
      var j :| 0 <= j < |init| && HasType(init[j], t);
      assert slugs[j] == init[j];
    }
  }

  /** One offer step on the entry for `t`. */
  lemma OfferStep(prev: Assoc<seq<string>>, pair: (string, string), t: string, x: string)
    requires NoRepeats(Listed(prev, t))
    ensures var next := if pair.1 in Listed(prev, pair.0) then prev else Put(prev, pair.0, Listed(prev, pair.0) + [pair.1]);
      && NoRepeats(Listed(next, t))
      && (x in Listed(next, t) <==> x in Listed(prev, t) || pair == (t, x))
      && (Get(next, t).Some? <==> Get(prev, t).Some? || pair.0 == t)
  {
    if pair.1 !in Listed(prev, pair.0) {
      PutGet(prev, pair.0, Listed(prev, pair.0) + [pair.1], t);
    }
  }

  lemma {:induction false} OfferSlugsSpec(o: Assoc<seq<string>>, slugs: seq<string>, t: string, x: string)
    requires NoRepeats(Listed(o, t))
    ensures NoRepeats(Listed(OfferSlugs(o, slugs), t))
    ensures x in Listed(OfferSlugs(o, slugs), t) <==> x in Listed(o, t) || SlugOffers(slugs, t, x)
    ensures Get(OfferSlugs(o, slugs), t).Some? <==> Get(o, t).Some? || SlugHasType(slugs, t)
    decreases |slugs|
  {
    if slugs != [] {
      var init := slugs[..|slugs| - 1];
      OfferSlugsSpec(o, init, t, x);
      SlugOffersSnoc(slugs, t, x);
      SlugHasTypeSnoc(slugs, t);
      match AttributePair(slugs[|slugs| - 1])
      case None =>
      case Some(pair) => OfferStep(OfferSlugs(o, init), pair, t, x);
    }
  }

  lemma OfferedSnoc(db: Db, vs: seq<Product>, t: string, x: string)
    requires vs != []
    ensures Offered(db, vs, t, x) <==> Offered(db, vs[..|vs| - 1], t, x) || Offers(db, vs[|vs| - 1], t, x)
  {
    var init := vs[..|vs| - 1];
    if Offered(db, vs, t, x) {
      var i :| 0 <= i < |vs| && Offers(db, vs[i], t, x);
      if i < |init| { assert init[i] == vs[i]; }
    }
    if Offered(db, init, t, x) {
      var i :| 0 <= i < |init| && Offers(db, init[i], t, x);
      assert vs[i] == init[i];
    }
  }

  lemma TypeOfferedSnoc(db: Db, vs: seq<Product>, t: string)
    requires vs != []
    ensures TypeOffered(db, vs, t) <==> TypeOffered(db, vs[..|vs| - 1], t) || OffersType(db, vs[|vs| - 1], t)
  {
    var init := vs[..|vs| - 1];
    if TypeOffered(db, vs, t) {
      var i :| 0 <= i < |vs| && OffersType(db, vs[i], t);
      if i < |init| { assert init[i] == vs[i]; }
    }
    if TypeOffered(db, init, t) {
      var i :| 0 <= i < |init| && OffersType(db, init[i], t);
      assert vs[i] == init[i];
    }
  }

  /**
   * `getAvailableOptions`: value `x` is listed under type `t` exactly when an
   * in-stock variant carries the attribute tag `t-x`; no value is listed
   * twice; and a type is present exactly when an in-stock variant carries a
   * tag of that type.
   */
  lemma {:induction false} AvailableOptionsSpec(db: Db, vs: seq<Product>, t: string, x: string)
    ensures NoRepeats(Listed(AvailableOptions(db, vs), t))
    ensures x in Listed(AvailableOptions(db, vs), t) <==> Offered(db, vs, t, x)
    ensures Get(AvailableOptions(db, vs), t).Some? <==> TypeOffered(db, vs, t)
    decreases |vs|
  {
    if vs != [] {
      var init := vs[..|vs| - 1];
      var v := vs[|vs| - 1];
      AvailableOptionsSpec(db, init, t, x);
      OfferedSnoc(db, vs, t, x);
      TypeOfferedSnoc(db, vs, t);
      if IsInStock(v) {
        OfferSlugsSpec(AvailableOptions(db, init), AttributeSlugsOf(db, v.id), t, x);
      }
    }
  }

  // ---------------------------------------------------------------------
  // getVariantLabel

  /** `ucfirst($type) . ': ' . ucfirst($value)`. */
  function PartLabel(attrType: string, value: string): string {
    UcFirst(attrType) + ": " + UcFirst(value)
  }

  /** The part label of each slug with a dash. */
  function LabelParts(slugs: seq<string>): seq<string>
    decreases |slugs|
  {
    if slugs == [] then []
    else
      LabelParts(slugs[..|slugs| - 1])
      + match AttributePair(slugs[|slugs| - 1])
        case None => []
        case Some(pair) => [PartLabel(pair.0, pair.1)]
  }

  /** `LabelParts` over one more slug of a prefix. */
  lemma LabelPartsStep(slugs: seq<string>, j: nat)
    requires j < |slugs|
    ensures LabelParts(slugs[..j + 1]) ==
      LabelParts(slugs[..j]) + match AttributePair(slugs[j])
        case None => []
        case Some(pair) => [PartLabel(pair.0, pair.1)]
  {
    assert slugs[..j + 1][..j] == slugs[..j];
  }

  /**
   * `getVariantLabel`: a main product's title; a variant's title with the
   * parts of its attribute tags' slugs (read through the element's cache) in
   * parentheses.
   */
  function VariantLabel(db: Db, p: Product, slugs: seq<string>): string {
    if IsMainProduct(db, p.id) then p.title
    else
      var parts := LabelParts(slugs);
      if parts == [] then p.title else p.title + " (" + Join(parts, ", ") + ")"
  }

  /** One label part per slug with a dash. */
  lemma {:induction false} LabelPartsCount(slugs: seq<string>)
    ensures |LabelParts(slugs)| == |slugs| - DashlessCount(slugs)
    decreases |slugs|
  {
    if slugs != [] { LabelPartsCount(slugs[..|slugs| - 1]); }
  }

  function DashlessCount(slugs: seq<string>): (n: nat)
    ensures n <= |slugs|
    decreases |slugs|
  {
    if slugs == [] then 0 else DashlessCount(slugs[..|slugs| - 1]) + (if '-' in slugs[|slugs| - 1] then 0 else 1)
  }

  /**
   * The slugs `createVariant` creates read back as labels: with dash-free
   * types, the attribute `type => value` gives the part `Type: Value` with
   * the value lower-cased first.
   */
  lemma {:induction false} LabelPartsOfAttributeSlugs(slugs: seq<string>, types: seq<string>, values: seq<string>)
    requires |slugs| == |types| == |values|
    requires forall i :: 0 <= i < |slugs| ==> '-' !in types[i] && slugs[i] == AttributeSlug(types[i], values[i])
    ensures LabelParts(slugs) == AttributeLabels(types, values)
  {
    var pairs := seq(|slugs|, i requires 0 <= i < |slugs| => (types[i], Lower(values[i])));
    forall i | 0 <= i < |slugs| ensures AttributePair(slugs[i]) == Some(pairs[i]) {
      AttributeSlugRoundTrip(types[i], values[i]);
    }
    LabelPartsPrefix(slugs, pairs, |slugs|);
    assert slugs[..|slugs|] == slugs;
    assert pairs[..|slugs|] == pairs;
    assert PairLabels(pairs) == AttributeLabels(types, values);
  }

  /** `Type: Value` for each attribute, the value lower-cased. */
  function AttributeLabels(types: seq<string>, values: seq<string>): (r: seq<string>)
    requires |types| == |values|
    ensures |r| == |types|
    ensures forall i :: 0 <= i < |types| ==> r[i] == PartLabel(types[i], Lower(values[i]))
  {
    seq(|types|, i requires 0 <= i < |types| => PartLabel(types[i], Lower(values[i])))
  }

  /** The part label of each pair. */
  function PairLabels(pairs: seq<(string, string)>): (r: seq<string>)
    ensures |r| == |pairs|
    ensures forall i :: 0 <= i < |pairs| ==> r[i] == PartLabel(pairs[i].0, pairs[i].1)
  {
    seq(|pairs|, i requires 0 <= i < |pairs| => PartLabel(pairs[i].0, pairs[i].1))
  }

  lemma PairLabelsSnoc(pairs: seq<(string, string)>, k: nat)
    requires 0 < k <= |pairs|
    ensures PairLabels(pairs[..k]) == PairLabels(pairs[..k - 1]) + [PartLabel(pairs[k - 1].0, pairs[k - 1].1)]
  {
  }

  /** The part labels of the first `k` slugs, when each slug splits into its pair. */
  lemma {:induction false} LabelPartsPrefix(slugs: seq<string>, pairs: seq<(string, string)>, k: nat)
    requires k <= |slugs| == |pairs|
    requires forall i :: 0 <= i < |slugs| ==> AttributePair(slugs[i]) == Some(pairs[i])
    ensures LabelParts(slugs[..k]) == PairLabels(pairs[..k])
    decreases k
  {
    if k > 0 {
      LabelPartsPrefix(slugs, pairs, k - 1);
      LabelPartsStep(slugs, k - 1);
      var p := pairs[k - 1];
      assert LabelParts(slugs[..k]) == LabelParts(slugs[..k - 1]) + [PartLabel(p.0, p.1)];
      PairLabelsSnoc(pairs, k);
    }
  }

  /** A label starts with the title, and equals it for a main product or a variant without attributes. */
  lemma VariantLabelShape(db: Db, p: Product, slugs: seq<string>)
    ensures |p.title| <= |VariantLabel(db, p, slugs)| && VariantLabel(db, p, slugs)[..|p.title|] == p.title
    ensures IsMainProduct(db, p.id) || LabelParts(slugs) == [] ==> VariantLabel(db, p, slugs) == p.title
    ensures IsVariant(db, p.id) && LabelParts(slugs) != [] ==>
      VariantLabel(db, p, slugs) == p.title + " (" + Join(LabelParts(slugs), ", ") + ")"
  {
  }
}
