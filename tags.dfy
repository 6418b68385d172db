/**
 * Tag groups and the slug encodings the product element writes into them
 * (src/elements/Product.php): `sku-<SKU>`, `parent-<SKU>`,
 * `<type>-<value>` and `category-<path>`, and the parsing that reads them back.
 */
module Tags {
  import opened Wrappers
  import opened Text

  /** The tag groups the core reads or writes. */
  datatype Group =
    | SkuGroup | Hierarchy | Attributes | Categories | System | Internal | Relations
    | Mythology | Entity | ProductType

  type TagKey = (Group, string)

  const SkuPrefix: string := "sku-"
  const ParentPrefix: string := "parent-"
  const CategoryPrefix: string := "category-"

  /** Slug of a product's own SKU tag (`'sku-' . $this->sku`). */
  function SkuSlug(sku: string): string {
    SkuPrefix + sku
  }

  /** Slug of the hierarchy tag that points at parent `sku` (`'parent-' . $sku`). */
  function ParentSlug(sku: string): string {
    ParentPrefix + sku
  }

  /** `getParentSku`'s decoding: a slug starting with `parent-` loses those 7 characters. */
  function ParentSkuOfSlug(slug: string): (r: Option<string>)
    ensures r.Some? <==> StartsWith(slug, ParentPrefix)
    ensures r.Some? ==> slug == ParentPrefix + r.value
  {
    if StartsWith(slug, ParentPrefix) then
      assert slug == slug[..7] + slug[7..];
      Some(slug[7..])
    else None
  }

  /** Slug `addAttributeTagToProduct` builds: the type, a dash, the lower-cased value. */
  function AttributeSlug(attrType: string, value: string): string {
    attrType + "-" + Lower(value)
  }

  /** Slug the query's `hasAttributes` filter looks up: no lower-casing. */
  function QueryAttributeSlug(attrType: string, value: string): string {
    attrType + "-" + value
  }

  /** The (type, value) pair of an attribute slug, split at its first dash. */
  function AttributePair(slug: string): Option<(string, string)> {
    SplitFirst(slug, '-')
  }

  /** A slug without a dash has no pair; otherwise the type is dash-free and type, dash and value spell the slug. */
  lemma AttributePairSpec(slug: string)
    ensures AttributePair(slug).None? <==> '-' !in slug
    ensures var r := AttributePair(slug); r.Some? ==> slug == r.value.0 + "-" + r.value.1 && '-' !in r.value.0
  {
    SplitFirstSpec(slug, '-');
  }

  /**
   * The accumulated paths `addToCategory` computes, one per `/`-separated
   * part: `$fullPath = $fullPath ? $fullPath . '-' . $part : $part`, where a
   * previous path of "" or "0" counts as false.
   */
  function CategoryPaths(parts: seq<string>): (r: seq<string>)
    ensures |r| == |parts|
    decreases |parts|
  {
    if parts == [] then []
    else
      var prev := CategoryPaths(parts[..|parts| - 1]);
      var acc := if prev == [] then "" else prev[|prev| - 1];
      var part := parts[|parts| - 1];
      prev + [if Truthy(acc) then acc + "-" + part else part]
  }

  /** Each accumulated path extends the one before it, as the loop of `addToCategory` computes it. */
  lemma {:induction false} CategoryPathsStep(parts: seq<string>, i: nat)
    requires i < |parts|
    ensures CategoryPaths(parts[..i + 1]) == CategoryPaths(parts)[..i + 1]
    ensures var acc := if i == 0 then "" else CategoryPaths(parts)[i - 1];
      CategoryPaths(parts)[i] == if Truthy(acc) then acc + "-" + parts[i] else parts[i]
    decreases |parts|
  {
    if i + 1 < |parts| {
      var init := parts[..|parts| - 1];
      assert parts[..i + 1] == init[..i + 1];
      CategoryPathsStep(init, i);
      assert CategoryPaths(parts)[..|init|] == CategoryPaths(init);
    } else {
      assert parts[..i + 1] == parts;
      if i > 0 {
        var init := parts[..i];
        assert CategoryPaths(parts)[i - 1] == CategoryPaths(init)[i - 1];
      }
    }
  }

  /** The slug of every category tag `addToCategory(path)` relates, in order. */
  function CategoryStepSlugs(path: string): (r: seq<string>)
    ensures |r| >= 1
  {
    var paths := CategoryPaths(Explode(path, '/'));
    seq(|paths|, i requires 0 <= i < |paths| => CategoryPrefix + paths[i])
  }

  /** The `i`-th slug of `addToCategory`, from the path accumulated so far. */
  lemma CategoryStepSlugAt(path: string, i: nat, acc: string, full: string)
    requires i < |Explode(path, '/')|
    requires acc == if i == 0 then "" else CategoryPaths(Explode(path, '/'))[i - 1]
    requires var part := Explode(path, '/')[i]; full == if Truthy(acc) then acc + "-" + part else part
    ensures full == CategoryPaths(Explode(path, '/'))[i]
    ensures i < |CategoryStepSlugs(path)| && CategoryStepSlugs(path)[i] == CategoryPrefix + full
  {
    CategoryPathsStep(Explode(path, '/'), i);
  }

  /** The slug `inCategories` looks up for a path: `'category-' . str_replace('/', '-', $path)`. */
  function QueryCategorySlug(path: string): string {
    CategoryPrefix + Replace(path, '/', '-')
  }

  // ---------------------------------------------------------------------
  // Lemmas

  /** `getParentSku` reads back exactly the SKU `ensureParentTag` encoded. */
  lemma ParentSlugRoundTrip(sku: string)
    ensures ParentSkuOfSlug(ParentSlug(sku)) == Some(sku)
  {
    assert ParentSlug(sku)[..7] == ParentPrefix;
  }

  /** A slug that decodes to a SKU is that SKU's parent slug. */
  lemma ParentSlugOnly(slug: string, sku: string)
    requires ParentSkuOfSlug(slug) == Some(sku)
    ensures slug == ParentSlug(sku)
  {
  }

  /** Splitting an attribute slug recovers the type and the lower-cased value. */
  lemma {:induction false} AttributeSlugRoundTrip(attrType: string, value: string)
    requires '-' !in attrType
    ensures AttributePair(AttributeSlug(attrType, value)) == Some((attrType, Lower(value)))
  {
    var s := AttributeSlug(attrType, value);
    var r := AttributePair(s);
    AttributePairSpec(s);
    assert '-' in s by { assert s[|attrType|] == '-'; }
    var (t, v) := r.value;
    assert s == t + "-" + v;
    assert s[|attrType|] == '-';
    assert |t| == |attrType|;
    assert t == s[..|t|] == attrType;
    assert v == s[|t| + 1..] == Lower(value);
  }

  /**
   * For a value that `strtolower` changes the query's slug differs from the
   * slug `addAttributeTagToProduct` created.
   */
  lemma {:induction false} AttributeSlugsDiffer(attrType: string, value: string)
    requires Lower(value) != value
    ensures QueryAttributeSlug(attrType, value) != AttributeSlug(attrType, value)
  {
    var q := QueryAttributeSlug(attrType, value);
    var a := AttributeSlug(attrType, value);
    assert q[|attrType| + 1..] == value;
    assert a[|attrType| + 1..] == Lower(value);
  }

  /** When the first part is truthy, every accumulated path joins all parts so far with dashes. */
  lemma {:induction false} CategoryPathsJoin(parts: seq<string>)
    requires |parts| >= 1 && Truthy(parts[0])
    ensures forall i :: 0 <= i < |parts| ==> CategoryPaths(parts)[i] == Implode(parts[..i + 1], '-')
    decreases |parts|
  {
    var n := |parts|;
    if n == 1 {
      assert parts[..1] == parts;
    } else {
      var init := parts[..n - 1];
      CategoryPathsJoin(init);
      var prev := CategoryPaths(init);
      var paths := CategoryPaths(parts);
      forall i | 0 <= i < n - 1 ensures paths[i] == Implode(parts[..i + 1], '-') {
        assert init[..i + 1] == parts[..i + 1];
      }
      assert prev[n - 2] == Implode(init, '-') by { assert init[..n - 1] == init; }
      TruthyJoin(init);
      ImplodeSnoc(parts);
      assert parts[..n] == parts;
    }
  }

  /** Joining parts whose first is truthy gives a truthy string. */
  lemma TruthyJoin(parts: seq<string>)
    requires |parts| >= 1 && Truthy(parts[0])
    ensures Truthy(Implode(parts, '-'))
  {
    if |parts| > 1 {
      ImplodeSplitAt(parts, 1, '-');
      assert parts[..1] == [parts[0]];
    }
  }

  /** Joining one more part adds a dash and the part. */
  lemma ImplodeSnoc(parts: seq<string>)
    requires |parts| >= 2
    ensures Implode(parts, '-') == Implode(parts[..|parts| - 1], '-') + "-" + parts[|parts| - 1]
  {
    var n := |parts|;
    ImplodeSplitAt(parts, n - 1, '-');
    assert parts[n - 1..] == [parts[n - 1]];
  }

  /**
   * The last category tag `addToCategory(path)` relates is the one
   * `inCategories([path])` looks up, so long as the path's first segment is
   * neither empty nor "0".
   */
  lemma CategorySlugsAgree(path: string)
    requires Truthy(Explode(path, '/')[0])
    ensures var steps := CategoryStepSlugs(path); steps[|steps| - 1] == QueryCategorySlug(path)
  {
    var parts := Explode(path, '/');
    CategoryPathsJoin(parts);
    assert parts[..|parts|] == parts;
    ImplodeExplodeReplace(path, '/', '-');
  }

  /** `0/a` has the segments `0` and `a`. */
  lemma ZeroSegments()
    ensures Explode("0/a", '/') == ["0", "a"]
  {
    ExplodeSingle("a", '/');
    ExplodeSingle("0", '/');
    assert "0/a" == "0" + ['/'] + "a";
    ExplodeJoin("0", "a", '/');
  }

  /** A falsy first segment is not carried into the next path. */
  lemma ZeroPaths()
    ensures CategoryPaths(["0", "a"]) == ["0", "a"]
  {
    var parts := ["0", "a"];
    assert parts[..1] == ["0"];
    assert CategoryPaths(parts[..1]) == ["0"];
  }

  /** With a leading "0" segment the two slugs part ways: `0/a` is tagged `category-a` but queried as `category-0-a`. */
  lemma CategorySlugsDisagree()
    ensures var steps := CategoryStepSlugs("0/a");
            steps[|steps| - 1] == "category-a" && QueryCategorySlug("0/a") == "category-0-a"
  {
    ZeroSegments();
    ZeroPaths();
    assert Replace("0/a", '/', '-') == "0-a";
  }
}
