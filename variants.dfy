/**
 * Variant generation in src/elements/Product.php: the combinations
 * `generateCombinations` enumerates, the record `createVariant` builds from a
 * parent and one combination, and the price modifier `createVariantMatrix`
 * adds up per combination.
 */
module Variation {
  import opened Wrappers
  import opened Text
  import opened Assoc
  import opened Catalog

  /** The attribute options of a matrix: each type with its list of values. */
  type Options = Assoc<seq<string>>

  /** One chosen value per attribute type, in the options' key order. */
  type Combo = Assoc<string>

  // ---------------------------------------------------------------------
  // generateCombinations

  /**
   * `generateCombinations($arrays, $i, $current)`: for each value of the
   * `i`-th key, bind it in `current` and enumerate the remaining keys.
   */
  function Generate(opts: Options, i: nat, current: Combo): seq<Combo>
    requires i <= |opts|
    decreases |opts| - i, 1
  {
    if i == |opts| then [current] else GenerateEach(opts, i, current, opts[i].1)
  }

  /** The `foreach` over the values of key `i`, concatenating the sub-results. */
  function GenerateEach(opts: Options, i: nat, current: Combo, values: seq<string>): seq<Combo>
    requires i < |opts|
    decreases |opts| - i, 0, |values|
  {
    if values == [] then []
    else Generate(opts, i + 1, Put(current, opts[i].0, values[0])) + GenerateEach(opts, i, current, values[1..])
  }

  /** `generateCombinations($attributeOptions)`. */
  function Combinations(opts: Options): seq<Combo> {
    Generate(opts, 0, [])
  }

  /**
   * The reference enumeration: all value choices, first key outermost. Each
   * value of the first key heads one block holding every combination of the
   * remaining keys.
   */
  function Cartesian(opts: Options): seq<Combo>
    decreases |opts|
  {
    if opts == [] then [[]] else Blocks(opts[0].0, opts[0].1, Cartesian(opts[1..]))
  }

  function Blocks(key: string, values: seq<string>, tails: seq<Combo>): (r: seq<Combo>)
    ensures |r| == |values| * |tails|
    decreases |values|
  {
    if values == [] then [] else Prefixed((key, values[0]), tails) + Blocks(key, values[1..], tails)
  }

  function Prefixed(pair: (string, string), tails: seq<Combo>): (r: seq<Combo>)
    ensures |r| == |tails|
  {
    seq(|tails|, j requires 0 <= j < |tails| => [pair] + tails[j])
  }

  /** The product of the list lengths. */
  function ChoiceCount(opts: Options): nat
    decreases |opts|
  {
    if opts == [] then 1 else |opts[0].1| * ChoiceCount(opts[1..])
  }

  /** Each present offset at which the current part of the combination starts. */
  function Extend(current: Combo, tails: seq<Combo>): (r: seq<Combo>)
    ensures |r| == |tails|
  {
    seq(|tails|, j requires 0 <= j < |tails| => current + tails[j])
  }

  // ---------------------------------------------------------------------
  // Lemmas about the enumeration

  /** With distinct keys, binding a key not yet present appends the pair. */
  lemma {:induction false} PutFresh(current: Combo, k: string, v: string)
    requires k !in Keys(current)
    ensures Put(current, k, v) == current + [(k, v)]
    decreases |current|
  {
    if current != [] {
      assert k != current[0].0;
      assert k !in Keys(current[1..]);
      PutFresh(current[1..], k, v);
      assert current == [current[0]] + current[1..];
    }
  }

  lemma {:induction false} BlocksIndex(key: string, values: seq<string>, tails: seq<Combo>, j: nat, t: nat)
    requires j < |values| && t < |tails|
    ensures j * |tails| + t < |Blocks(key, values, tails)|
    ensures Blocks(key, values, tails)[j * |tails| + t] == [(key, values[j])] + tails[t]
    decreases j
  {
    var b := Blocks(key, values, tails);
    var first := Prefixed((key, values[0]), tails);
    assert b == first + Blocks(key, values[1..], tails);
    if j > 0 {
      BlocksIndex(key, values[1..], tails, j - 1, t);
      assert (j - 1) * |tails| + t + |tails| == j * |tails| + t;
    }
  }

  /**
   * Nested order, first key outermost: the combination that picks value `j`
   * of the first key and the `t`-th combination of the other keys sits at
   * position `j * (number of those combinations) + t`.
   */
  lemma CombinationOrder(opts: Options, j: nat, t: nat)
    requires opts != [] && j < |opts[0].1| && t < |Cartesian(opts[1..])|
    ensures var tails := Cartesian(opts[1..]);
            j * |tails| + t < |Cartesian(opts)| &&
            Cartesian(opts)[j * |tails| + t] == [(opts[0].0, opts[0].1[j])] + tails[t]
  {
    BlocksIndex(opts[0].0, opts[0].1, Cartesian(opts[1..]), j, t);
  }

  /** One combination per choice: the count is the product of the list lengths. */
  lemma {:induction false} CartesianCount(opts: Options)
    ensures |Cartesian(opts)| == ChoiceCount(opts)
    decreases |opts|
  {
    if opts != [] { CartesianCount(opts[1..]); }
  }

  /** A combination binds each key once, in key order, to one of its listed values. */
  predicate Chooses(opts: Options, c: Combo) {
    |c| == |opts| && forall i :: 0 <= i < |c| ==> c[i].0 == opts[i].0 && c[i].1 in opts[i].1
  }

  lemma {:induction false} BlocksMembers(key: string, values: seq<string>, tails: seq<Combo>, c: Combo)
    ensures c in Blocks(key, values, tails) <==>
              |c| >= 1 && c[0].0 == key && c[0].1 in values && c[1..] in tails
    decreases |values|
  {
    if values != [] {
      BlocksMembers(key, values[1..], tails, c);
      var first := Prefixed((key, values[0]), tails);
      assert Blocks(key, values, tails) == first + Blocks(key, values[1..], tails);
      if c in first {
        var j :| 0 <= j < |first| && first[j] == c;
        assert c[1..] == tails[j];
      }
      if |c| >= 1 && c[0] == (key, values[0]) && c[1..] in tails {
        var j :| 0 <= j < |tails| && tails[j] == c[1..];
        assert first[j] == c;
      }
      assert values == [values[0]] + values[1..];
    }
  }

  /** The enumeration holds exactly the combinations that choose one listed value per key. */
  lemma {:induction false} CartesianMembers(opts: Options, c: Combo)
    ensures c in Cartesian(opts) <==> Chooses(opts, c)
    decreases |opts|
  {
    if opts == [] {
    } else {
      BlocksMembers(opts[0].0, opts[0].1, Cartesian(opts[1..]), c);
      if |c| >= 1 {
        CartesianMembers(opts[1..], c[1..]);
        if Chooses(opts, c) {
          forall i | 0 <= i < |c[1..]| ensures c[1..][i].0 == opts[1..][i].0 && c[1..][i].1 in opts[1..][i].1 {
            assert c[1..][i] == c[i + 1];
          }
        }
        if c[0].0 == opts[0].0 && c[0].1 in opts[0].1 && Chooses(opts[1..], c[1..]) {
          forall i | 0 <= i < |c| ensures c[i].0 == opts[i].0 && c[i].1 in opts[i].1 {
            if i > 0 { assert c[i] == c[1..][i - 1]; }
          }
        }
      }
    }
  }

  /** Every combination binds every key of the options, in their order. */
  lemma BindsEveryKey(opts: Options, c: Combo)
    requires c in Cartesian(opts)
    ensures Keys(c) == Keys(opts)
  {
    CartesianMembers(opts, c);
    forall i | 0 <= i < |c| ensures Keys(c)[i] == Keys(opts)[i] {
      KeysAt(c, i);
      KeysAt(opts, i);
    }
  }

  /** The keys of `current` are those of the first `i` options. */
  predicate BoundSoFar(opts: Options, i: nat, current: Combo) {
    i <= |opts| && |current| == i && forall j :: 0 <= j < i ==> current[j].0 == opts[j].0
  }

  lemma {:induction false} ExtendBlocks(current: Combo, key: string, values: seq<string>, tails: seq<Combo>)
    ensures Extend(current, Blocks(key, values, tails))
         == Flatten(current, key, values, tails)
    decreases |values|
  {
    if values != [] {
      ExtendBlocks(current, key, values[1..], tails);
      var b := Blocks(key, values, tails);
      var first := Prefixed((key, values[0]), tails);
      assert b == first + Blocks(key, values[1..], tails);
      var lhs := Extend(current, b);
      var rhs := Flatten(current, key, values, tails);
      assert |lhs| == |rhs|;
      forall n | 0 <= n < |lhs| ensures lhs[n] == rhs[n] {
        if n < |first| {
          assert lhs[n] == current + ([(key, values[0])] + tails[n]);
          assert rhs[n] == (current + [(key, values[0])]) + tails[n];
        } else {
          assert lhs[n] == Extend(current, Blocks(key, values[1..], tails))[n - |first|];
        }
      }
    }
  }

  /** The blocks after extending: each value's block is the current pairs, the pair, a tail. */
  function Flatten(current: Combo, key: string, values: seq<string>, tails: seq<Combo>): (r: seq<Combo>)
    ensures |r| == |values| * |tails|
    decreases |values|
  {
    if values == [] then []
    else Extend(current + [(key, values[0])], tails) + Flatten(current, key, values[1..], tails)
  }

  lemma DistinctKeysPrefix(opts: Options, i: nat, current: Combo)
    requires DistinctKeys(opts) && BoundSoFar(opts, i, current) && i < |opts|
    ensures opts[i].0 !in Keys(current)
  {
    if opts[i].0 in Keys(current) {
      var j :| 0 <= j < |Keys(current)| && Keys(current)[j] == opts[i].0;
      KeysAt(current, j);
    }
  }

  /**
   * The recursion enumerates the remaining keys behind the pairs bound so
   * far: `Generate(opts, i, current)` is `current` extended by every
   * combination of the keys from `i` on.
   */
  lemma {:induction false} GenerateExtends(opts: Options, i: nat, current: Combo)
    requires DistinctKeys(opts) && BoundSoFar(opts, i, current)
    ensures Generate(opts, i, current) == Extend(current, Cartesian(opts[i..]))
    decreases |opts| - i, 1
  {
    if i == |opts| {
      assert opts[i..] == [];
      assert current + [] == current;
    } else {
      assert opts[i..][1..] == opts[i + 1..];
      GenerateEachExtends(opts, i, current, opts[i].1);
      ExtendBlocks(current, opts[i].0, opts[i].1, Cartesian(opts[i + 1..]));
    }
  }

  lemma {:induction false} GenerateEachExtends(opts: Options, i: nat, current: Combo, values: seq<string>)
    requires DistinctKeys(opts) && BoundSoFar(opts, i, current) && i < |opts|
    ensures GenerateEach(opts, i, current, values) == Flatten(current, opts[i].0, values, Cartesian(opts[i + 1..]))
    decreases |opts| - i, 0, |values|
  {
    if values != [] {
      DistinctKeysPrefix(opts, i, current);
      PutFresh(current, opts[i].0, values[0]);
      var next := current + [(opts[i].0, values[0])];
      assert BoundSoFar(opts, i + 1, next) by {
        forall j | 0 <= j < i + 1 ensures next[j].0 == opts[j].0 {
          if j < i { assert next[j] == current[j]; }
        }
      }
      GenerateExtends(opts, i + 1, next);
      GenerateEachExtends(opts, i, current, values[1..]);
    }
  }

  /** `generateCombinations` computes the reference enumeration. */
  lemma CombinationsAreCartesian(opts: Options)
    requires DistinctKeys(opts)
    ensures Combinations(opts) == Cartesian(opts)
  {
    assert BoundSoFar(opts, 0, []);
    GenerateExtends(opts, 0, []);
    assert opts[0..] == opts;
    var c := Cartesian(opts);
    forall n | 0 <= n < |c| ensures Extend([], c)[n] == c[n] {
      assert [] + c[n] == c[n];
    }
  }

  /**
   * The properties of `generateCombinations` together: the count is the
   * product of the list lengths (one empty combination for no keys), and a
   * combination is listed exactly when it chooses a listed value for every key.
   */
  lemma CombinationsSpec(opts: Options)
    requires DistinctKeys(opts)
    ensures |Combinations(opts)| == ChoiceCount(opts)
    ensures opts == [] ==> Combinations(opts) == [[]]
    ensures forall c :: c in Combinations(opts) <==> Chooses(opts, c)
  {
    CombinationsAreCartesian(opts);
    CartesianCount(opts);
    forall c ensures c in Combinations(opts) <==> Chooses(opts, c) {
      CartesianMembers(opts, c);
    }
  }

  // ---------------------------------------------------------------------
  // createVariant's record

  /** `$additionalData`: the overrides a caller may pass for price, weight and stock. */
  datatype Extra = Extra(price: Option<int>, weight: Option<int>, stock: Option<int>)

  const NoExtra: Extra := Extra(None, None, None)

  /** The SKU suffix: `'-' . strtoupper($value)` for each attribute, in order. */
  function SkuSuffix(attrs: Combo): string
    decreases |attrs|
  {
    if attrs == [] then "" else SkuSuffix(attrs[..|attrs| - 1]) + "-" + Upper(attrs[|attrs| - 1].1)
  }

  /** The upper-cased values, in order. */
  function UpperValues(attrs: Combo): (r: seq<string>)
    ensures |r| == |attrs|
    decreases |attrs|
  {
    if attrs == [] then [] else UpperValues(attrs[..|attrs| - 1]) + [Upper(attrs[|attrs| - 1].1)]
  }

  function UcFirstValues(attrs: Combo): (r: seq<string>)
    ensures |r| == |attrs|
    decreases |attrs|
  {
    if attrs == [] then [] else [UcFirst(attrs[0].1)] + UcFirstValues(attrs[1..])
  }

  /** `$this->title . ' - ' . implode(' / ', array_map('ucfirst', array_values($attributes)))`. */
  function VariantTitle(parentTitle: string, attrs: Combo): string {
    parentTitle + " - " + Join(UcFirstValues(attrs), " / ")
  }

  /**
   * The unsaved variant record `createVariant` builds. Fields it does not
   * set keep the defaults of a new product.
   */
  function VariantRecord(parent: Product, attrs: Combo, extra: Extra): Product {
    NewProduct.(
      sku := parent.sku + SkuSuffix(attrs),
      title := VariantTitle(parent.title, attrs),
      description := parent.description,
      price := extra.price.GetOr(parent.price),
      weight := extra.weight.GetOr(parent.weight),
      stock := Some(extra.stock.GetOr(0)),
      trackStock := parent.trackStock,
      status := "active",
      customAttributes := Merge(parent.customAttributes, attrs),
      isDigital := parent.isDigital)
  }

  /** The values are upper-cased without dashes: each one becomes one more SKU segment. */
  predicate DashFreeValues(attrs: Combo) {
    forall i :: 0 <= i < |attrs| ==> '-' !in Upper(attrs[i].1)
  }

  /** The variant SKU's dash segments are the parent's followed by one per attribute. */
  lemma {:induction false} SkuSuffixSegments(sku: string, attrs: Combo)
    requires DashFreeValues(attrs)
    ensures Explode(sku + SkuSuffix(attrs), '-') == Explode(sku, '-') + UpperValues(attrs)
    decreases |attrs|
  {
    if attrs != [] {
      var init := attrs[..|attrs| - 1];
      var u := Upper(attrs[|attrs| - 1].1);
      assert DashFreeValues(init) by {
        forall i | 0 <= i < |init| ensures '-' !in Upper(init[i].1) { assert init[i] == attrs[i]; }
      }
      SkuSuffixSegments(sku, init);
      assert SkuSuffix(attrs) == SkuSuffix(init) + "-" + u;
      assert sku + SkuSuffix(attrs) == (sku + SkuSuffix(init)) + ['-'] + u;
      ExplodeJoin(sku + SkuSuffix(init), u, '-');
      assert '-' !in u;
      ExplodeSingle(u, '-');
      assert UpperValues(attrs) == UpperValues(init) + [u];
      calc {
        Explode(sku + SkuSuffix(attrs), '-');
        Explode(sku + SkuSuffix(init), '-') + Explode(u, '-');
        Explode(sku, '-') + UpperValues(init) + [u];
        Explode(sku, '-') + UpperValues(attrs);
      }
    } else {
      assert sku + SkuSuffix(attrs) == sku;
    }
  }

  /**
   * What `createVariant` derives: the SKU extends the parent's by one
   * segment per attribute, price and weight fall back to the parent's, stock
   * to 0, and in the custom attributes the given attributes win over the
   * parent's.
   */
  lemma VariantRecordDerivation(parent: Product, attrs: Combo, extra: Extra)
    requires DistinctKeys(attrs)
    ensures var v := VariantRecord(parent, attrs, extra);
      && StartsWith(v.sku, parent.sku)
      && (DashFreeValues(attrs) ==> Explode(v.sku, '-') == Explode(parent.sku, '-') + UpperValues(attrs))
      && (extra.price.None? ==> v.price == parent.price)
      && (extra.weight.None? ==> v.weight == parent.weight)
      && (extra.stock.None? ==> v.stock == Some(0))
      && v.trackStock == parent.trackStock && v.isDigital == parent.isDigital
      && v.description == parent.description && v.status == "active"
      && (forall k :: Get(v.customAttributes, k) ==
            if k in Keys(attrs) then Get(attrs, k) else Get(parent.customAttributes, k))
  {
    var v := VariantRecord(parent, attrs, extra);
    assert v.sku[..|parent.sku|] == parent.sku;
    if DashFreeValues(attrs) { SkuSuffixSegments(parent.sku, attrs); }
    forall k ensures Get(v.customAttributes, k) ==
                     if k in Keys(attrs) then Get(attrs, k) else Get(parent.customAttributes, k) {
      MergeGet(parent.customAttributes, attrs, k);
    }
  }

  // ---------------------------------------------------------------------
  // createVariantMatrix's price modifier

  /** Price modifiers per attribute type and value. */
  type Modifiers = Assoc<Assoc<int>>

  /** `$priceModifiers[$type][$value]` when set, else nothing to add. */
  function ModifierOf(mods: Modifiers, attrType: string, value: string): int {
    match Get(mods, attrType)
    case None => 0
    case Some(inner) => Get(inner, value).GetOr(0)
  }

  /** The sum over the combination's own (type, value) pairs. */
  function ModifierSum(combo: Combo, mods: Modifiers): int
    decreases |combo|
  {
    if combo == [] then 0
    else ModifierSum(combo[..|combo| - 1], mods) + ModifierOf(mods, combo[|combo| - 1].0, combo[|combo| - 1].1)
  }

  /** The overrides for one combination: a price only when the modifier is non-zero. */
  function MatrixExtra(parent: Product, combo: Combo, mods: Modifiers): Extra {
    var m := ModifierSum(combo, mods);
    if m != 0 then Extra(Some(parent.price + m), None, None) else NoExtra
  }

  /** In both branches the variant costs the parent price plus the combination's modifier. */
  lemma MatrixPrice(parent: Product, combo: Combo, mods: Modifiers)
    ensures VariantRecord(parent, combo, MatrixExtra(parent, combo, mods)).price
         == parent.price + ModifierSum(combo, mods)
  {
  }

  /** A modifier set for a (type, value) pair that is not in the combination. */
  function WithModifier(mods: Modifiers, attrType: string, value: string, m: int): Modifiers {
    Put(mods, attrType, Put(Get(mods, attrType).GetOr([]), value, m))
  }

  /** Modifiers for pairs outside the combination do not change its sum. */
  lemma {:induction false} OtherModifiersIgnored(combo: Combo, mods: Modifiers, attrType: string, value: string, m: int)
    requires forall i :: 0 <= i < |combo| ==> combo[i] != (attrType, value)
    ensures ModifierSum(combo, WithModifier(mods, attrType, value, m)) == ModifierSum(combo, mods)
    decreases |combo|
  {
    if combo != [] {
      var init := combo[..|combo| - 1];
      var (t, v) := combo[|combo| - 1];
      OtherModifiersIgnored(init, mods, attrType, value, m);
      var mods' := WithModifier(mods, attrType, value, m);
      PutGet(mods, attrType, Put(Get(mods, attrType).GetOr([]), value, m), t);
      if t == attrType {
        PutGet(Get(mods, attrType).GetOr([]), value, m, v);
        assert v != value;
      }
      assert ModifierOf(mods', t, v) == ModifierOf(mods, t, v);
    }
  }
}
