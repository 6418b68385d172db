/**
 * The session cart of src/models/CartItem.php and src/models/Cart.php. A
 * cart item memoises the catalog entry it sells and that entry's price; a
 * cart holds its items as objects, in order. Prices are integers (cents),
 * and the catalog of enabled entries is a parameter of every price lookup.
 */
module Carts {
  import opened Wrappers
  import opened Text
  import opened Assoc

  /** A catalog entry as `Entry::find()` returns it: its status and its optional `price` field. */
  datatype Entry = Entry(enabled: bool, price: Option<int>)

  /** `Entry::find()->id($id)->status('enabled')->one()`. */
  function FindEntry(entries: map<int, Entry>, id: int): (r: Option<Entry>)
    ensures r.Some? ==> id in entries && r.value == entries[id] && r.value.enabled
    ensures r.None? ==> id !in entries || !entries[id].enabled
  {
    if id in entries && entries[id].enabled then Some(entries[id]) else None
  }

  /** `(float) $product->price` when the entry exists and has a price, else 0. */
  function EntryPrice(product: Option<Entry>): int {
    if product.Some? && product.value.price.Some? then product.value.price.value else 0
  }

  /**
   * The `init` rule of both models: an id PHP's `empty` rejects ("" or "0")
   * is replaced by `uniqid($prefix, true)`, whose random part is `entropy`.
   */
  function InitialId(id: string, prefix: string, entropy: string): (r: string)
    ensures Truthy(id) ==> r == id
    ensures !Truthy(id) ==> r == prefix + entropy
  {
    if Truthy(id) then id else prefix + entropy
  }

  const ItemPrefix: string := "item_"
  const CartPrefix: string := "cart_"

  /** Every field of a cart item, the two memo caches included (`None` is `null`). */
  datatype ItemState = ItemState(
    id: string,
    productId: int,
    quantity: int,
    options: Assoc<string>,
    cachedPrice: Option<int>,
    cachedProduct: Option<Entry>)

  /** What `getProduct` returns: the cached entry, else a fresh lookup. */
  function ProductOf(s: ItemState, entries: map<int, Entry>): Option<Entry> {
    if s.cachedProduct.Some? then s.cachedProduct else FindEntry(entries, s.productId)
  }

  /** What `getPrice` returns: the cached price, else the looked-up entry's price. */
  function Price(s: ItemState, entries: map<int, Entry>): int {
    match s.cachedPrice
    case Some(p) => p
    case None => EntryPrice(ProductOf(s, entries))
  }

  /** The state `getPrice` leaves behind: both caches filled as far as the call fills them. */
  function Memo(s: ItemState, entries: map<int, Entry>): (r: ItemState)
    ensures r.cachedPrice.Some?
    ensures r.(cachedPrice := s.cachedPrice, cachedProduct := s.cachedProduct) == s
  {
    if s.cachedPrice.Some? then s
    else
      var product := ProductOf(s, entries);
      s.(cachedProduct := product, cachedPrice := Some(EntryPrice(product)))
  }

  /** The array `toArray` builds for an item. */
  datatype ItemArray = ItemArray(
    id: string, productId: int, quantity: int, options: Assoc<string>, price: int, subtotal: int)

  function AsArray(s: ItemState, entries: map<int, Entry>): (a: ItemArray)
    ensures a.id == s.id && a.productId == s.productId && a.quantity == s.quantity && a.options == s.options
    ensures a.price == Price(s, entries) && a.subtotal == a.price * a.quantity
  {
    var price := Price(s, entries);
    ItemArray(s.id, s.productId, s.quantity, s.options, price, price * s.quantity)
  }

  /** `trim($s) === ''` with PHP's default trimmed characters. */
  predicate Blank(s: string) {
    forall i :: 0 <= i < |s| ==> s[i] in {' ', '\t', '\n', '\r', '\0', '\U{000B}'}
  }

  /**
   * The attributes `rules()` rejects, in rule order: a blank `id` fails
   * `required`, a `quantity` below 1 fails `number` with `min => 1`.
   * `productId` and `quantity` are typed integers, so `required` and
   * `integer` cannot fail for them.
   */
  function ItemViolations(s: ItemState): (r: seq<string>)
    ensures r == [] <==> !Blank(s.id) && s.quantity >= 1
    ensures "id" in r <==> Blank(s.id)
    ensures "quantity" in r <==> s.quantity < 1
  {
    (if Blank(s.id) then ["id"] else []) + (if s.quantity < 1 then ["quantity"] else [])
  }

  // ---------------------------------------------------------------------
  // Sums over the items, the loops of getItemCount and getSubtotal

  function QuantitySum(ss: seq<ItemState>): int
    decreases |ss|
  {
    if ss == [] then 0 else QuantitySum(ss[..|ss| - 1]) + ss[|ss| - 1].quantity
  }

  function SubtotalSum(ss: seq<ItemState>, entries: map<int, Entry>): int
    decreases |ss|
  {
    if ss == [] then 0
    else
      var last := ss[|ss| - 1];
      SubtotalSum(ss[..|ss| - 1], entries) + Price(last, entries) * last.quantity
  }

  /** Every item after `toArray`, `getSubtotal` or `getPrice` has run on it. */
  function MemoAll(ss: seq<ItemState>, entries: map<int, Entry>): (r: seq<ItemState>)
    ensures |r| == |ss|
    ensures forall i :: 0 <= i < |ss| ==> r[i] == Memo(ss[i], entries)
  {
    seq(|ss|, i requires 0 <= i < |ss| => Memo(ss[i], entries))
  }

  function ArraysOf(ss: seq<ItemState>, entries: map<int, Entry>): (r: seq<ItemArray>)
    ensures |r| == |ss|
    ensures forall i :: 0 <= i < |ss| ==> r[i] == AsArray(ss[i], entries)
  {
    seq(|ss|, i requires 0 <= i < |ss| => AsArray(ss[i], entries))
  }

  /** The array `Cart::toArray` builds. */
  datatype CartArray = CartArray(id: string, items: seq<ItemArray>, metadata: Assoc<string>)

  // ---------------------------------------------------------------------
  // Lemmas about items

  /**
   * `getPrice` is memoised: after one call the price no longer depends on
   * the catalog, a second call changes nothing, and the price returned is
   * the one the first call computed.
   */
  lemma MemoStable(s: ItemState, entries: map<int, Entry>, later: map<int, Entry>)
    ensures Price(Memo(s, entries), later) == Price(s, entries)
    ensures Memo(Memo(s, entries), later) == Memo(s, entries)
  {
  }

  /** The price is 0 when the entry is missing, disabled or has no price, and nothing is cached yet. */
  lemma PriceWithoutEntry(s: ItemState, entries: map<int, Entry>)
    requires s.cachedPrice.None? && s.cachedProduct.None?
    requires s.productId !in entries || !entries[s.productId].enabled || entries[s.productId].price.None?
    ensures Price(s, entries) == 0
  {
  }

  /** `getOption` after `setOption`: the new value under its key, every other key unchanged. */
  lemma OptionAfterSet(options: Assoc<string>, key: string, value: string, other: string, default: string)
    ensures Get(Put(options, key, value), key).GetOr(default) == value
    ensures other != key ==> Get(Put(options, key, value), other).GetOr(default) == Get(options, other).GetOr(default)
  {
    PutGet(options, key, value, key);
    PutGet(options, key, value, other);
  }

  lemma QuantitySumSnoc(ss: seq<ItemState>, s: ItemState)
    ensures QuantitySum(ss + [s]) == QuantitySum(ss) + s.quantity
  {
    assert (ss + [s])[..|ss|] == ss;
  }

  lemma SubtotalSumSnoc(ss: seq<ItemState>, s: ItemState, entries: map<int, Entry>)
    ensures SubtotalSum(ss + [s], entries) == SubtotalSum(ss, entries) + Price(s, entries) * s.quantity
  {
    assert (ss + [s])[..|ss|] == ss;
  }

  /** One more item of a prefix adds that item's line total. */
  lemma SubtotalSumPrefix(ss: seq<ItemState>, i: nat, entries: map<int, Entry>)
    requires i < |ss|
    ensures SubtotalSum(ss[..i + 1], entries) == SubtotalSum(ss[..i], entries) + Price(ss[i], entries) * ss[i].quantity
  {
    assert ss[..i + 1] == ss[..i] + [ss[i]];
    SubtotalSumSnoc(ss[..i], ss[i], entries);
  }

  lemma {:induction false} QuantitySumAppend(a: seq<ItemState>, b: seq<ItemState>)
    ensures QuantitySum(a + b) == QuantitySum(a) + QuantitySum(b)
    decreases |b|
  {
    if b != [] {
      var n := |b| - 1;
      QuantitySumAppend(a, b[..n]);
      assert (a + b)[..|a + b| - 1] == a + b[..n];
    } else {
      assert a + b == a;
    }
  }

  /** A sequence is its items before, at and after `k`. */
  lemma SplitAt<T>(ss: seq<T>, k: nat)
    requires k < |ss|
    ensures ss == ss[..k] + [ss[k]] + ss[k + 1..]
  {
  }

  /** The quantity sum around one item. */
  lemma QuantitySumAround(a: seq<ItemState>, x: ItemState, b: seq<ItemState>)
    ensures QuantitySum(a + [x] + b) == QuantitySum(a) + x.quantity + QuantitySum(b)
  {
    QuantitySumAppend(a + [x], b);
    QuantitySumSnoc(a, x);
  }

  /** The quantity sum after one item's quantity changes. */
  lemma QuantitySumUpdate(ss: seq<ItemState>, k: nat, s: ItemState)
    requires k < |ss|
    ensures QuantitySum(ss[k := s]) == QuantitySum(ss) - ss[k].quantity + s.quantity
  {
    var a, b := ss[..k], ss[k + 1..];
    SplitAt(ss, k);
    assert ss[k := s] == a + [s] + b;
    QuantitySumAround(a, ss[k], b);
    QuantitySumAround(a, s, b);
  }

  /** The quantity sum after one item is removed. */
  lemma QuantitySumRemove(ss: seq<ItemState>, k: nat)
    requires k < |ss|
    ensures QuantitySum(ss[..k] + ss[k + 1..]) == QuantitySum(ss) - ss[k].quantity
  {
    SplitAt(ss, k);
    QuantitySumAround(ss[..k], ss[k], ss[k + 1..]);
    QuantitySumAppend(ss[..k], ss[k + 1..]);
  }

  /** Filling the caches changes neither the quantities nor the arrays `toArray` builds. */
  lemma {:induction false} MemoAllKeeps(ss: seq<ItemState>, entries: map<int, Entry>)
    ensures QuantitySum(MemoAll(ss, entries)) == QuantitySum(ss)
    ensures SubtotalSum(MemoAll(ss, entries), entries) == SubtotalSum(ss, entries)
    ensures ArraysOf(MemoAll(ss, entries), entries) == ArraysOf(ss, entries)
    decreases |ss|
  {
    if ss != [] {
      var n := |ss| - 1;
      MemoAllKeeps(ss[..n], entries);
      assert MemoAll(ss, entries)[..n] == MemoAll(ss[..n], entries);
    }
  }

  // ---------------------------------------------------------------------
  // src/models/CartItem.php

  class CartItem {
    var id: string
    var productId: int
    var quantity: int
    var options: Assoc<string>
    var cachedPrice: Option<int>
    var cachedProduct: Option<Entry>

    function State(): ItemState
      reads this
    {
      ItemState(id, productId, quantity, options, cachedPrice, cachedProduct)
    }

    /** `new CartItem([...])`: the configured fields, then `init`. */
    constructor (id: string, productId: int, quantity: int, options: Assoc<string>, entropy: string)
      ensures State() == ItemState(InitialId(id, ItemPrefix, entropy), productId, quantity, options, None, None)
    {
      this.id := InitialId(id, ItemPrefix, entropy);
      this.productId := productId;
      this.quantity := quantity;
      this.options := options;
      cachedPrice := None;
      cachedProduct := None;
    }

    /** `getProduct`: look the entry up once; a failed lookup is retried on the next call. */
    method GetProduct(entries: map<int, Entry>) returns (product: Option<Entry>)
      modifies this
      ensures product == ProductOf(old(State()), entries)
      ensures State() == old(State()).(cachedProduct := product)
    {
      if cachedProduct.None? {
        cachedProduct := FindEntry(entries, productId);
      }
      product := cachedProduct;
    }

    /** `getPrice`. */
    method GetPrice(entries: map<int, Entry>) returns (price: int)
      modifies this
      ensures price == Price(old(State()), entries)
      ensures State() == Memo(old(State()), entries)
    {
      if cachedPrice.None? {
        var product := GetProduct(entries);
        if product.Some? && product.value.price.Some? {
          cachedPrice := Some(product.value.price.value);
        } else {
          cachedPrice := Some(0);
        }
      }
      price := cachedPrice.value;
    }

    /** `getSubtotal`: the price times the quantity. */
    method GetSubtotal(entries: map<int, Entry>) returns (subtotal: int)
      modifies this
      ensures subtotal == Price(old(State()), entries) * quantity && quantity == old(quantity)
      ensures State() == Memo(old(State()), entries)
    {
      var price := GetPrice(entries);
      subtotal := price * quantity;
    }

    /** `toArray`: the fields as stored, with the price and subtotal the getters compute. */
    method ToArray(entries: map<int, Entry>) returns (a: ItemArray)
      modifies this
      ensures a == AsArray(old(State()), entries)
      ensures State() == Memo(old(State()), entries)
    {
      var price := GetPrice(entries);
      var subtotal := GetSubtotal(entries);
      a := ItemArray(id, productId, quantity, options, price, subtotal);
    }

    /** `getOption`: `$this->options[$key] ?? $default`. */
    function GetOption(key: string, default: string): (r: string)
      reads this
      ensures key !in Keys(options) ==> r == default
      ensures key in Keys(options) ==> Some(r) == Get(options, key)
    {
      Get(options, key).GetOr(default)
    }

    /** `setOption`: `$this->options[$key] = $value`. */
    method SetOption(key: string, value: string)
      modifies this
      ensures State() == old(State()).(options := Put(old(options), key, value))
      ensures GetOption(key, "") == value
    {
      options := Put(options, key, value);
      OptionAfterSet(old(options), key, value, key, "");
    }
  }

  // ---------------------------------------------------------------------
  // src/models/Cart.php

  /** An element of the `items` array `Cart` is configured with: an item object, or the array to build one from. */
  datatype RawItem =
    | Built(item: CartItem)
    | Fields(id: string, productId: int, quantity: int, options: Assoc<string>)

  /** The states of the items, in order. */
  function StatesOf(items: seq<CartItem>): (r: seq<ItemState>)
    reads items
    ensures |r| == |items|
    decreases |items|
  {
    if items == [] then [] else StatesOf(items[..|items| - 1]) + [items[|items| - 1].State()]
  }

  lemma {:induction false} StatesOfAt(items: seq<CartItem>)
    ensures |StatesOf(items)| == |items|
    ensures forall i :: 0 <= i < |items| ==> StatesOf(items)[i] == items[i].State()
    decreases |items|
  {
    if items != [] {
      var n := |items| - 1;
      StatesOfAt(items[..n]);
      assert forall i :: 0 <= i < n ==> items[..n][i] == items[i];
    }
  }

  predicate DistinctItems(items: seq<CartItem>) {
    forall i, j :: 0 <= i < j < |items| ==> items[i] != items[j]
  }

  /** No item object is passed in twice. */
  predicate DistinctBuilt(raw: seq<RawItem>) {
    forall i, j :: 0 <= i < j < |raw| && raw[i].Built? && raw[j].Built? ==> raw[i].item != raw[j].item
  }

  class Cart {
    var id: string
    var items: seq<CartItem>
    var metadata: Assoc<string>

    function Contents(): seq<ItemState>
      reads this, items
    {
      StatesOf(items)
    }

    /** The array `toArray` returns, as a function of the current state. */
    function Snapshot(entries: map<int, Entry>): CartArray
      reads this, items
    {
      CartArray(id, ArraysOf(Contents(), entries), metadata)
    }

    /** The convert loop of `init`: arrays become new items, item objects are kept, order and count are kept. */
    static method ConvertItems(raw: seq<RawItem>, uniqid: nat -> string) returns (items: seq<CartItem>)
      ensures |items| == |raw|
      ensures forall i :: 0 <= i < |raw| && raw[i].Built? ==> items[i] == raw[i].item
      ensures forall i :: 0 <= i < |raw| && raw[i].Fields? ==>
        fresh(items[i]) && items[i].State() ==
          ItemState(InitialId(raw[i].id, ItemPrefix, uniqid(i + 1)), raw[i].productId, raw[i].quantity, raw[i].options, None, None)
      ensures DistinctBuilt(raw) ==> DistinctItems(items)
    {
      items := [];
      for i := 0 to |raw|
        invariant |items| == i
        invariant forall j :: 0 <= j < i && raw[j].Built? ==> items[j] == raw[j].item
        invariant forall j :: 0 <= j < i && raw[j].Fields? ==>
          fresh(items[j]) && items[j].State() ==
            ItemState(InitialId(raw[j].id, ItemPrefix, uniqid(j + 1)), raw[j].productId, raw[j].quantity, raw[j].options, None, None)
        invariant DistinctBuilt(raw) ==> DistinctItems(items)
      {
        match raw[i]
        case Built(item) =>
          items := items + [item];
        case Fields(itemId, productId, quantity, options) =>
          var item := new CartItem(itemId, productId, quantity, options, uniqid(i + 1));
          items := items + [item];
      }
    }

    /** `new Cart([...])`: the configured fields, then `init`; the cart's own id is generated first. */
    constructor (id: string, raw: seq<RawItem>, metadata: Assoc<string>, uniqid: nat -> string)
      ensures this.id == InitialId(id, CartPrefix, uniqid(0)) && this.metadata == metadata
      ensures |items| == |raw|
      ensures forall i :: 0 <= i < |raw| && raw[i].Built? ==> items[i] == raw[i].item
      ensures forall i :: 0 <= i < |raw| && raw[i].Fields? ==>
        fresh(items[i]) && items[i].State() ==
          ItemState(InitialId(raw[i].id, ItemPrefix, uniqid(i + 1)), raw[i].productId, raw[i].quantity, raw[i].options, None, None)
      ensures DistinctBuilt(raw) ==> DistinctItems(items)
    {
      this.id := InitialId(id, CartPrefix, uniqid(0));
      var converted := ConvertItems(raw, uniqid);
      items := converted;
      this.metadata := metadata;
    }

    /** `isEmpty`. */
    predicate IsEmpty()
      reads this
    {
      items == []
    }

    /** `getItemCount`: the sum of the item quantities. */
    method GetItemCount() returns (count: int)
      ensures count == QuantitySum(Contents())
    {
      count := SumQuantities(items);
    }

    /** `getSubtotal`: the sum of the item subtotals; every price is memoised on the way. */
    method GetSubtotal(entries: map<int, Entry>) returns (total: int)
      requires DistinctItems(items)
      modifies items
      ensures total == SubtotalSum(old(Contents()), entries)
      ensures Contents() == MemoAll(old(Contents()), entries)
    {
      total := SumSubtotals(items, entries);
    }

    /** `toArray`: the same id and metadata, and the items' arrays in order. */
    method ToArray(entries: map<int, Entry>) returns (a: CartArray)
      requires DistinctItems(items)
      modifies items
      ensures a == CartArray(id, ArraysOf(old(Contents()), entries), metadata)
      ensures Contents() == MemoAll(old(Contents()), entries)
    {
      var arrays := ItemArrays(items, entries);
      a := CartArray(id, arrays, metadata);
    }
  }

  /** The `foreach` that adds up `$item->quantity`. */
  method SumQuantities(items: seq<CartItem>) returns (count: int)
    ensures count == QuantitySum(StatesOf(items))
  {
    StatesOfAt(items);
    ghost var states := StatesOf(items);
    count := 0;
    for i := 0 to |items|
      invariant count == QuantitySum(states[..i])
    {
      assert states[..i + 1] == states[..i] + [items[i].State()];
      QuantitySumSnoc(states[..i], items[i].State());
      count := count + items[i].quantity;
    }
    assert states[..|items|] == states;
  }

  /** The `foreach` that adds up `$item->getSubtotal()`. */
  method SumSubtotals(items: seq<CartItem>, entries: map<int, Entry>) returns (total: int)
    requires DistinctItems(items)
    modifies items
    ensures total == SubtotalSum(old(StatesOf(items)), entries)
    ensures StatesOf(items) == MemoAll(old(StatesOf(items)), entries)
  {
    StatesOfAt(items);
    ghost var before := StatesOf(items);
    total := 0;
    for i := 0 to |items|
      invariant forall j :: 0 <= j < |items| ==> items[j].State() == if j < i then Memo(before[j], entries) else before[j]
      invariant total == SubtotalSum(before[..i], entries)
    {
      var item := items[i];
      var subtotal := item.GetSubtotal(entries);
      SubtotalSumPrefix(before, i, entries);
      total := total + subtotal;
    }
    assert before[..|items|] == before;
    StatesOfAt(items);
  }

  /** The `foreach` of `Cart::toArray` that collects `$item->toArray()`. */
  method ItemArrays(items: seq<CartItem>, entries: map<int, Entry>) returns (arrays: seq<ItemArray>)
    requires DistinctItems(items)
    modifies items
    ensures arrays == ArraysOf(old(StatesOf(items)), entries)
    ensures StatesOf(items) == MemoAll(old(StatesOf(items)), entries)
  {
    StatesOfAt(items);
    ghost var before := StatesOf(items);
    arrays := [];
    for i := 0 to |items|
      invariant forall j :: 0 <= j < |items| ==> items[j].State() == if j < i then Memo(before[j], entries) else before[j]
      invariant arrays == ArraysOf(before[..i], entries)
    {
      var item := items[i];
      var itemArray := item.ToArray(entries);
      assert ArraysOf(before[..i + 1], entries) == ArraysOf(before[..i], entries) + [itemArray];
      arrays := arrays + [itemArray];
    }
    assert before[..|items|] == before;
    StatesOfAt(items);
  }

  /** With every quantity at least 1, the count of a list is at least its length. */
  lemma {:induction false} QuantitySumAtLeastLength(ss: seq<ItemState>)
    requires forall i :: 0 <= i < |ss| ==> ss[i].quantity >= 1
    ensures QuantitySum(ss) >= |ss|
    decreases |ss|
  {
    if ss != [] { QuantitySumAtLeastLength(ss[..|ss| - 1]); }
  }

  /**
   * `isEmpty`: an empty cart counts no items, costs nothing and has no item
   * arrays; when every quantity is at least 1, a cart is empty exactly when
   * its item count is 0.
   */
  lemma EmptyCart(c: Cart, entries: map<int, Entry>)
    ensures c.IsEmpty() <==> c.Contents() == []
    ensures c.IsEmpty() ==>
      QuantitySum(c.Contents()) == 0 && SubtotalSum(c.Contents(), entries) == 0 && ArraysOf(c.Contents(), entries) == []
    ensures (forall i :: 0 <= i < |c.Contents()| ==> c.Contents()[i].quantity >= 1) ==>
      (c.IsEmpty() <==> QuantitySum(c.Contents()) == 0)
  {
    if forall i :: 0 <= i < |c.Contents()| ==> c.Contents()[i].quantity >= 1 {
      QuantitySumAtLeastLength(c.Contents());
    }
  }
}
