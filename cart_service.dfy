/**
 * The cart operations of src/services/CartService.php, first as functions
 * of the item list (`Added`, `Updated`, `Removed`) with their properties,
 * then as the service class that performs them on the cached cart and
 * writes the cart's array to the session.
 */
module CartServices {
  import opened Wrappers
  import opened Text
  import opened Assoc
  import opened Carts

  // ---------------------------------------------------------------------
  // The operations on the item list

  /** The `addToCart` match: the same product id and `===`-identical options (same pairs, same order). */
  predicate SameLine(s: ItemState, productId: int, options: Assoc<string>) {
    s.productId == productId && s.options == options
  }

  /** The index of the first item `addToCart` would merge into. */
  function FirstLine(ss: seq<ItemState>, productId: int, options: Assoc<string>): (r: Option<nat>)
    ensures r.Some? ==>
      r.value < |ss| && SameLine(ss[r.value], productId, options)
      && forall j :: 0 <= j < r.value ==> !SameLine(ss[j], productId, options)
    ensures r.None? <==> forall j :: 0 <= j < |ss| ==> !SameLine(ss[j], productId, options)
    decreases |ss|
  {
    if ss == [] then None
    else if SameLine(ss[0], productId, options) then Some(0)
    else match FirstLine(ss[1..], productId, options)
      case None => None
      case Some(k) => Some(k + 1)
  }

  /** The index of the first item with the id. */
  function FirstWithId(ss: seq<ItemState>, id: string): (r: Option<nat>)
    ensures r.Some? ==> r.value < |ss| && ss[r.value].id == id && forall j :: 0 <= j < r.value ==> ss[j].id != id
    ensures r.None? <==> forall j :: 0 <= j < |ss| ==> ss[j].id != id
    decreases |ss|
  {
    if ss == [] then None
    else if ss[0].id == id then Some(0)
    else match FirstWithId(ss[1..], id)
      case None => None
      case Some(k) => Some(k + 1)
  }

  /** The item `addToCart` appends: no id is configured, so `init` generates one. */
  function NewItem(productId: int, quantity: int, options: Assoc<string>, entropy: string): ItemState {
    ItemState(InitialId("", ItemPrefix, entropy), productId, quantity, options, None, None)
  }

  /** `addToCart`: merge into the first item of the same line, else append a new item. */
  function Added(ss: seq<ItemState>, productId: int, quantity: int, options: Assoc<string>, entropy: string): seq<ItemState> {
    match FirstLine(ss, productId, options)
    case Some(k) => ss[k := ss[k].(quantity := ss[k].quantity + quantity)]
    case None => ss + [NewItem(productId, quantity, options, entropy)]
  }

  /** `updateQuantity`: `None` (false) when no item has the id, else the first one removed or re-quantified. */
  function Updated(ss: seq<ItemState>, id: string, quantity: int): Option<seq<ItemState>> {
    match FirstWithId(ss, id)
    case None => None
    case Some(k) =>
      if quantity <= 0 then Some(ss[..k] + ss[k + 1..])
      else Some(ss[k := ss[k].(quantity := quantity)])
  }

  /** `removeFromCart`: `None` (false) when no item has the id, else the first such item removed. */
  function Removed(ss: seq<ItemState>, id: string): Option<seq<ItemState>> {
    match FirstWithId(ss, id)
    case None => None
    case Some(k) => Some(ss[..k] + ss[k + 1..])
  }

  /** No two items are the same line; `addToCart` is what keeps this. */
  predicate NoDuplicateLines(ss: seq<ItemState>) {
    forall i, j :: 0 <= i < j < |ss| ==> !SameLine(ss[j], ss[i].productId, ss[i].options)
  }

  /** Every item passes `rules()`. */
  predicate AllValid(ss: seq<ItemState>) {
    forall i :: 0 <= i < |ss| ==> ItemViolations(ss[i]) == []
  }

  // ---------------------------------------------------------------------
  // Properties of the operations

  /**
   * `addToCart` raises the item count by exactly `quantity`, whatever its
   * sign, and either merges (same length, only the first matching item's
   * quantity changes) or appends one new item at the end.
   */
  lemma AddedSpec(ss: seq<ItemState>, productId: int, quantity: int, options: Assoc<string>, entropy: string)
    ensures var r := Added(ss, productId, quantity, options, entropy);
      && QuantitySum(r) == QuantitySum(ss) + quantity
      && ((exists j :: 0 <= j < |ss| && SameLine(ss[j], productId, options)) <==> |r| == |ss|)
      && (|r| == |ss| ==>
            exists k :: 0 <= k < |ss| && SameLine(ss[k], productId, options)
              && r[k] == ss[k].(quantity := ss[k].quantity + quantity)
              && forall j :: 0 <= j < |ss| && j != k ==> r[j] == ss[j])
      && (|r| != |ss| ==>
            r[..|ss|] == ss && r[|ss|].productId == productId
            && r[|ss|].quantity == quantity && r[|ss|].options == options)
  {
    var r := Added(ss, productId, quantity, options, entropy);
    match FirstLine(ss, productId, options)
    case Some(k) =>
      QuantitySumUpdate(ss, k, ss[k].(quantity := ss[k].quantity + quantity));
    case None =>
      QuantitySumSnoc(ss, NewItem(productId, quantity, options, entropy));
      assert r[..|ss|] == ss;
  }

  /** `addToCart` never creates a second item of the same line. */
  lemma AddedNoDuplicates(ss: seq<ItemState>, productId: int, quantity: int, options: Assoc<string>, entropy: string)
    requires NoDuplicateLines(ss)
    ensures NoDuplicateLines(Added(ss, productId, quantity, options, entropy))
  {
    var r := Added(ss, productId, quantity, options, entropy);
    match FirstLine(ss, productId, options)
    case Some(k) =>
      assert forall i :: 0 <= i < |ss| ==> r[i].productId == ss[i].productId && r[i].options == ss[i].options;
    case None =>
      forall i, j | 0 <= i < j < |r| ensures !SameLine(r[j], r[i].productId, r[i].options) {
        if j == |ss| {
          assert !SameLine(ss[i], productId, options);
        }
      }
  }

  /** Adding a positive quantity keeps every item valid. */
  lemma AddedValid(ss: seq<ItemState>, productId: int, quantity: int, options: Assoc<string>, entropy: string)
    requires AllValid(ss) && quantity >= 1
    ensures AllValid(Added(ss, productId, quantity, options, entropy))
  {
    var r := Added(ss, productId, quantity, options, entropy);
    if FirstLine(ss, productId, options).None? {
      var item := r[|ss|];
      assert item.id[0] == 'i';
    }
  }

  /** An item added with quantity 0 or less fails validation: the service does not check it. */
  lemma AddedUnchecked(ss: seq<ItemState>, productId: int, quantity: int, options: Assoc<string>, entropy: string)
    requires quantity < 1 && FirstLine(ss, productId, options).None?
    ensures !AllValid(Added(ss, productId, quantity, options, entropy))
  {
    var r := Added(ss, productId, quantity, options, entropy);
    assert ItemViolations(r[|ss|]) != [];
  }

  /**
   * `updateQuantity`: false exactly when no item has the id; otherwise the
   * first such item is removed (quantity 0 or less) or given the quantity,
   * the rest keep their order, and the count changes accordingly.
   */
  lemma UpdatedSpec(ss: seq<ItemState>, id: string, quantity: int)
    ensures Updated(ss, id, quantity).None? <==> forall j :: 0 <= j < |ss| ==> ss[j].id != id
    ensures Updated(ss, id, quantity).Some? ==>
      var k := FirstWithId(ss, id).value;
      var r := Updated(ss, id, quantity).value;
      && (quantity <= 0 ==>
            |r| == |ss| - 1 && r[..k] == ss[..k] && r[k..] == ss[k + 1..]
            && QuantitySum(r) == QuantitySum(ss) - ss[k].quantity)
      && (quantity > 0 ==>
            |r| == |ss| && r[k].quantity == quantity && r[k].id == id
            && (forall j :: 0 <= j < |ss| && j != k ==> r[j] == ss[j])
            && QuantitySum(r) == QuantitySum(ss) - ss[k].quantity + quantity)
  {
    match FirstWithId(ss, id)
    case None =>
    case Some(k) =>
      if quantity <= 0 {
        QuantitySumRemove(ss, k);
        var r := ss[..k] + ss[k + 1..];
        assert r[..k] == ss[..k];
        assert r[k..] == ss[k + 1..];
      } else {
        QuantitySumUpdate(ss, k, ss[k].(quantity := quantity));
      }
  }

  /**
   * `removeFromCart`: false exactly when no item has the id; otherwise only
   * the first such item is gone, the others keep their order.
   */
  lemma RemovedSpec(ss: seq<ItemState>, id: string)
    ensures Removed(ss, id).None? <==> forall j :: 0 <= j < |ss| ==> ss[j].id != id
    ensures Removed(ss, id).Some? ==>
      var k := FirstWithId(ss, id).value;
      var r := Removed(ss, id).value;
      && |r| == |ss| - 1 && r[..k] == ss[..k] && r[k..] == ss[k + 1..]
      && (forall j :: 0 <= j < k ==> r[j].id != id)
      && QuantitySum(r) == QuantitySum(ss) - ss[k].quantity
  {
    match FirstWithId(ss, id)
    case None =>
    case Some(k) =>
      QuantitySumRemove(ss, k);
      var r := ss[..k] + ss[k + 1..];
      assert r[..k] == ss[..k];
      assert r[k..] == ss[k + 1..];
  }

  /** Removing an item keeps the lines distinct and the items valid. */
  lemma RemoveKeeps(ss: seq<ItemState>, k: nat)
    requires k < |ss|
    ensures NoDuplicateLines(ss) ==> NoDuplicateLines(ss[..k] + ss[k + 1..])
    ensures AllValid(ss) ==> AllValid(ss[..k] + ss[k + 1..])
  {
    var r := ss[..k] + ss[k + 1..];
    assert forall i :: 0 <= i < |r| ==> r[i] == ss[if i < k then i else i + 1];
  }

  /** `updateQuantity` and `removeFromCart` keep the lines distinct and the items valid. */
  lemma UpdatedKeeps(ss: seq<ItemState>, id: string, quantity: int)
    requires Updated(ss, id, quantity).Some?
    ensures NoDuplicateLines(ss) ==> NoDuplicateLines(Updated(ss, id, quantity).value)
    ensures AllValid(ss) ==> AllValid(Updated(ss, id, quantity).value)
  {
    var k := FirstWithId(ss, id).value;
    if quantity <= 0 {
      RemoveKeeps(ss, k);
    }
  }

  lemma RemovedKeeps(ss: seq<ItemState>, id: string)
    requires Removed(ss, id).Some?
    ensures NoDuplicateLines(ss) ==> NoDuplicateLines(Removed(ss, id).value)
    ensures AllValid(ss) ==> AllValid(Removed(ss, id).value)
  {
    RemoveKeeps(ss, FirstWithId(ss, id).value);
  }

  // ---------------------------------------------------------------------
  // The service

  class CartService {
    /** `_cart`, loaded. */
    var cart: Cart
    /** The session value under `stormtales_cart`. */
    var session: Option<CartArray>

    ghost predicate Valid()
      reads this, cart
    {
      DistinctItems(cart.items)
    }

    constructor (cart: Cart, session: Option<CartArray>)
      requires DistinctItems(cart.items)
      ensures this.cart == cart && this.session == session && Valid()
    {
      this.cart := cart;
      this.session := session;
    }

    /** `_saveCart`: the session gets the cart's array, and `_cart` is the cart saved. */
    method SaveCart(c: Cart, entries: map<int, Entry>)
      requires DistinctItems(c.items)
      modifies this, c.items
      ensures cart == c && session == Some(CartArray(c.id, ArraysOf(old(c.Contents()), entries), c.metadata))
      ensures c.Contents() == MemoAll(old(c.Contents()), entries)
      ensures session == Some(c.Snapshot(entries))
    {
      var a := c.ToArray(entries);
      session := Some(a);
      cart := c;
      MemoAllKeeps(old(c.Contents()), entries);
    }

    /** The `foreach` of `addToCart`: the first item of the same line. */
    static method FindLine(items: seq<CartItem>, productId: int, options: Assoc<string>) returns (k: Option<nat>)
      ensures k == FirstLine(StatesOf(items), productId, options)
    {
      StatesOfAt(items);
      var i := 0;
      while i < |items|
        invariant 0 <= i <= |items|
        invariant forall j :: 0 <= j < i ==> !SameLine(StatesOf(items)[j], productId, options)
      {
        if items[i].productId == productId && items[i].options == options {
          return Some(i);
        }
        i := i + 1;
      }
      return None;
    }

    /** The `foreach` of `updateQuantity` and `removeFromCart`: the first item with the id. */
    static method FindItem(items: seq<CartItem>, itemId: string) returns (k: Option<nat>)
      ensures k == FirstWithId(StatesOf(items), itemId)
    {
      StatesOfAt(items);
      var i := 0;
      while i < |items|
        invariant 0 <= i <= |items|
        invariant forall j :: 0 <= j < i ==> StatesOf(items)[j].id != itemId
      {
        if items[i].id == itemId {
          return Some(i);
        }
        i := i + 1;
      }
      return None;
    }

    /** `$item->quantity = ...` on the k-th item: only that item changes. */
    static method SetQuantity(c: Cart, k: nat, quantity: int)
      requires k < |c.items| && DistinctItems(c.items)
      modifies c.items[k]
      ensures c.Contents() == old(c.Contents())[k := old(c.Contents())[k].(quantity := quantity)]
    {
      StatesOfAt(c.items);
      c.items[k].quantity := quantity;
      StatesOfAt(c.items);
    }

    /** `unset($cart->items[$k])` then `array_values`: the k-th item goes, the others close up in order. */
    static method DropItem(c: Cart, k: nat)
      requires k < |c.items| && DistinctItems(c.items)
      modifies c
      ensures DistinctItems(c.items) && c.id == old(c.id) && c.metadata == old(c.metadata)
      ensures c.items == old(c.items[..k] + c.items[k + 1..])
      ensures c.Contents() == old(c.Contents()[..k] + c.Contents()[k + 1..])
    {
      ghost var before := c.Contents();
      StatesOfAt(c.items);
      c.items := c.items[..k] + c.items[k + 1..];
      StatesOfAt(c.items);
      assert forall j :: 0 <= j < |c.items| ==> c.items[j] == old(c.items)[if j < k then j else j + 1];
    }

    /** `$cart->items[] = $item`. */
    static method AppendItem(c: Cart, item: CartItem)
      requires DistinctItems(c.items) && item !in c.items
      modifies c
      ensures DistinctItems(c.items) && c.id == old(c.id) && c.metadata == old(c.metadata)
      ensures c.items == old(c.items) + [item]
      ensures c.Contents() == old(c.Contents()) + [item.State()]
    {
      StatesOfAt(c.items);
      c.items := c.items + [item];
      StatesOfAt(c.items);
    }

    /** The `foreach` of `addToCart` and the append after it. */
    static method MergeOrAppend(c: Cart, productId: int, quantity: int, options: Assoc<string>, entropy: string)
      requires DistinctItems(c.items)
      modifies c, c.items
      ensures DistinctItems(c.items) && c.id == old(c.id) && c.metadata == old(c.metadata)
      ensures c.Contents() == Added(old(c.Contents()), productId, quantity, options, entropy)
      ensures forall i :: 0 <= i < |c.items| ==> c.items[i] in old(c.items) || fresh(c.items[i])
    {
      StatesOfAt(c.items);
      var k := FindLine(c.items, productId, options);
      if k.Some? {
        ghost var before := c.Contents();
        assert Added(before, productId, quantity, options, entropy) == before[k.value := before[k.value].(quantity := before[k.value].quantity + quantity)];
        SetQuantity(c, k.value, c.items[k.value].quantity + quantity);
      } else {
        var item := new CartItem("", productId, quantity, options, entropy);
        AppendItem(c, item);
      }
    }

    /** `addToCart`: merge or append, save, and report success. */
    method AddToCart(productId: int, quantity: int, options: Assoc<string>, entries: map<int, Entry>, entropy: string)
      returns (ok: bool)
      requires Valid()
      modifies this, cart, cart.items
      ensures Valid() && ok && cart == old(cart) && cart.id == old(cart.id) && cart.metadata == old(cart.metadata)
      ensures cart.Contents() == MemoAll(Added(old(cart.Contents()), productId, quantity, options, entropy), entries)
      ensures session == Some(cart.Snapshot(entries))
    {
      var c := cart;
      MergeOrAppend(c, productId, quantity, options, entropy);
      SaveCart(c, entries);
      return true;
    }

    /** The body of the `updateQuantity` match: 0 or less removes the item, anything else becomes its quantity. */
    static method ChangeQuantity(c: Cart, k: nat, quantity: int)
      requires k < |c.items| && DistinctItems(c.items)
      modifies c, c.items
      ensures DistinctItems(c.items) && c.id == old(c.id) && c.metadata == old(c.metadata)
      ensures forall i :: 0 <= i < |c.items| ==> c.items[i] in old(c.items)
      ensures quantity <= 0 ==> c.Contents() == old(c.Contents()[..k] + c.Contents()[k + 1..])
      ensures quantity > 0 ==> c.Contents() == old(c.Contents())[k := old(c.Contents())[k].(quantity := quantity)]
    {
      if quantity <= 0 {
        DropItem(c, k);
      } else {
        SetQuantity(c, k, quantity);
      }
    }

    /** `updateQuantity`. */
    method UpdateQuantity(itemId: string, quantity: int, entries: map<int, Entry>) returns (ok: bool)
      requires Valid()
      modifies this, cart, cart.items
      ensures Valid() && cart == old(cart) && cart.id == old(cart.id) && cart.metadata == old(cart.metadata)
      ensures ok <==> Updated(old(cart.Contents()), itemId, quantity).Some?
      ensures ok ==>
        cart.Contents() == MemoAll(Updated(old(cart.Contents()), itemId, quantity).value, entries)
        && session == Some(cart.Snapshot(entries))
      ensures !ok ==> cart.items == old(cart.items) && cart.Contents() == old(cart.Contents()) && session == old(session)
    {
      var c := cart;
      var k := FindItem(c.items, itemId);
      if k.None? {
        return false;
      }
      ChangeQuantity(c, k.value, quantity);
      SaveCart(c, entries);
      return true;
    }

    /** `removeFromCart`. */
    method RemoveFromCart(itemId: string, entries: map<int, Entry>) returns (ok: bool)
      requires Valid()
      modifies this, cart, cart.items
      ensures Valid() && cart == old(cart) && cart.id == old(cart.id) && cart.metadata == old(cart.metadata)
      ensures ok <==> Removed(old(cart.Contents()), itemId).Some?
      ensures ok ==>
        cart.Contents() == MemoAll(Removed(old(cart.Contents()), itemId).value, entries)
        && session == Some(cart.Snapshot(entries))
      ensures !ok ==> cart.items == old(cart.items) && cart.Contents() == old(cart.Contents()) && session == old(session)
    {
      var c := cart;
      var k := FindItem(c.items, itemId);
      if k.None? {
        return false;
      }
      DropItem(c, k.value);
      SaveCart(c, entries);
      return true;
    }

    /** `clearCart`: a new empty cart, cached and saved. */
    method ClearCart(entries: map<int, Entry>, uniqid: nat -> string)
      modifies this
      ensures Valid() && fresh(cart) && cart.items == [] && cart.metadata == []
      ensures cart.id == CartPrefix + uniqid(0)
      ensures session == Some(CartArray(cart.id, [], []))
    {
      var c := new Cart("", [], [], uniqid);
      SaveCart(c, entries);
    }

    /** `getItemCount`: the sum of the quantities of the cart's items. */
    method GetItemCount() returns (count: int)
      ensures count == QuantitySum(cart.Contents())
    {
      count := SumQuantities(cart.items);
    }

    /** `getTotal`: the sum of the item subtotals; the prices are memoised on the way. */
    method GetTotal(entries: map<int, Entry>) returns (total: int)
      requires Valid()
      modifies cart.items
      ensures total == SubtotalSum(old(cart.Contents()), entries)
      ensures cart.Contents() == MemoAll(old(cart.Contents()), entries)
    {
      total := SumSubtotals(cart.items, entries);
    }
  }
}
