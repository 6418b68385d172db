/**
 * The read side of the tag-encoded hierarchy in src/elements/Product.php:
 * `getParentProduct`, the upward walk of `getMainProduct` and the queue walk
 * of `getAllDescendants`. Both walks loop for ever on a cyclic hierarchy, so
 * they are modelled with a fuel bound: `None` means the bound ran out.
 */
module Hierarchy {
  import opened Wrappers
  import opened Text
  import opened Tags
  import opened Catalog

  /**
   * The `while` loop of `getMainProduct`: climb through parent products until
   * a main product is reached (`Some(Some(main))`) or the parent lookup
   * fails (`Some(None)`).
   */
  function Climb(db: Db, cur: Product, fuel: nat): Option<Option<Product>>
    decreases fuel
  {
    if IsMainProduct(db, cur.id) then Some(Some(cur))
    else if fuel == 0 then None
    else
      match ParentProduct(db, cur)
      case None => Some(None)
      case Some(up) => Climb(db, up, fuel - 1)
  }

  /**
   * The queue of `getAllDescendants`: take the head, list it, append its
   * variants to the back.
   */
  function Walk(db: Db, queue: seq<Product>, fuel: nat): Option<seq<Product>>
    decreases fuel
  {
    if queue == [] then Some([])
    else if fuel == 0 then None
    else
      match Walk(db, queue[1..] + Variants(db, queue[0].sku), fuel - 1)
      case None => None
      case Some(rest) => Some([queue[0]] + rest)
  }

  // ---------------------------------------------------------------------
  // getParentProduct

  /**
   * `getParentProduct` finds the stored product carrying the parent SKU, and
   * finds nothing for a main product, for a falsy parent SKU ("" or "0") and
   * for a SKU no product carries.
   */
  lemma ParentProductSpec(db: Db, p: Product)
    ensures ParentProduct(db, p).Some? ==>
      IsVariant(db, p.id) && ParentProduct(db, p).value in db.products
      && ParentProduct(db, p).value.sku == ParentSku(db, p.id).value
    ensures ParentProduct(db, p).None? <==>
      IsMainProduct(db, p.id) || !Truthy(ParentSku(db, p.id).value) || !HasSku(db, ParentSku(db, p.id).value)
  {
  }

  // ---------------------------------------------------------------------
  // getMainProduct

  /** The walk ends on a main product, or on nothing when a parent is missing. */
  lemma {:induction false} ClimbEndsOnMain(db: Db, cur: Product, fuel: nat)
    ensures Climb(db, cur, fuel).Some? && Climb(db, cur, fuel).value.Some? ==>
      IsMainProduct(db, Climb(db, cur, fuel).value.value.id)
      && (Climb(db, cur, fuel).value.value == cur || Climb(db, cur, fuel).value.value in db.products)
    decreases fuel
  {
    if !IsMainProduct(db, cur.id) && fuel > 0 {
      match ParentProduct(db, cur)
      case None =>
      case Some(up) =>
        ParentProductSpec(db, cur);
        ClimbEndsOnMain(db, up, fuel - 1);
    }
  }

  /** One step of the climb from a product that is not main. */
  lemma ClimbStep(db: Db, cur: Product, fuel: nat)
    requires !IsMainProduct(db, cur.id) && Climb(db, cur, fuel).Some?
    ensures fuel > 0
    ensures ParentProduct(db, cur).None? ==> Climb(db, cur, fuel) == Some(None)
    ensures ParentProduct(db, cur).Some? ==> Climb(db, cur, fuel) == Climb(db, ParentProduct(db, cur).value, fuel - 1)
  {
  }

  /** A main product is its own main product. */
  lemma ClimbMain(db: Db, cur: Product, fuel: nat)
    requires IsMainProduct(db, cur.id)
    ensures Climb(db, cur, fuel) == Some(Some(cur))
  {
  }

  /** A variant whose parent product is main has that parent as its main product. */
  lemma ClimbOneLevel(db: Db, v: Product, fuel: nat)
    requires IsVariant(db, v.id) && fuel >= 1
    requires ParentProduct(db, v).Some? && IsMainProduct(db, ParentProduct(db, v).value.id)
    ensures Climb(db, v, fuel) == Some(ParentProduct(db, v))
  {
    MainXorVariant(db, v.id);
  }

  /** More fuel never changes a finished walk. */
  lemma {:induction false} ClimbFuel(db: Db, cur: Product, fuel: nat, more: nat)
    requires Climb(db, cur, fuel).Some? && fuel <= more
    ensures Climb(db, cur, more) == Climb(db, cur, fuel)
    decreases fuel
  {
    if !IsMainProduct(db, cur.id) {
      match ParentProduct(db, cur)
      case None =>
      case Some(up) => ClimbFuel(db, up, fuel - 1, more - 1);
    }
  }

  /** A stored product that names itself as parent never reaches a main product. */
  lemma {:induction false} ClimbSelfCycle(db: Db, p: Product, fuel: nat)
    requires ParentSku(db, p.id) == Some(p.sku) && Truthy(p.sku)
    requires FindBySku(db, p.sku) == Some(p)
    ensures Climb(db, p, fuel).None?
    decreases fuel
  {
    if fuel > 0 {
      assert ParentProduct(db, p) == Some(p);
      ClimbSelfCycle(db, p, fuel - 1);
    }
  }

  // ---------------------------------------------------------------------
  // getAllDescendants

  /** The output starts with the queue: `getAllDescendants` starts with `getVariants`. */
  lemma {:induction false} WalkStartsWithQueue(db: Db, queue: seq<Product>, fuel: nat)
    requires Walk(db, queue, fuel).Some?
    ensures |queue| <= |Walk(db, queue, fuel).value|
    ensures Walk(db, queue, fuel).value[..|queue|] == queue
    decreases fuel
  {
    if queue != [] {
      var next := queue[1..] + Variants(db, queue[0].sku);
      WalkStartsWithQueue(db, next, fuel - 1);
      var rest := Walk(db, next, fuel - 1).value;
      assert Walk(db, queue, fuel).value == [queue[0]] + rest;
      ConsKeepsPrefix(queue, Variants(db, queue[0].sku), rest);
    }
  }

  /** Popping the head, appending, and putting the head back in front keeps the queue as a prefix. */
  lemma ConsKeepsPrefix<T>(queue: seq<T>, extra: seq<T>, rest: seq<T>)
    requires queue != []
    requires |queue[1..] + extra| <= |rest| && rest[..|queue[1..] + extra|] == queue[1..] + extra
    ensures |queue| <= |[queue[0]] + rest| && ([queue[0]] + rest)[..|queue|] == queue
  {
    var n := |queue| - 1;
    assert rest[..n] == (queue[1..] + extra)[..n] == queue[1..];
  }

  /** The output is closed under `getVariants`: each listed product's variants are listed too. */
  lemma {:induction false} WalkClosed(db: Db, queue: seq<Product>, fuel: nat)
    requires Walk(db, queue, fuel).Some?
    ensures var out := Walk(db, queue, fuel).value;
      forall i, v :: 0 <= i < |out| && v in Variants(db, out[i].sku) ==> v in out
    decreases fuel
  {
    if queue != [] {
      var next := queue[1..] + Variants(db, queue[0].sku);
      WalkClosed(db, next, fuel - 1);
      WalkStartsWithQueue(db, next, fuel - 1);
      var rest := Walk(db, next, fuel - 1).value;
      var out := [queue[0]] + rest;
      forall i, v | 0 <= i < |out| && v in Variants(db, out[i].sku) ensures v in out {
        if i == 0 {
          var k :| 0 <= k < |Variants(db, queue[0].sku)| && Variants(db, queue[0].sku)[k] == v;
          assert next[|queue| - 1 + k] == v;
          assert rest[|queue| - 1 + k] == v;
        } else {
          assert out[i] == rest[i - 1];
        }
      }
    }
  }

  /** Every listed product was queued at the start or is a variant of a product listed before it. */
  lemma {:induction false} WalkProvenance(db: Db, queue: seq<Product>, fuel: nat)
    requires Walk(db, queue, fuel).Some?
    ensures var out := Walk(db, queue, fuel).value;
      forall i :: 0 <= i < |out| ==> out[i] in queue || exists j :: 0 <= j < i && out[i] in Variants(db, out[j].sku)
    decreases fuel
  {
    if queue != [] {
      var next := queue[1..] + Variants(db, queue[0].sku);
      WalkProvenance(db, next, fuel - 1);
      var rest := Walk(db, next, fuel - 1).value;
      var out := [queue[0]] + rest;
      forall i | 0 <= i < |out| ensures out[i] in queue || exists j :: 0 <= j < i && out[i] in Variants(db, out[j].sku) {
        if i > 0 {
          assert out[i] == rest[i - 1];
          if rest[i - 1] in next {
            if rest[i - 1] !in queue[1..] {
              assert out[i] in Variants(db, out[0].sku);
            }
          } else {
            var j :| 0 <= j < i - 1 && rest[i - 1] in Variants(db, rest[j].sku);
            assert out[j + 1] == rest[j];
          }
        }
      }
    }
  }

  /** More fuel never changes a finished walk. */
  lemma {:induction false} WalkFuel(db: Db, queue: seq<Product>, fuel: nat, more: nat)
    requires Walk(db, queue, fuel).Some? && fuel <= more
    ensures Walk(db, queue, more) == Walk(db, queue, fuel)
    decreases fuel
  {
    if queue != [] {
      WalkFuel(db, queue[1..] + Variants(db, queue[0].sku), fuel - 1, more - 1);
    }
  }

  /** A product among its own variants keeps the walk going for ever. */
  lemma {:induction false} WalkSelfCycle(db: Db, queue: seq<Product>, p: Product, fuel: nat)
    requires p in queue && p in Variants(db, p.sku)
    ensures Walk(db, queue, fuel).None?
    decreases fuel
  {
    if fuel > 0 {
      var next := queue[1..] + Variants(db, queue[0].sku);
      if p == queue[0] {
        assert p in next;
      } else {
        assert p in queue[1..];
      }
      WalkSelfCycle(db, next, p, fuel - 1);
    }
  }

  // Each descendant once

  /** No element is listed twice. */
  predicate Distinct<T(==)>(s: seq<T>) {
    forall i, j :: 0 <= i < j < |s| ==> s[i] != s[j]
  }

  lemma DistinctAppend<T>(a: seq<T>, b: seq<T>)
    ensures Distinct(a + b) <==> Distinct(a) && Distinct(b) && (forall x :: x in a ==> x !in b)
  {
    var ab := a + b;
    if Distinct(ab) {
      forall i, j | 0 <= i < j < |a| ensures a[i] != a[j] {
        assert a[i] == ab[i] && a[j] == ab[j];
      }
      forall i, j | 0 <= i < j < |b| ensures b[i] != b[j] {
        assert b[i] == ab[|a| + i] && b[j] == ab[|a| + j];
      }
      forall x | x in a ensures x !in b {
        var i :| 0 <= i < |a| && a[i] == x;
        forall j | 0 <= j < |b| ensures b[j] != x {
          assert ab[i] == x && ab[|a| + j] == b[j];
        }
      }
    }
    if Distinct(a) && Distinct(b) && (forall x :: x in a ==> x !in b) {
      forall i, j | 0 <= i < j < |ab| ensures ab[i] != ab[j] {
        if j < |a| {
          assert ab[i] == a[i] && ab[j] == a[j];
        } else if |a| <= i {
          assert ab[i] == b[i - |a|] && ab[j] == b[j - |a|];
        } else {
          assert ab[i] == a[i] && ab[j] == b[j - |a|];
          assert ab[i] in a && ab[j] in b;
        }
      }
    }
  }

  /** Filtering a list without repeats gives a list without repeats. */
  lemma {:induction false} ProductsInDistinct(db: Db, ps: seq<Product>, t: TagId)
    requires Distinct(ps)
    ensures Distinct(ProductsIn(db, ps, t))
  {
    if ps != [] {
      var tail := ps[1..];
      assert Distinct(tail) by {
        forall i, j | 0 <= i < j < |tail| ensures tail[i] != tail[j] {
          assert tail[i] == ps[i + 1] && tail[j] == ps[j + 1];
        }
      }
      ProductsInDistinct(db, tail, t);
      var head := if Related(db, ps[0].id, t) then [ps[0]] else [];
      assert ps[0] !in tail;
      forall x | x in head ensures x !in ProductsIn(db, tail, t) {
        ProductsInMembers(db, tail, t, x);
      }
      DistinctAppend(head, ProductsIn(db, tail, t));
    }
  }

  /** The variants of one SKU are listed without repeats. */
  lemma VariantsDistinct(db: Db, sku: string)
    requires WellFormed(db)
    ensures Distinct(Variants(db, sku))
  {
    match FindTag(db, (Group.Hierarchy, ParentSlug(sku)))
    case None =>
    case Some(t) => ProductsInDistinct(db, db.products, t);
  }

  /** Two different stored products have different SKUs. */
  lemma SkuDiffers(db: Db, p: Product, q: Product)
    requires WellFormed(db) && p in db.products && q in db.products && p != q
    ensures p.sku != q.sku
  {
    var i :| 0 <= i < |db.products| && db.products[i] == p;
    var j :| 0 <= j < |db.products| && db.products[j] == q;
    assert i != j;
  }

  /**
   * No product is a variant of two SKUs: a product carries at most one
   * `parent-<sku>` tag that has variants listed under it.
   */
  ghost predicate SingleParent(db: Db) {
    forall s, s', v :: v in Variants(db, s) && v in Variants(db, s') ==> s == s'
  }

  /** The hierarchy is acyclic: some rank on SKUs grows along every parent-to-variant link. */
  ghost predicate Ranked(db: Db, rank: string -> nat) {
    forall s, v :: v in Variants(db, s) ==> rank(s) < rank(v.sku)
  }

  /** A variant of the product at the head of the queue is neither listed nor queued yet. */
  lemma KidUnseen(db: Db, root: string, rank: string -> nat, done: seq<Product>, queue: seq<Product>, x: Product)
    requires WellFormed(db) && SingleParent(db) && Ranked(db, rank)
    requires queue != [] && x in Variants(db, queue[0].sku)
    requires forall y :: y in done ==> y !in queue
    requires forall y :: y in done + queue ==> y in db.products && rank(root) < rank(y.sku)
    requires forall y :: y in done + queue ==> y in Variants(db, root) || exists z :: z in done && y in Variants(db, z.sku)
    ensures x !in done + queue && x in db.products && rank(root) < rank(x.sku)
  {
    var h := queue[0];
    assert h in done + queue;
    VariantsMembers(db, h.sku, x);
    assert h.sku != root;
    assert x !in Variants(db, root);
    forall y | y in done ensures x !in Variants(db, y.sku) {
      SkuDiffers(db, y, h);
    }
  }

  /** One step of the walk keeps every entry reached from `root` or from a listed product. */
  lemma ReachedStep(db: Db, root: string, done: seq<Product>, queue: seq<Product>)
    requires queue != []
    requires forall y :: y in done + queue ==> y in Variants(db, root) || exists z :: z in done && y in Variants(db, z.sku)
    ensures forall y :: y in (done + [queue[0]]) + (queue[1..] + Variants(db, queue[0].sku)) ==>
      y in Variants(db, root) || exists z :: z in done + [queue[0]] && y in Variants(db, z.sku)
  {
    var h := queue[0];
    var done' := done + [h];
    forall x | x in done' + (queue[1..] + Variants(db, h.sku))
      ensures x in Variants(db, root) || exists y :: y in done' && x in Variants(db, y.sku)
    {
      if x in Variants(db, h.sku) {
        assert h in done';
      } else {
        assert x in done + queue;
        if x !in Variants(db, root) {
          var y :| y in done && x in Variants(db, y.sku);
          assert y in done';
        }
      }
    }
  }

  /**
   * The walk's invariant: what is already listed (`done`) and what is still
   * queued are together free of repeats, lie below `root`, and each was
   * reached from `root` or from a product already listed.
   */
  ghost predicate WalkInvariant(db: Db, root: string, rank: string -> nat, done: seq<Product>, queue: seq<Product>) {
    && Distinct(done + queue)
    && (forall x :: x in done + queue ==> x in db.products && rank(root) < rank(x.sku))
    && (forall x :: x in done + queue ==> x in Variants(db, root) || exists y :: y in done && x in Variants(db, y.sku))
  }

  /** Listing the head of the queue and queueing its variants keeps the invariant. */
  lemma WalkStepKeeps(db: Db, root: string, rank: string -> nat, done: seq<Product>, queue: seq<Product>)
    requires WellFormed(db) && SingleParent(db) && Ranked(db, rank)
    requires queue != [] && WalkInvariant(db, root, rank, done, queue)
    ensures WalkInvariant(db, root, rank, done + [queue[0]], queue[1..] + Variants(db, queue[0].sku))
  {
    var h := queue[0];
    var kids := Variants(db, h.sku);
    var done' := done + [h];
    var next := queue[1..] + kids;
    assert done' + next == (done + queue) + kids by {
      assert queue == [h] + queue[1..];
    }
    DistinctAppend(done, queue);
    forall x | x in kids ensures x !in done + queue && x in db.products && rank(root) < rank(x.sku) {
      KidUnseen(db, root, rank, done, queue, x);
    }
    VariantsDistinct(db, h.sku);
    DistinctAppend(done + queue, kids);
    ReachedStep(db, root, done, queue);
  }

  lemma AppendShift<T>(a: seq<T>, x: T, b: seq<T>)
    ensures a + ([x] + b) == (a + [x]) + b
  {
  }

  /** A finished walk lists the head of its queue, then the walk of the rest and the head's variants. */
  lemma WalkUnfold(db: Db, queue: seq<Product>, fuel: nat)
    requires queue != [] && Walk(db, queue, fuel).Some?
    ensures fuel > 0
    ensures Walk(db, queue[1..] + Variants(db, queue[0].sku), fuel - 1).Some?
    ensures Walk(db, queue, fuel).value == [queue[0]] + Walk(db, queue[1..] + Variants(db, queue[0].sku), fuel - 1).value
  {
  }

  /** From any state meeting the invariant, the walk adds no repeats. */
  lemma {:induction false} WalkOnceFrom(db: Db, root: string, rank: string -> nat,
                                        done: seq<Product>, queue: seq<Product>, fuel: nat)
    requires WellFormed(db) && SingleParent(db) && Ranked(db, rank)
    requires Walk(db, queue, fuel).Some? && WalkInvariant(db, root, rank, done, queue)
    ensures Distinct(done + Walk(db, queue, fuel).value)
    decreases fuel
  {
    if queue == [] {
      assert done + queue == done;
    } else {
      var next := queue[1..] + Variants(db, queue[0].sku);
      WalkUnfold(db, queue, fuel);
      WalkStepKeeps(db, root, rank, done, queue);
      WalkOnceFrom(db, root, rank, done + [queue[0]], next, fuel - 1);
      AppendShift(done, queue[0], Walk(db, next, fuel - 1).value);
    }
  }

  /**
   * With at most one parent per product and an acyclic hierarchy,
   * getAllDescendants lists no product twice.
   */
  lemma WalkOnce(db: Db, root: string, rank: string -> nat, fuel: nat)
    requires WellFormed(db) && SingleParent(db) && Ranked(db, rank)
    requires Walk(db, Variants(db, root), fuel).Some?
    ensures Distinct(Walk(db, Variants(db, root), fuel).value)
  {
    var q := Variants(db, root);
    VariantsDistinct(db, root);
    assert [] + q == q;
    forall x | x in q ensures x in db.products && rank(root) < rank(x.sku) {
      VariantsMembers(db, root, x);
    }
    WalkOnceFrom(db, root, rank, [], q, fuel);
    assert [] + Walk(db, q, fuel).value == Walk(db, q, fuel).value;
  }
}
