/**
 * The stock-adjustment rule of the product-service (`updateStock`), stated as a
 * pure fold over the product collection, and its properties: net effect,
 * feasibility, non-negativity, and the deduct-then-restore round trip.
 */
module Stock {
  import opened Wrappers
  import opened Products

  /** One signed adjustment of one product's stock. */
  datatype StockUpdateItem = StockUpdateItem(productId: ProductId, quantityChange: int)

  /** The three ways a stock update is refused. */
  datatype StockError =
    | NoProductsFound
    | UnknownProduct(productId: ProductId)
    | InsufficientStock(productName: string)

  function Message(e: StockError): string {
    match e
    case NoProductsFound => "No products found for the given IDs"
    case UnknownProduct(id) => "Product not found: " + id
    case InsufficientStock(name) => "Insufficient stock for product: " + name
  }

  /** `p` with its stock moved by `delta` and every other field kept. */
  function Adjusted(p: Product, delta: int): Product {
    p.(stockQuantity := p.stockQuantity + delta)
  }

  /** The sum of the changes that `updates` makes to product `id`. */
  function SumDeltas(updates: seq<StockUpdateItem>, id: ProductId): int {
    if updates == [] then 0
    else (if updates[0].productId == id then updates[0].quantityChange else 0) + SumDeltas(updates[1..], id)
  }

  /** Whether some update names product `id`. */
  predicate Names(updates: seq<StockUpdateItem>, id: ProductId) {
    exists k :: 0 <= k < |updates| && updates[k].productId == id
  }

  /** Every change flipped in sign, in the same order. */
  function Negated(updates: seq<StockUpdateItem>): (r: seq<StockUpdateItem>)
    ensures |r| == |updates|
  {
    if updates == [] then []
    else [StockUpdateItem(updates[0].productId, -updates[0].quantityChange)] + Negated(updates[1..])
  }

  /** One step of the update loop: refuse an unknown id or a negative result, else adjust. */
  function ApplyOne(store: Store, u: StockUpdateItem): (r: Result<Store, StockError>)
    ensures r.Success? <==> u.productId in store && store[u.productId].stockQuantity + u.quantityChange >= 0
    ensures r.Failure? ==> !r.error.NoProductsFound?
    ensures r.Success? ==> r.value.Keys == store.Keys && r.value[u.productId].stockQuantity >= 0
  {
    if u.productId !in store then Failure(UnknownProduct(u.productId))
    else if store[u.productId].stockQuantity + u.quantityChange < 0 then
      Failure(InsufficientStock(store[u.productId].name))
    else Success(store[u.productId := Adjusted(store[u.productId], u.quantityChange)])
  }

  /** The update loop: steps in list order, the first refused step ends it. */
  function ApplyAll(store: Store, updates: seq<StockUpdateItem>): (r: Result<Store, StockError>)
    ensures r.Failure? ==> !r.error.NoProductsFound?
    ensures r.Success? ==> r.value.Keys == store.Keys
    decreases |updates|
  {
    if updates == [] then Success(store)
    else
      match ApplyOne(store, updates[0])
      case Failure(e) => Failure(e)
      case Success(next) => ApplyAll(next, updates[1..])
  }

  /**
   * `updateStock` as a whole: refused outright when none of the named products
   * exists, otherwise the loop; the collection is written only on success.
   */
  function UpdateStockSpec(store: Store, updates: seq<StockUpdateItem>): (r: Result<Store, StockError>)
    ensures r == Failure(NoProductsFound) <==> forall k :: 0 <= k < |updates| ==> updates[k].productId !in store
    ensures r.Success? ==> r.value.Keys == store.Keys
  {
    if forall k :: 0 <= k < |updates| ==> updates[k].productId !in store then Failure(NoProductsFound)
    else ApplyAll(store, updates)
  }

  /**
   * Every step of `updates` names an existing product, and that product's stock
   * plus the changes made to it so far (this step included) is not negative.
   */
  ghost predicate Feasible(store: Store, updates: seq<StockUpdateItem>) {
    forall k :: 0 <= k < |updates| ==>
      updates[k].productId in store &&
      store[updates[k].productId].stockQuantity + SumDeltas(updates[..k + 1], updates[k].productId) >= 0
  }

  lemma {:induction false} SumDeltasUnnamed(updates: seq<StockUpdateItem>, id: ProductId)
    requires !Names(updates, id)
    ensures SumDeltas(updates, id) == 0
  {
    if updates != [] {
      assert !Names(updates[1..], id) by {
        forall k | 0 <= k < |updates[1..]| ensures updates[1..][k].productId != id {
          assert updates[1..][k] == updates[k + 1];
        }
      }
      SumDeltasUnnamed(updates[1..], id);
    }
  }

  lemma {:induction false} SumDeltasNegated(updates: seq<StockUpdateItem>, id: ProductId)
    ensures SumDeltas(Negated(updates), id) == -SumDeltas(updates, id)
  {
    if updates != [] {
      var n := Negated(updates);
      assert n[1..] == Negated(updates[1..]);
      SumDeltasNegated(updates[1..], id);
    }
  }

  /**
   * Net effect of a successful update: the same products, each with its stock
   * moved by the sum of its own changes (repeated ids accumulate) and nothing
   * else altered; products not named keep their stock.
   */
  lemma {:induction false} ApplyAllEffect(store: Store, updates: seq<StockUpdateItem>)
    requires ApplyAll(store, updates).Success?
    ensures ApplyAll(store, updates).value.Keys == store.Keys
    ensures forall id :: id in store ==>
      ApplyAll(store, updates).value[id] == Adjusted(store[id], SumDeltas(updates, id))
    decreases |updates|
  {
    if updates == [] {
      forall id | id in store ensures store[id] == Adjusted(store[id], 0) { }
    } else {
      var u := updates[0];
      var next := ApplyOne(store, u).value;
      ApplyAllEffect(next, updates[1..]);
    }
  }

  /** The loop succeeds exactly when every step is feasible. */
  lemma {:induction false} ApplyAllSucceedsIff(store: Store, updates: seq<StockUpdateItem>)
    ensures ApplyAll(store, updates).Success? <==> Feasible(store, updates)
    decreases |updates|
  {
    if updates != [] {
      var u := updates[0];
      assert updates[..1] == [u];
      assert SumDeltas(updates[..1], u.productId) == u.quantityChange;
      if ApplyOne(store, u).Success? {
        var next := ApplyOne(store, u).value;
        var rest := updates[1..];
        ApplyAllSucceedsIff(next, rest);
        forall k | 1 <= k < |updates|
          ensures (updates[k].productId in store &&
                   store[updates[k].productId].stockQuantity + SumDeltas(updates[..k + 1], updates[k].productId) >= 0)
              <==> (rest[k - 1].productId in next &&
                    next[rest[k - 1].productId].stockQuantity + SumDeltas(rest[..k], rest[k - 1].productId) >= 0)
        {
          var id := updates[k].productId;
          assert rest[k - 1] == updates[k];
          assert updates[..k + 1][1..] == rest[..k];
          assert SumDeltas(updates[..k + 1], id)
              == (if u.productId == id then u.quantityChange else 0) + SumDeltas(rest[..k], id);
        }
        if Feasible(store, updates) {
          forall j | 0 <= j < |rest|
            ensures rest[j].productId in next &&
                    next[rest[j].productId].stockQuantity + SumDeltas(rest[..j + 1], rest[j].productId) >= 0
          {
            assert j + 1 < |updates|;
          }
        }
        if Feasible(next, rest) {
          forall k | 0 <= k < |updates|
            ensures updates[k].productId in store &&
                    store[updates[k].productId].stockQuantity + SumDeltas(updates[..k + 1], updates[k].productId) >= 0
          {
            if k > 0 { assert 0 <= k - 1 < |rest|; }
          }
        }
      } else {
        assert !(u.productId in store &&
                 store[u.productId].stockQuantity + SumDeltas(updates[..1], u.productId) >= 0);
      }
    }
  }

  /** After a successful update every product it named has a non-negative stock. */
  lemma {:induction false} ApplyAllLeavesNamedNonNegative(store: Store, updates: seq<StockUpdateItem>)
    requires ApplyAll(store, updates).Success?
    ensures forall k :: 0 <= k < |updates| ==>
      updates[k].productId in ApplyAll(store, updates).value &&
      ApplyAll(store, updates).value[updates[k].productId].stockQuantity >= 0
    decreases |updates|
  {
    if updates != [] {
      var u := updates[0];
      var next := ApplyOne(store, u).value;
      var rest := updates[1..];
      var after := ApplyAll(store, updates).value;
      ApplyAllLeavesNamedNonNegative(next, rest);
      ApplyAllEffect(next, rest);
      forall k | 0 <= k < |updates|
        ensures updates[k].productId in after && after[updates[k].productId].stockQuantity >= 0
      {
        if k > 0 {
          assert rest[k - 1] == updates[k];
        } else if Names(rest, u.productId) {
          var j :| 0 <= j < |rest| && rest[j].productId == u.productId;
        } else {
          SumDeltasUnnamed(rest, u.productId);
        }
      }
    }
  }

  /** Non-negative changes to existing products with non-negative stock always apply. */
  lemma {:induction false} IncreasesAlwaysApply(store: Store, updates: seq<StockUpdateItem>)
    requires forall k :: 0 <= k < |updates| ==> updates[k].quantityChange >= 0
    requires forall k :: 0 <= k < |updates| ==>
      updates[k].productId in store && store[updates[k].productId].stockQuantity >= 0
    ensures ApplyAll(store, updates).Success?
    decreases |updates|
  {
    if updates != [] {
      var next := ApplyOne(store, updates[0]).value;
      forall k | 0 <= k < |updates[1..]|
        ensures updates[1..][k].productId in next && next[updates[1..][k].productId].stockQuantity >= 0
      {
        assert updates[1..][k] == updates[k + 1];
      }
      IncreasesAlwaysApply(next, updates[1..]);
    }
  }

  /**
   * Compensation: a list of deductions that succeeded, followed by the same list
   * with every sign flipped, always succeeds and restores every stock exactly.
   */
  lemma RestoreUndoesDeduction(store: Store, updates: seq<StockUpdateItem>)
    requires forall k :: 0 <= k < |updates| ==> updates[k].quantityChange <= 0
    requires UpdateStockSpec(store, updates).Success?
    ensures UpdateStockSpec(UpdateStockSpec(store, updates).value, Negated(updates)) == Success(store)
  {
    var after := ApplyAll(store, updates).value;
    var back := Negated(updates);
    ApplyAllRoundTrip(store, updates);
    NegatedAt(updates);
    ApplyAllEffect(store, updates);
    var k0 :| 0 <= k0 < |updates| && updates[k0].productId in store;
    assert back[k0].productId in after;
  }

  /** The round trip at the level of the update loop. */
  lemma ApplyAllRoundTrip(store: Store, updates: seq<StockUpdateItem>)
    requires forall k :: 0 <= k < |updates| ==> updates[k].quantityChange <= 0
    requires ApplyAll(store, updates).Success?
    ensures ApplyAll(ApplyAll(store, updates).value, Negated(updates)) == Success(store)
  {
    var after := ApplyAll(store, updates).value;
    var back := Negated(updates);
    ApplyAllEffect(store, updates);
    ApplyAllLeavesNamedNonNegative(store, updates);
    NegatedAt(updates);
    IncreasesAlwaysApply(after, back);
    ApplyAllEffect(after, back);
    var restored := ApplyAll(after, back).value;
    forall id | id in store ensures restored[id] == store[id] {
      SumDeltasNegated(updates, id);
      AdjustedTwice(store[id], SumDeltas(updates, id));
    }
    assert restored == store;
  }

  lemma AdjustedTwice(p: Product, delta: int)
    ensures Adjusted(Adjusted(p, delta), -delta) == p
  {
  }

  lemma {:induction false} NegatedAt(updates: seq<StockUpdateItem>)
    ensures forall k :: 0 <= k < |updates| ==>
      Negated(updates)[k] == StockUpdateItem(updates[k].productId, -updates[k].quantityChange)
  {
    if updates != [] {
      NegatedAt(updates[1..]);
      forall k | 1 <= k < |updates|
        ensures Negated(updates)[k] == StockUpdateItem(updates[k].productId, -updates[k].quantityChange)
      {
        assert Negated(updates)[k] == Negated(updates[1..])[k - 1];
        assert updates[1..][k - 1] == updates[k];
      }
    }
  }

  /**
   * The round trip needs every change of the first list to have the same sign:
   * raising a stock of 0 by 5 and lowering it by 5 succeeds, but the flipped
   * list starts by lowering 0 by 5 and is refused.
   */
  lemma MixedSignsDoNotRoundTrip(p: Product)
    requires p.stockQuantity == 0
    ensures var store := map[p.id := p];
            var updates := [StockUpdateItem(p.id, 5), StockUpdateItem(p.id, -5)];
            UpdateStockSpec(store, updates) == Success(store) &&
            UpdateStockSpec(store, Negated(updates)) == Failure(InsufficientStock(p.name))
  {
    var store := map[p.id := p];
    var updates := [StockUpdateItem(p.id, 5), StockUpdateItem(p.id, -5)];
    var mid := store[p.id := Adjusted(p, 5)];
    assert ApplyOne(store, updates[0]) == Success(mid);
    assert Adjusted(mid[p.id], -5) == p;
    assert ApplyOne(mid, updates[1]) == Success(mid[p.id := p]);
    assert mid[p.id := p] == store;
    assert ApplyAll(mid, updates[1..]) == ApplyAll(store, []);
    assert UpdateStockSpec(store, updates) == ApplyAll(store, updates);
    var back := Negated(updates);
    NegatedAt(updates);
    assert ApplyOne(store, back[0]) == Failure(InsufficientStock(p.name));
    assert UpdateStockSpec(store, back) == ApplyAll(store, back);
  }

  /** One step of the fold on a restriction of the store agrees with the step on the whole store. */
  lemma ApplyOneOnFoundProducts(store: Store, found: Store, u: StockUpdateItem)
    requires found.Keys <= store.Keys
    requires forall id :: id in found ==> found[id] == store[id]
    requires u.productId in store ==> u.productId in found
    ensures ApplyOne(found, u).Failure? <==> ApplyOne(store, u).Failure?
    ensures ApplyOne(found, u).Failure? ==> ApplyOne(found, u) == ApplyOne(store, u)
    ensures ApplyOne(found, u).Success? ==>
      && ApplyOne(found, u).value.Keys == found.Keys
      && ApplyOne(store, u).value == store + ApplyOne(found, u).value
  {
    if u.productId in found && ApplyOne(found, u).Success? {
      var f1 := ApplyOne(found, u).value;
      assert f1 == found[u.productId := Adjusted(found[u.productId], u.quantityChange)];
      assert ApplyOne(store, u).value == store + f1;
    }
  }

  /**
   * The same refusal rules as the loop, applied to the products the request names
   * and to the whole collection, agree; on success the whole collection is the
   * named products' results written over the old collection.
   */
  lemma {:induction false} ApplyAllOnFoundProducts(store: Store, found: Store, updates: seq<StockUpdateItem>)
    requires found.Keys <= store.Keys
    requires forall id :: id in found ==> found[id] == store[id]
    requires forall k :: 0 <= k < |updates| && updates[k].productId in store ==> updates[k].productId in found
    ensures ApplyAll(found, updates).Failure? <==> ApplyAll(store, updates).Failure?
    ensures ApplyAll(found, updates).Failure? ==> ApplyAll(found, updates) == ApplyAll(store, updates)
    ensures ApplyAll(found, updates).Success? ==>
      ApplyAll(store, updates) == Success(store + ApplyAll(found, updates).value)
    decreases |updates|
  {
    if updates == [] {
      assert store + found == store;
    } else {
      var u := updates[0];
      ApplyOneOnFoundProducts(store, found, u);
      if ApplyOne(found, u).Success? {
        var f1 := ApplyOne(found, u).value;
        var s1 := store + f1;
        forall k | 0 <= k < |updates[1..]| && updates[1..][k].productId in s1
          ensures updates[1..][k].productId in f1
        {
          assert updates[1..][k] == updates[k + 1];
        }
        ApplyAllOnFoundProducts(s1, f1, updates[1..]);
        if ApplyAll(f1, updates[1..]).Success? {
          var x := ApplyAll(f1, updates[1..]).value;
          ApplyAllEffect(f1, updates[1..]);
          assert s1 + x == store + x;
        }
      }
    }
  }
}
