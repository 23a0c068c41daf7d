/** The shopping cart of the page (src/pages/Index.tsx:34-36, 147-175, 185-186):
    an ordered sequence of lines, each a catalog item with the number ordered.
    The three updaters are total functions from the old sequence to the new
    one; together they keep at most one line per item id. */
module Cart {
  import opened Seqs
  import opened Menu

  /** `CartItem`: the catalog item, spread into the line, and its quantity. */
  datatype CartLine = CartLine(item: MenuItem, quantity: int)

  /** Some line of the cart holds the item with this id. */
  predicate HasLine(cart: seq<CartLine>, id: int)
  {
    exists i :: 0 <= i < |cart| && cart[i].item.id == id
  }

  predicate DifferentIds(a: CartLine, b: CartLine)
  {
    a.item.id != b.item.id
  }

  /** The cart's invariant: at most one line per item id. */
  predicate UniqueIds(cart: seq<CartLine>)
  {
    Pairwise(cart, DifferentIds)
  }

  /** Every line holds a positive quantity. */
  predicate PositiveQuantities(cart: seq<CartLine>)
  {
    forall i :: 0 <= i < |cart| ==> cart[i].quantity > 0
  }

  /** `addToCart(item)`: if a line for the item's id exists, its quantity rises by
      one and nothing else changes; otherwise a line with quantity 1 is appended. */
  function AddToCart(cart: seq<CartLine>, item: MenuItem): (r: seq<CartLine>)
    ensures |r| == if HasLine(cart, item.id) then |cart| else |cart| + 1
    ensures forall i :: 0 <= i < |cart| ==>
      r[i].item == cart[i].item &&
      r[i].quantity == cart[i].quantity + (if cart[i].item.id == item.id then 1 else 0)
    ensures !HasLine(cart, item.id) ==> r[|cart|] == CartLine(item, 1)
    ensures HasLine(r, item.id)
  {
    if HasLine(cart, item.id) then
      seq(|cart|, i requires 0 <= i < |cart| =>
        if cart[i].item.id == item.id then cart[i].(quantity := cart[i].quantity + 1) else cart[i])
    else
      assert (cart + [CartLine(item, 1)])[|cart|].item.id == item.id;
      cart + [CartLine(item, 1)]
  }

  /** `removeFromCart(id)`: every line with this id goes, the others stay in order. */
  function RemoveFromCart(cart: seq<CartLine>, id: int): (r: seq<CartLine>)
    ensures IsSubseq(r, cart)
    ensures forall l :: l in r <==> l in cart && l.item.id != id
    ensures !HasLine(r, id)
    ensures !HasLine(cart, id) ==> r == cart
  {
    var r := Filter(cart, (l: CartLine) => l.item.id != id);
    FilterIsSubseq(cart, (l: CartLine) => l.item.id != id);
    assert !HasLine(r, id) by {
      forall i | 0 <= i < |r| ensures r[i].item.id != id {
        assert r[i] in r;
      }
    }
    if !HasLine(cart, id) then
      FilterKeepsAll(cart, (l: CartLine) => l.item.id != id);
      r
    else
      r
  }

  /** `updateQuantity(id, quantity)`: zero removes the line; any other value
      (the page does not reject negative ones) replaces the quantity of the
      line with this id. */
  function UpdateQuantity(cart: seq<CartLine>, id: int, quantity: int): (r: seq<CartLine>)
    ensures quantity == 0 ==> r == RemoveFromCart(cart, id)
    ensures quantity != 0 ==> |r| == |cart| && forall i :: 0 <= i < |cart| ==>
      r[i].item == cart[i].item &&
      r[i].quantity == (if cart[i].item.id == id then quantity else cart[i].quantity)
    ensures forall x :: HasLine(r, x) ==> HasLine(cart, x)
  {
    if quantity == 0 then
      var r := RemoveFromCart(cart, id);
      assert forall x :: HasLine(r, x) ==> HasLine(cart, x) by {
        forall x, i | 0 <= i < |r| && r[i].item.id == x ensures HasLine(cart, x) {
          assert r[i] in r;
        }
      }
      r
    else
      seq(|cart|, i requires 0 <= i < |cart| =>
        if cart[i].item.id == id then cart[i].(quantity := quantity) else cart[i])
  }

  /** Sum of `f` over the lines; `reduce` adds from the left, which is the same sum. */
  function Sum(cart: seq<CartLine>, f: CartLine -> int): int
  {
    if cart == [] then 0 else f(cart[0]) + Sum(cart[1..], f)
  }

  function LineCount(l: CartLine): int
  {
    l.quantity
  }

  function LinePrice(l: CartLine): int
  {
    l.item.price * l.quantity
  }

  /** `totalItems`: the sum of the quantities. */
  function TotalItems(cart: seq<CartLine>): int
  {
    Sum(cart, LineCount)
  }

  /** `totalPrice`: the sum of price times quantity. */
  function TotalPrice(cart: seq<CartLine>): int
  {
    Sum(cart, LinePrice)
  }

  /** Sum of `f` over the lines with this id only. */
  function SumFor(cart: seq<CartLine>, id: int, f: CartLine -> int): int
  {
    Sum(cart, (l: CartLine) => if l.item.id == id then f(l) else 0)
  }

  /** The quantity ordered of the item with this id (0 when it has no line). */
  function QuantityOf(cart: seq<CartLine>, id: int): int
  {
    SumFor(cart, id, LineCount)
  }

  /** `addToCart` applied to each item in turn. */
  function AddAll(cart: seq<CartLine>, items: seq<MenuItem>): seq<CartLine>
    decreases |items|
  {
    if items == [] then cart else AddAll(AddToCart(cart, items[0]), items[1..])
  }

  /** Some item has this id. */
  predicate AnyWithId(items: seq<MenuItem>, id: int)
  {
    exists j :: 0 <= j < |items| && items[j].id == id
  }

  /** How many of the items have this id. */
  function CountId(items: seq<MenuItem>, id: int): nat
  {
    if items == [] then 0 else (if items[0].id == id then 1 else 0) + CountId(items[1..], id)
  }

  /** Every line with the item's id was made from an item of the same price, as
      holds when items come from a catalog whose ids are unique. */
  predicate PricedAs(cart: seq<CartLine>, item: MenuItem)
  {
    forall i :: 0 <= i < |cart| && cart[i].item.id == item.id ==> cart[i].item.price == item.price
  }

  // Sums

  lemma {:induction false} SumAppend(a: seq<CartLine>, l: CartLine, f: CartLine -> int)
    ensures Sum(a + [l], f) == Sum(a, f) + f(l)
  {
    if a != [] {
      assert (a + [l])[0] == a[0] && (a + [l])[1..] == a[1..] + [l];
      SumAppend(a[1..], l, f);
    }
  }

  lemma {:induction false} SumEqual(a: seq<CartLine>, b: seq<CartLine>, f: CartLine -> int)
    requires |a| == |b|
    requires forall i :: 0 <= i < |a| ==> f(a[i]) == f(b[i])
    ensures Sum(a, f) == Sum(b, f)
  {
    if a != [] {
      SumEqual(a[1..], b[1..], f);
    }
  }

  lemma {:induction false} SumExt(a: seq<CartLine>, f: CartLine -> int, g: CartLine -> int)
    requires forall i :: 0 <= i < |a| ==> f(a[i]) == g(a[i])
    ensures Sum(a, f) == Sum(a, g)
  {
    if a != [] {
      SumExt(a[1..], f, g);
    }
  }

  /** `SumFor` as a plain sum of a function that is 0 off the id. */
  lemma SumForIsSum(a: seq<CartLine>, id: int, f: CartLine -> int, g: CartLine -> int)
    requires forall i :: 0 <= i < |a| ==> g(a[i]) == if a[i].item.id == id then f(a[i]) else 0
    ensures SumFor(a, id, f) == Sum(a, g)
  {
    SumExt(a, (l: CartLine) => if l.item.id == id then f(l) else 0, g);
  }

  /** Sums over lines that differ only at index `k` differ by the change at `k`. */
  lemma {:induction false} SumPointwise(a: seq<CartLine>, b: seq<CartLine>, f: CartLine -> int, k: int)
    requires |a| == |b| && 0 <= k < |a|
    requires forall i :: 0 <= i < |a| && i != k ==> f(a[i]) == f(b[i])
    ensures Sum(a, f) == Sum(b, f) + f(a[k]) - f(b[k])
  {
    if k == 0 {
      SumEqual(a[1..], b[1..], f);
    } else {
      SumPointwise(a[1..], b[1..], f, k - 1);
    }
  }

  /** A sum in which only line `k` contributes is that line's contribution. */
  lemma {:induction false} SumSingle(a: seq<CartLine>, f: CartLine -> int, k: int)
    requires 0 <= k < |a|
    requires forall i :: 0 <= i < |a| && i != k ==> f(a[i]) == 0
    ensures Sum(a, f) == f(a[k])
  {
    if k == 0 {
      SumNone(a[1..], f);
    } else {
      SumSingle(a[1..], f, k - 1);
    }
  }

  /** A sum in which no line contributes is 0. */
  lemma {:induction false} SumNone(a: seq<CartLine>, f: CartLine -> int)
    requires forall i :: 0 <= i < |a| ==> f(a[i]) == 0
    ensures Sum(a, f) == 0
  {
    if a != [] {
      SumNone(a[1..], f);
    }
  }

  /** Removing the lines with an id takes exactly their share off a sum. */
  lemma {:induction false} SumRemove(cart: seq<CartLine>, id: int, f: CartLine -> int)
    ensures Sum(RemoveFromCart(cart, id), f) == Sum(cart, f) - SumFor(cart, id, f)
  {
    if cart != [] {
      SumRemove(cart[1..], id, f);
      var rest := RemoveFromCart(cart[1..], id);
      if cart[0].item.id != id {
        assert RemoveFromCart(cart, id) == [cart[0]] + rest;
        assert ([cart[0]] + rest)[1..] == rest;
      } else {
        assert RemoveFromCart(cart, id) == rest;
      }
    }
  }

  // Quantities per id

  /** With one line per id, the quantity of an id is that of its line, and 0 without one. */
  lemma QuantityOfLine(cart: seq<CartLine>, id: int, f: CartLine -> int)
    requires UniqueIds(cart)
    ensures forall k :: 0 <= k < |cart| && cart[k].item.id == id ==> SumFor(cart, id, f) == f(cart[k])
    ensures !HasLine(cart, id) ==> SumFor(cart, id, f) == 0
  {
    var g := (l: CartLine) => if l.item.id == id then f(l) else 0;
    forall k | 0 <= k < |cart| && cart[k].item.id == id ensures SumFor(cart, id, f) == f(cart[k]) {
      forall i | 0 <= i < |cart| && i != k ensures g(cart[i]) == 0 {
        if i < k { assert DifferentIds(cart[i], cart[k]); }
        else { assert DifferentIds(cart[k], cart[i]); }
      }
      SumSingle(cart, g, k);
    }
    if !HasLine(cart, id) {
      SumNone(cart, g);
    }
  }

  /** With one line per id, the line holding an id is the only one with it. */
  lemma UniqueLine(cart: seq<CartLine>, k: int)
    requires UniqueIds(cart) && 0 <= k < |cart|
    ensures forall i :: 0 <= i < |cart| && i != k ==> cart[i].item.id != cart[k].item.id
  {
    forall i | 0 <= i < |cart| && i != k ensures cart[i].item.id != cart[k].item.id {
      if i < k { assert DifferentIds(cart[i], cart[k]); }
      else { assert DifferentIds(cart[k], cart[i]); }
    }
  }

  // addToCart

  /** `addToCart` keeps one line per id. */
  lemma AddToCartUnique(cart: seq<CartLine>, item: MenuItem)
    requires UniqueIds(cart)
    ensures UniqueIds(AddToCart(cart, item))
  {
    var r := AddToCart(cart, item);
    forall i, j | 0 <= i < j < |r| ensures DifferentIds(r[i], r[j]) {
      if j < |cart| {
        assert DifferentIds(cart[i], cart[j]);
      } else {
        assert !HasLine(cart, item.id);
      }
    }
  }

  /** `addToCart` adds one to the item count and the item's price to the total price. */
  lemma AddToCartTotals(cart: seq<CartLine>, item: MenuItem)
    requires UniqueIds(cart)
    ensures TotalItems(AddToCart(cart, item)) == TotalItems(cart) + 1
    ensures PricedAs(cart, item) ==> TotalPrice(AddToCart(cart, item)) == TotalPrice(cart) + item.price
  {
    var r := AddToCart(cart, item);
    if HasLine(cart, item.id) {
      var k :| 0 <= k < |cart| && cart[k].item.id == item.id;
      UniqueLine(cart, k);
      assert forall i :: 0 <= i < |cart| && i != k ==> r[i] == cart[i];
      SumPointwise(r, cart, LineCount, k);
      SumPointwise(r, cart, LinePrice, k);
      assert LinePrice(r[k]) == LinePrice(cart[k]) + cart[k].item.price by {
        assert r[k].item == cart[k].item && r[k].quantity == cart[k].quantity + 1;
      }
    } else {
      SumAppend(cart, CartLine(item, 1), LineCount);
      SumAppend(cart, CartLine(item, 1), LinePrice);
    }
  }

  /** `addToCart` adds one to the quantity of the item's id and changes no other id's. */
  lemma AddToCartQuantity(cart: seq<CartLine>, item: MenuItem, id: int)
    requires UniqueIds(cart)
    ensures QuantityOf(AddToCart(cart, item), id) == QuantityOf(cart, id) + (if item.id == id then 1 else 0)
  {
    var r := AddToCart(cart, item);
    var g := (l: CartLine) => if l.item.id == id then l.quantity else 0;
    SumForIsSum(r, id, LineCount, g);
    SumForIsSum(cart, id, LineCount, g);
    if HasLine(cart, item.id) {
      var k :| 0 <= k < |cart| && cart[k].item.id == item.id;
      UniqueLine(cart, k);
      assert forall i :: 0 <= i < |cart| && i != k ==> r[i] == cart[i];
      SumPointwise(r, cart, g, k);
    } else {
      assert r == cart + [CartLine(item, 1)];
      SumAppend(cart, CartLine(item, 1), g);
    }
  }

  /** Adding items in turn to a cart: one line per id, quantities grow by the
      number of additions of each id, and the ids present are the old ones and
      the added ones. */
  lemma {:induction false} AddAllQuantities(cart: seq<CartLine>, items: seq<MenuItem>)
    requires UniqueIds(cart)
    ensures UniqueIds(AddAll(cart, items))
    ensures forall id :: QuantityOf(AddAll(cart, items), id) == QuantityOf(cart, id) + CountId(items, id)
    ensures forall id :: HasLine(AddAll(cart, items), id) <==> HasLine(cart, id) || AnyWithId(items, id)
    decreases |items|
  {
    if items != [] {
      var next := AddToCart(cart, items[0]);
      AddToCartUnique(cart, items[0]);
      forall id ensures QuantityOf(next, id) == QuantityOf(cart, id) + (if items[0].id == id then 1 else 0) {
        AddToCartQuantity(cart, items[0], id);
      }
      assert forall id :: HasLine(next, id) <==> HasLine(cart, id) || id == items[0].id by {
        forall id | HasLine(next, id) ensures HasLine(cart, id) || id == items[0].id {
          var i :| 0 <= i < |next| && next[i].item.id == id;
          if i < |cart| { assert cart[i].item.id == id; }
        }
        forall id | HasLine(cart, id) ensures HasLine(next, id) {
          var i :| 0 <= i < |cart| && cart[i].item.id == id;
          assert next[i].item.id == id;
        }
      }
      AddAllQuantities(next, items[1..]);
      forall id ensures AnyWithId(items, id) <==> id == items[0].id || AnyWithId(items[1..], id) {
        if AnyWithId(items, id) {
          var j :| 0 <= j < |items| && items[j].id == id;
          if j > 0 { assert items[1..][j - 1].id == id; }
        }
        if AnyWithId(items[1..], id) {
          var j :| 0 <= j < |items[1..]| && items[1..][j].id == id;
          assert items[j + 1].id == id;
        }
      }
    }
  }

  /** From an empty cart, any sequence of additions leaves exactly one line per
      distinct id added, holding the number of times that id was added. */
  lemma AddsFromEmpty(items: seq<MenuItem>)
    ensures UniqueIds(AddAll([], items))
    ensures forall id :: HasLine(AddAll([], items), id) <==> AnyWithId(items, id)
    ensures forall i :: 0 <= i < |AddAll([], items)| ==>
      AddAll([], items)[i].quantity == CountId(items, AddAll([], items)[i].item.id)
  {
    var r := AddAll([], items);
    AddAllQuantities([], items);
    forall i | 0 <= i < |r| ensures r[i].quantity == CountId(items, r[i].item.id) {
      QuantityOfLine(r, r[i].item.id, LineCount);
      QuantityOfLine([], r[i].item.id, LineCount);
    }
  }

  // removeFromCart

  /** Removing twice is removing once. */
  lemma RemoveIdempotent(cart: seq<CartLine>, id: int)
    ensures RemoveFromCart(RemoveFromCart(cart, id), id) == RemoveFromCart(cart, id)
  {
  }

  /** `removeFromCart` keeps one line per id. */
  lemma RemoveUnique(cart: seq<CartLine>, id: int)
    requires UniqueIds(cart)
    ensures UniqueIds(RemoveFromCart(cart, id))
  {
    SubseqPairwise(RemoveFromCart(cart, id), cart, DifferentIds);
  }

  /** `removeFromCart` takes the removed quantity off the item count. */
  lemma RemoveTotals(cart: seq<CartLine>, id: int)
    ensures TotalItems(RemoveFromCart(cart, id)) == TotalItems(cart) - QuantityOf(cart, id)
  {
    SumRemove(cart, id, LineCount);
  }

  // updateQuantity

  /** `updateQuantity` keeps one line per id. */
  lemma UpdateQuantityUnique(cart: seq<CartLine>, id: int, quantity: int)
    requires UniqueIds(cart)
    ensures UniqueIds(UpdateQuantity(cart, id, quantity))
  {
    if quantity == 0 {
      RemoveUnique(cart, id);
    } else {
      var r := UpdateQuantity(cart, id, quantity);
      forall i, j | 0 <= i < j < |r| ensures DifferentIds(r[i], r[j]) {
        assert DifferentIds(cart[i], cart[j]);
      }
    }
  }

  /** `updateQuantity` replaces the quantity of the id's line in the item count
      (and changes nothing when the id has no line). */
  lemma UpdateQuantityTotals(cart: seq<CartLine>, id: int, quantity: int)
    requires UniqueIds(cart)
    ensures TotalItems(UpdateQuantity(cart, id, quantity)) ==
      TotalItems(cart) - QuantityOf(cart, id) + (if HasLine(cart, id) then quantity else 0)
  {
    var r := UpdateQuantity(cart, id, quantity);
    QuantityOfLine(cart, id, LineCount);
    if quantity == 0 {
      RemoveTotals(cart, id);
    } else if HasLine(cart, id) {
      var k :| 0 <= k < |cart| && cart[k].item.id == id;
      UniqueLine(cart, k);
      assert forall i :: 0 <= i < |cart| && i != k ==> r[i] == cart[i];
      SumPointwise(r, cart, LineCount, k);
    } else {
      assert forall i :: 0 <= i < |cart| ==> r[i] == cart[i];
      SumEqual(r, cart, LineCount);
    }
  }

  /** Setting a quantity to 0 right after adding the item leaves no line for it. */
  lemma ZeroAfterAdd(cart: seq<CartLine>, item: MenuItem)
    ensures !HasLine(UpdateQuantity(AddToCart(cart, item), item.id, 0), item.id)
  {
  }

  /** Quantities stay positive under `addToCart`, `removeFromCart`, and
      `updateQuantity` with a quantity of 0 or more; the cart's minus button
      passes the line's quantity minus one, so it removes a line rather than
      leave it at 0. */
  lemma QuantitiesStayPositive(cart: seq<CartLine>, item: MenuItem, id: int, quantity: int)
    requires PositiveQuantities(cart)
    ensures PositiveQuantities(AddToCart(cart, item))
    ensures PositiveQuantities(RemoveFromCart(cart, id))
    ensures quantity >= 0 ==> PositiveQuantities(UpdateQuantity(cart, id, quantity))
  {
    var r := RemoveFromCart(cart, id);
    forall i | 0 <= i < |r| ensures r[i].quantity > 0 {
      assert r[i] in r;
      var j :| 0 <= j < |cart| && cart[j] == r[i];
    }
  }

  /** Adding `a`, `a` and `b` (different ids) to an empty cart gives three items
      costing twice `a`'s price plus `b`'s. */
  lemma TwoAndOne(a: MenuItem, b: MenuItem)
    requires a.id != b.id
    ensures TotalItems(AddAll([], [a, a, b])) == 3
    ensures TotalPrice(AddAll([], [a, a, b])) == 2 * a.price + b.price
  {
    var c1 := AddToCart([], a);
    var c2 := AddToCart(c1, a);
    var c3 := AddToCart(c2, b);
    AddToCartTotals([], a);
    AddToCartUnique([], a);
    AddToCartTotals(c1, a);
    AddToCartUnique(c1, a);
    AddToCartTotals(c2, b);
    assert [a, a, b][1..] == [a, b] && [a, b][1..] == [b] && [b][1..] == [];
    assert AddAll(c3, []) == c3;
    assert AddAll(c2, [b]) == c3;
    assert AddAll(c1, [a, b]) == c3;
    assert AddAll([], [a, a, b]) == c3;
  }

  /** Two of the first catalog item (120) and one of the second (350): three
      items costing 590. */
  lemma TwoNigiriOnePhiladelphia()
    ensures TotalItems(AddAll([], [Catalog[0], Catalog[0], Catalog[1]])) == 3
    ensures TotalPrice(AddAll([], [Catalog[0], Catalog[0], Catalog[1]])) == 590
  {
    TwoAndOne(Catalog[0], Catalog[1]);
  }
}
