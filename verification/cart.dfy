/** The cart slice (slices/cart.ts): four reducers over an ordered list of
    lines and two selectors. */
module Cart {
  import opened Models
  import Seqs

  /** CartItem: a snapshot of the item taken when it was first added, and a
      quantity. */
  datatype CartLine = CartLine(item: Item, quantity: int)

  datatype CartState = CartState(items: seq<CartLine>)

  const InitialCart: CartState := CartState([])

  predicate HasLine(lines: seq<CartLine>, id: int) {
    exists i :: 0 <= i < |lines| && lines[i].item.itemId == id
  }

  /** `items.find(item => item.item_id === id)`, as the index of the first
      match, or -1 when there is none. */
  function FindLine(lines: seq<CartLine>, id: int): (k: int)
    ensures -1 <= k < |lines|
    ensures k >= 0 ==> lines[k].item.itemId == id
    ensures k >= 0 ==> forall j :: 0 <= j < k ==> lines[j].item.itemId != id
    ensures k == -1 ==> forall j :: 0 <= j < |lines| ==> lines[j].item.itemId != id
  {
    if |lines| == 0 then -1
    else if lines[0].item.itemId == id then 0
    else
      var k := FindLine(lines[1..], id);
      if k < 0 then -1 else k + 1
  }

  /** At most one line per item id. */
  predicate UniqueIds(lines: seq<CartLine>) {
    forall i, j :: 0 <= i < j < |lines| ==> lines[i].item.itemId != lines[j].item.itemId
  }

  predicate PositiveQuantities(lines: seq<CartLine>) {
    forall i :: 0 <= i < |lines| ==> lines[i].quantity >= 1
  }

  /** The cart invariant: one line per item id, every quantity at least 1. */
  predicate Valid(c: CartState) {
    UniqueIds(c.items) && PositiveQuantities(c.items)
  }

  /** addToCart: bump the quantity of the first line with the item's id, or
      append a new line with quantity 1. */
  function AddToCart(c: CartState, item: Item): (r: CartState)
    ensures HasLine(r.items, item.itemId)
    ensures |r.items| == |c.items| + (if HasLine(c.items, item.itemId) then 0 else 1)
  {
    var k := FindLine(c.items, item.itemId);
    if k >= 0 then
      var r := CartState(c.items[k := c.items[k].(quantity := c.items[k].quantity + 1)]);
      assert r.items[k].item.itemId == item.itemId;
      r
    else
      var r := CartState(c.items + [CartLine(item, 1)]);
      assert r.items[|c.items|].item.itemId == item.itemId;
      r
  }

  /** removeFromCart: `items.filter(item => item.item_id !== id)`. */
  function RemoveFromCart(c: CartState, id: int): (r: CartState)
    ensures !HasLine(r.items, id)
    ensures |r.items| <= |c.items|
  {
    CartState(Seqs.Filter(c.items, (l: CartLine) => l.item.itemId != id))
  }

  /** updateQuantity: overwrite the quantity of the first line with that id;
      the reducer itself accepts any number. */
  function UpdateQuantity(c: CartState, id: int, quantity: int): (r: CartState)
    ensures |r.items| == |c.items|
  {
    var k := FindLine(c.items, id);
    if k >= 0 then CartState(c.items[k := c.items[k].(quantity := quantity)]) else c
  }

  /** clearCart. */
  function ClearCart(c: CartState): (r: CartState)
    ensures |r.items| == 0
  {
    InitialCart
  }

  /** selectCartItemsCount: the number of lines, not of units. In a valid
      cart it never exceeds the units in it, and equals them exactly when
      every line holds one unit. */
  function ItemsCount(c: CartState): (n: nat)
    ensures n == 0 <==> c.items == []
    ensures Valid(c) ==> n <= TotalQuantity(c.items)
    ensures Valid(c) ==> (n == TotalQuantity(c.items) <==> forall i :: 0 <= i < |c.items| ==> c.items[i].quantity == 1)
  {
    LinesWithinUnits(c.items);
    |c.items|
  }

  function LineAmount(l: CartLine): int {
    l.item.price * l.quantity
  }

  /** Σ price × quantity over the lines. */
  function Total(lines: seq<CartLine>): int {
    if |lines| == 0 then 0 else LineAmount(lines[0]) + Total(lines[1..])
  }

  /** selectCartTotal. With no negative quantity the total is never
      negative and covers every single line's amount. */
  function CartTotal(c: CartState): (t: int)
    ensures (forall i :: 0 <= i < |c.items| ==> c.items[i].quantity >= 0) ==>
      t >= 0 && forall i :: 0 <= i < |c.items| ==> LineAmount(c.items[i]) <= t
  {
    TotalCoversLines(c.items);
    Total(c.items)
  }

  /** Σ quantity over the lines: what selectCartItemsCount does NOT count. */
  function TotalQuantity(lines: seq<CartLine>): int {
    if |lines| == 0 then 0 else lines[0].quantity + TotalQuantity(lines[1..])
  }

  /** Each line of positive quantity holds at least one unit, and exactly
      one when the line count and the unit count agree. */
  lemma {:induction false} LinesWithinUnits(lines: seq<CartLine>)
    ensures PositiveQuantities(lines) ==> |lines| <= TotalQuantity(lines)
    ensures PositiveQuantities(lines) ==>
      (|lines| == TotalQuantity(lines) <==> forall i :: 0 <= i < |lines| ==> lines[i].quantity == 1)
    decreases |lines|
  {
    if |lines| > 0 && PositiveQuantities(lines) {
      var rest := lines[1..];
      assert forall i :: 0 <= i < |rest| ==> rest[i] == lines[i + 1];
      LinesWithinUnits(rest);
      if forall i :: 0 <= i < |rest| ==> rest[i].quantity == 1 {
        if lines[0].quantity == 1 {
          forall i | 0 <= i < |lines|
            ensures lines[i].quantity == 1
          {
            if i > 0 { assert lines[i] == rest[i - 1]; }
          }
        }
      }
    }
  }

  /** With no negative quantity, the total is a sum of non-negative line
      amounts and so bounds each of them. */
  lemma {:induction false} TotalCoversLines(lines: seq<CartLine>)
    ensures (forall i :: 0 <= i < |lines| ==> lines[i].quantity >= 0) ==>
      Total(lines) >= 0 && forall i :: 0 <= i < |lines| ==> LineAmount(lines[i]) <= Total(lines)
    decreases |lines|
  {
    if |lines| > 0 && forall i :: 0 <= i < |lines| ==> lines[i].quantity >= 0 {
      var rest := lines[1..];
      assert forall i :: 0 <= i < |rest| ==> rest[i] == lines[i + 1];
      TotalCoversLines(rest);
      assert LineAmount(lines[0]) >= 0;
      forall i | 0 <= i < |lines|
        ensures LineAmount(lines[i]) <= Total(lines)
      {
        if i > 0 { assert lines[i] == rest[i - 1]; }
      }
    }
  }

  // ---------------------------------------------------------------- lemmas

  lemma {:induction false} FindLineFindsPresent(lines: seq<CartLine>, id: int)
    ensures FindLine(lines, id) >= 0 <==> HasLine(lines, id)
    decreases |lines|
  {
    if |lines| > 0 && lines[0].item.itemId != id {
      FindLineFindsPresent(lines[1..], id);
      if HasLine(lines, id) {
        var i :| 0 <= i < |lines| && lines[i].item.itemId == id;
        assert lines[1..][i - 1].item.itemId == id;
      }
    }
  }

  /** In a valid cart the line found for an id is the only line with it. */
  lemma {:induction false} FindLineUnique(lines: seq<CartLine>, id: int, i: int)
    requires UniqueIds(lines)
    requires 0 <= i < |lines| && lines[i].item.itemId == id
    ensures FindLine(lines, id) == i
    decreases |lines|
  {
    if i > 0 {
      assert lines[0].item.itemId != id;
      FindLineUnique(lines[1..], id, i - 1);
    }
  }

  lemma AddAbsentAppends(c: CartState, item: Item)
    requires !HasLine(c.items, item.itemId)
    ensures AddToCart(c, item).items == c.items + [CartLine(item, 1)]
  {
    FindLineFindsPresent(c.items, item.itemId);
  }

  /** Adding an item already in a valid cart adds 1 to its line and changes
      nothing else: same lines, same order, same snapshots. */
  lemma AddPresentIncrements(c: CartState, item: Item, k: int)
    requires Valid(c)
    requires 0 <= k < |c.items| && c.items[k].item.itemId == item.itemId
    ensures |AddToCart(c, item).items| == |c.items|
    ensures AddToCart(c, item).items[k].quantity == c.items[k].quantity + 1
    ensures forall i :: 0 <= i < |c.items| ==> AddToCart(c, item).items[i].item == c.items[i].item
    ensures forall i :: 0 <= i < |c.items| && i != k ==> AddToCart(c, item).items[i] == c.items[i]
  {
    FindLineUnique(c.items, item.itemId, k);
  }

  lemma AddPreservesValid(c: CartState, item: Item)
    requires Valid(c)
    ensures Valid(AddToCart(c, item))
  {
    var k := FindLine(c.items, item.itemId);
    if k < 0 {
      var r := AddToCart(c, item).items;
      assert r == c.items + [CartLine(item, 1)];
      forall i, j | 0 <= i < j < |r|
        ensures r[i].item.itemId != r[j].item.itemId
      {
        if j == |c.items| {
          assert r[i] == c.items[i];
        }
      }
    }
  }

  lemma {:induction false} FilterKeepsUniqueIds(lines: seq<CartLine>, p: CartLine -> bool)
    requires UniqueIds(lines)
    ensures UniqueIds(Seqs.Filter(lines, p))
    decreases |lines|
  {
    if |lines| > 0 {
      FilterKeepsUniqueIds(lines[1..], p);
      var rest := Seqs.Filter(lines[1..], p);
      if p(lines[0]) {
        var r := [lines[0]] + rest;
        forall i, j | 0 <= i < j < |r|
          ensures r[i].item.itemId != r[j].item.itemId
        {
          if i == 0 {
            assert r[j] in lines[1..];
          } else {
            assert r[i] == rest[i - 1] && r[j] == rest[j - 1];
          }
        }
      }
    }
  }

  /** removeFromCart keeps exactly the lines with another id, in their
      order, and is a no-op for an absent id. */
  lemma RemoveKeepsOthers(c: CartState, id: int)
    ensures forall i :: 0 <= i < |RemoveFromCart(c, id).items| ==>
      RemoveFromCart(c, id).items[i] in c.items && RemoveFromCart(c, id).items[i].item.itemId != id
    ensures forall i :: 0 <= i < |c.items| && c.items[i].item.itemId != id ==>
      c.items[i] in RemoveFromCart(c, id).items
    ensures Seqs.IsSubsequence(RemoveFromCart(c, id).items, c.items)
    ensures !HasLine(c.items, id) ==> RemoveFromCart(c, id) == c
  {
    Seqs.FilterIsSubsequence(c.items, (l: CartLine) => l.item.itemId != id);
  }

  lemma RemovePreservesValid(c: CartState, id: int)
    requires Valid(c)
    ensures Valid(RemoveFromCart(c, id))
  {
    FilterKeepsUniqueIds(c.items, (l: CartLine) => l.item.itemId != id);
    var r := RemoveFromCart(c, id).items;
    forall i | 0 <= i < |r|
      ensures r[i].quantity >= 1
    {
      assert r[i] in c.items;
    }
  }

  /** updateQuantity rewrites only the quantity of the line with that id,
      whatever the number, and is a no-op for an absent id. */
  lemma UpdateQuantityEffect(c: CartState, id: int, quantity: int)
    requires UniqueIds(c.items)
    ensures forall i :: 0 <= i < |c.items| ==>
      UpdateQuantity(c, id, quantity).items[i] ==
        if c.items[i].item.itemId == id then c.items[i].(quantity := quantity) else c.items[i]
    ensures !HasLine(c.items, id) ==> UpdateQuantity(c, id, quantity) == c
  {
    var k := FindLine(c.items, id);
    forall i | 0 <= i < |c.items| && c.items[i].item.itemId == id
      ensures i == k
    {
      FindLineUnique(c.items, id, i);
    }
  }

  /** Whatever the quantity, updateQuantity never creates a second line for
      an id: the one-line-per-id half of the invariant holds for all four
      reducers. */
  lemma UpdateKeepsUniqueIds(c: CartState, id: int, quantity: int)
    requires UniqueIds(c.items)
    ensures UniqueIds(UpdateQuantity(c, id, quantity).items)
  {
    var r := UpdateQuantity(c, id, quantity).items;
    forall i | 0 <= i < |r|
      ensures r[i].item == c.items[i].item
    {
    }
  }

  lemma UpdatePositivePreservesValid(c: CartState, id: int, quantity: int)
    requires Valid(c)
    requires quantity >= 1
    ensures Valid(UpdateQuantity(c, id, quantity))
  {
  }

  /** The reducer alone does not keep quantities positive. */
  lemma UpdateQuantityAcceptsZero(item: Item)
    ensures var c := AddToCart(InitialCart, item);
      Valid(c) && !Valid(UpdateQuantity(c, item.itemId, 0))
  {
    var c := AddToCart(InitialCart, item);
    assert c.items == [CartLine(item, 1)];
    assert UpdateQuantity(c, item.itemId, 0).items[0].quantity == 0;
  }

  lemma ClearCartValid(c: CartState)
    ensures Valid(ClearCart(c)) && ItemsCount(ClearCart(c)) == 0 && CartTotal(ClearCart(c)) == 0
  {
  }

  lemma {:induction false} TotalUpdate(lines: seq<CartLine>, k: int, l: CartLine)
    requires 0 <= k < |lines|
    ensures Total(lines[k := l]) == Total(lines) - LineAmount(lines[k]) + LineAmount(l)
    decreases |lines|
  {
    if k > 0 {
      TotalUpdate(lines[1..], k - 1, l);
      assert lines[k := l][1..] == lines[1..][k - 1 := l];
    } else {
      assert lines[k := l][1..] == lines[1..];
    }
  }

  lemma {:induction false} TotalAppend(lines: seq<CartLine>, l: CartLine)
    ensures Total(lines + [l]) == Total(lines) + LineAmount(l)
    decreases |lines|
  {
    if |lines| == 0 {
      assert lines + [l] == [l];
    } else {
      TotalAppend(lines[1..], l);
      assert (lines + [l])[1..] == lines[1..] + [l];
    }
  }

  /** addToCart raises the total by one unit price: the cart's own snapshot
      price when the item is already there, the added item's price when not. */
  lemma AddRaisesTotal(c: CartState, item: Item)
    ensures CartTotal(AddToCart(c, item)) == CartTotal(c) +
      (if HasLine(c.items, item.itemId) then c.items[FindLine(c.items, item.itemId)].item.price
       else item.price)
  {
    var k := FindLine(c.items, item.itemId);
    FindLineFindsPresent(c.items, item.itemId);
    if k >= 0 {
      var line := c.items[k].(quantity := c.items[k].quantity + 1);
      TotalUpdate(c.items, k, line);
      assert AddToCart(c, item).items == c.items[k := line];
      assert LineAmount(line) == LineAmount(c.items[k]) + c.items[k].item.price;
    } else {
      TotalAppend(c.items, CartLine(item, 1));
      assert AddToCart(c, item).items == c.items + [CartLine(item, 1)];
    }
  }

  /** updateQuantity moves the total by price × (new - old quantity). */
  lemma UpdateQuantityTotal(c: CartState, id: int, quantity: int)
    requires HasLine(c.items, id)
    ensures var k := FindLine(c.items, id);
      CartTotal(UpdateQuantity(c, id, quantity)) ==
        CartTotal(c) + c.items[k].item.price * (quantity - c.items[k].quantity)
  {
    FindLineFindsPresent(c.items, id);
    var k := FindLine(c.items, id);
    var line := c.items[k].(quantity := quantity);
    TotalUpdate(c.items, k, line);
    assert UpdateQuantity(c, id, quantity).items == c.items[k := line];
    assert LineAmount(line) - LineAmount(c.items[k]) == c.items[k].item.price * (quantity - c.items[k].quantity);
  }

  /** Adding the same item twice to an empty cart gives one line with
      quantity 2: selectCartItemsCount reports 1, not 2. */
  lemma AddSameItemTwice(item: Item)
    ensures var c := AddToCart(AddToCart(InitialCart, item), item);
      && c.items == [CartLine(item, 2)]
      && ItemsCount(c) == 1
      && TotalQuantity(c.items) == 2
      && CartTotal(c) == 2 * item.price
  {
    var c1 := AddToCart(InitialCart, item);
    assert c1.items == [CartLine(item, 1)];
    assert FindLine(c1.items, item.itemId) == 0;
    var c := AddToCart(c1, item);
    assert c.items == [CartLine(item, 2)];
    assert c.items[1..] == [];
    assert Total(c.items) == LineAmount(c.items[0]) + Total([]);
  }
}
