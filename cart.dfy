/** The shop cart of the home page: a JavaScript object from product id to the stored
    product with its quantity. Object keys are unique, so the cart is a sequence of
    lines with distinct ids. The order of the lines is the order of string keys by
    insertion; integer-like keys, which JavaScript lists first in ascending order, are
    not ordered that way here, but the counts, totals and lookups do not depend on the
    order. Prices are whole units (cents). */
module Shop {
  import opened Wrappers

  /** A product card: its id and unit price. */
  datatype Product = Product(id: string, price: int)

  /** One stored line: the product's id and price, and how many of it. */
  datatype Item = Item(id: string, quantity: int, price: int)

  /** Where `id` is stored, or -1 when it is not a key. */
  function IndexOf(items: seq<Item>, id: string): (r: int)
    ensures -1 <= r < |items|
    ensures 0 <= r ==> items[r].id == id && forall k :: 0 <= k < r ==> items[k].id != id
    ensures r < 0 ==> forall k :: 0 <= k < |items| ==> items[k].id != id
    decreases |items|
  {
    if items == [] then -1
    else
      var front := IndexOf(items[..|items| - 1], id);
      if front < 0 && items[|items| - 1].id == id then |items| - 1 else front
  }

  /** Object keys are distinct. */
  predicate UniqueIds(items: seq<Item>)
  {
    forall i, j :: 0 <= i < j < |items| ==> items[i].id != items[j].id
  }

  /** Every stored quantity is at least one. */
  predicate AllPositive(items: seq<Item>)
  {
    forall i :: 0 <= i < |items| ==> items[i].quantity >= 1
  }

  predicate PricesNonNegative(items: seq<Item>)
  {
    forall i :: 0 <= i < |items| ==> items[i].price >= 0
  }

  /** `cart[id]`: the stored line for `id`, if any. */
  function Lookup(items: seq<Item>, id: string): (r: Option<Item>)
    ensures r.None? <==> forall k :: 0 <= k < |items| ==> items[k].id != id
    ensures r.Some? ==> r.value in items && r.value.id == id
  {
    var i := IndexOf(items, id);
    if i < 0 then None else Some(items[i])
  }

  /** With distinct ids, the line at `k` is what `cart[items[k].id]` finds. */
  lemma LookupAt(items: seq<Item>, k: int)
    requires UniqueIds(items) && 0 <= k < |items|
    ensures Lookup(items, items[k].id) == Some(items[k])
  {
  }

  /** `cartToCount`: the sum of the quantities. */
  function Count(items: seq<Item>): (r: int)
    ensures AllPositive(items) ==> r >= |items|
  {
    if items == [] then 0 else items[0].quantity + Count(items[1..])
  }

  /** `cartToTotal`: the sum of quantity times price. */
  function Total(items: seq<Item>): (r: int)
    ensures AllPositive(items) && PricesNonNegative(items) ==> r >= 0
  {
    if items == [] then 0
    else items[0].quantity * items[0].price + Total(items[1..])
  }

  lemma {:induction false} SumsConcat(a: seq<Item>, b: seq<Item>)
    ensures Count(a + b) == Count(a) + Count(b)
    ensures Total(a + b) == Total(a) + Total(b)
    decreases |a|
  {
    if a != [] {
      assert (a + b)[1..] == a[1..] + b;
      SumsConcat(a[1..], b);
    } else {
      assert a + b == b;
    }
  }

  /** The sums over the cart split around one line. */
  lemma SumsAround(items: seq<Item>, i: int)
    requires 0 <= i < |items|
    ensures Count(items) == Count(items[..i]) + items[i].quantity + Count(items[i + 1..])
    ensures Total(items) == Total(items[..i]) + items[i].quantity * items[i].price + Total(items[i + 1..])
  {
    var front, e, back := items[..i], items[i], items[i + 1..];
    assert items == front + ([e] + back);
    SumsConcat(front, [e] + back);
    SumsCons(e, back);
  }

  /** The sums over a line put in front of others. */
  lemma SumsCons(e: Item, back: seq<Item>)
    ensures Count([e] + back) == e.quantity + Count(back)
    ensures Total([e] + back) == e.quantity * e.price + Total(back)
  {
    assert ([e] + back)[1..] == back;
  }

  /** Replacing one line changes the sums by that line's difference. */
  lemma SumsReplace(items: seq<Item>, i: int, e: Item)
    requires 0 <= i < |items|
    ensures Count(items[i := e]) == Count(items) - items[i].quantity + e.quantity
    ensures Total(items[i := e]) == Total(items) - items[i].quantity * items[i].price + e.quantity * e.price
  {
    var after := items[i := e];
    SumsAround(items, i);
    SumsAround(after, i);
    assert after[..i] == items[..i] && after[i + 1..] == items[i + 1..];
  }

  /** Deleting one line takes that line's share off the sums. */
  lemma SumsDelete(items: seq<Item>, i: int)
    requires 0 <= i < |items|
    ensures Count(items[..i] + items[i + 1..]) == Count(items) - items[i].quantity
    ensures Total(items[..i] + items[i + 1..]) == Total(items) - items[i].quantity * items[i].price
  {
    SumsAround(items, i);
    SumsConcat(items[..i], items[i + 1..]);
  }

  // ---------------------------------------------------------------------------
  // The three cart operations, on values

  /** `addToCart`: a new id is stored with the product's price and quantity one; a
      stored id keeps its stored price and gains one. */
  function Added(items: seq<Item>, p: Product): seq<Item>
  {
    var i := IndexOf(items, p.id);
    if i < 0 then items + [Item(p.id, 1, p.price)]
    else items[i := items[i].(quantity := items[i].quantity + 1)]
  }

  /** `updateQty`: an unknown id changes nothing; otherwise the quantity moves by
      `delta` and the line is deleted once it is zero or less. */
  function Updated(items: seq<Item>, id: string, delta: int): seq<Item>
  {
    var i := IndexOf(items, id);
    if i < 0 then items
    else if items[i].quantity + delta <= 0 then items[..i] + items[i + 1..]
    else items[i := items[i].(quantity := items[i].quantity + delta)]
  }

  /** `removeItem`: `delete cart[id]`. */
  function Removed(items: seq<Item>, id: string): seq<Item>
  {
    var i := IndexOf(items, id);
    if i < 0 then items else items[..i] + items[i + 1..]
  }

  // ---------------------------------------------------------------------------
  // What the operations keep and change

  /** Changing one line's quantity keeps the ids distinct and touches no other id. */
  lemma ReplaceKeepsOthers(items: seq<Item>, i: int, e: Item, x: string)
    requires UniqueIds(items) && 0 <= i < |items| && e.id == items[i].id
    ensures UniqueIds(items[i := e])
    ensures x != e.id ==> Lookup(items[i := e], x) == Lookup(items, x)
    ensures Lookup(items[i := e], e.id) == Some(e)
  {
    var after := items[i := e];
    LookupAt(after, i);
    if x != e.id {
      var r := Lookup(items, x);
      if r.Some? {
        var k :| 0 <= k < |items| && items[k] == r.value;
        LookupAt(items, k);
        LookupAt(after, k);
      }
    }
  }

  /** Deleting one line keeps the ids distinct, drops its id and touches no other. */
  lemma DeleteKeepsOthers(items: seq<Item>, i: int, x: string)
    requires UniqueIds(items) && 0 <= i < |items|
    ensures UniqueIds(items[..i] + items[i + 1..])
    ensures Lookup(items[..i] + items[i + 1..], items[i].id).None?
    ensures x != items[i].id ==> Lookup(items[..i] + items[i + 1..], x) == Lookup(items, x)
  {
    var after := items[..i] + items[i + 1..];
    assert forall k :: 0 <= k < |after| ==> after[k] == if k < i then items[k] else items[k + 1];
    if x != items[i].id {
      var r := Lookup(items, x);
      if r.Some? {
        var k :| 0 <= k < |items| && items[k] == r.value;
        LookupAt(items, k);
        var k' := if k < i then k else k - 1;
        assert after[k'] == items[k];
        LookupAt(after, k');
      }
    }
  }

  /** Adding gives a new id quantity one at the product's price, adds one to a stored
      id, and leaves every other id alone. */
  lemma AddedLookup(items: seq<Item>, p: Product, x: string)
    requires UniqueIds(items)
    ensures UniqueIds(Added(items, p))
    ensures Lookup(Added(items, p), p.id) ==
            match Lookup(items, p.id)
            case None => Some(Item(p.id, 1, p.price))
            case Some(e) => Some(e.(quantity := e.quantity + 1))
    ensures x != p.id ==> Lookup(Added(items, p), x) == Lookup(items, x)
  {
    var i := IndexOf(items, p.id);
    if i < 0 {
      var e := Item(p.id, 1, p.price);
      assert Added(items, p) == items + [e];
      AppendKeepsOthers(items, e, x);
    } else {
      LookupAt(items, i);
      var moved := items[i].(quantity := items[i].quantity + 1);
      assert Added(items, p) == items[i := moved];
      ReplaceKeepsOthers(items, i, moved, x);
    }
  }

  /** Appending a line with a new id keeps the ids distinct and touches no other id. */
  lemma AppendKeepsOthers(items: seq<Item>, e: Item, x: string)
    requires UniqueIds(items) && forall k :: 0 <= k < |items| ==> items[k].id != e.id
    ensures UniqueIds(items + [e])
    ensures Lookup(items + [e], e.id) == Some(e)
    ensures x != e.id ==> Lookup(items + [e], x) == Lookup(items, x)
  {
    var after := items + [e];
    assert forall k :: 0 <= k < |items| ==> after[k] == items[k];
    LookupAt(after, |items|);
    if x != e.id && Lookup(items, x).Some? {
      var k :| 0 <= k < |items| && items[k] == Lookup(items, x).value;
      LookupAt(items, k);
      LookupAt(after, k);
    }
  }

  /** `(a + b) * c` spread over the sum. */
  lemma Distribute(a: int, b: int, c: int)
    ensures (a + b) * c == a * c + b * c
  {
  }

  /** Adding adds one to the count and the stored unit price to the total. */
  lemma AddedSums(items: seq<Item>, p: Product)
    requires UniqueIds(items)
    ensures Count(Added(items, p)) == Count(items) + 1
    ensures Total(Added(items, p)) ==
            Total(items) + (if Lookup(items, p.id).Some? then Lookup(items, p.id).value.price else p.price)
  {
    var i := IndexOf(items, p.id);
    if i < 0 {
      var e := Item(p.id, 1, p.price);
      assert Added(items, p) == items + [e];
      SumsConcat(items, [e]);
      assert Total([e]) == p.price && Count([e]) == 1;
    } else {
      LookupAt(items, i);
      var e := items[i];
      assert Lookup(items, p.id).value == e;
      var moved := e.(quantity := e.quantity + 1);
      assert Added(items, p) == items[i := moved];
      SumsReplace(items, i, moved);
      Distribute(e.quantity, 1, e.price);
    }
  }

  /** Adding keeps every quantity positive. */
  lemma AddedPositive(items: seq<Item>, p: Product)
    requires AllPositive(items)
    ensures AllPositive(Added(items, p))
  {
    var i := IndexOf(items, p.id);
    if i < 0 {
      var e := Item(p.id, 1, p.price);
      assert forall k :: 0 <= k < |items| + 1 ==> (items + [e])[k] == if k < |items| then items[k] else e;
    }
  }

  /** Updating an unknown id changes nothing; otherwise the id's quantity moves by
      `delta`, or the id goes once that is zero or less, and no other id changes. */
  lemma UpdatedLookup(items: seq<Item>, id: string, delta: int, x: string)
    requires UniqueIds(items)
    ensures UniqueIds(Updated(items, id, delta))
    ensures Lookup(items, id).None? ==> Updated(items, id, delta) == items
    ensures Lookup(items, id).Some? && Lookup(items, id).value.quantity + delta <= 0 ==>
              Lookup(Updated(items, id, delta), id).None?
    ensures Lookup(items, id).Some? && Lookup(items, id).value.quantity + delta > 0 ==>
              Lookup(Updated(items, id, delta), id) ==
              Some(Lookup(items, id).value.(quantity := Lookup(items, id).value.quantity + delta))
    ensures x != id ==> Lookup(Updated(items, id, delta), x) == Lookup(items, x)
  {
    var i := IndexOf(items, id);
    if 0 <= i {
      LookupAt(items, i);
      var e := items[i];
      if e.quantity + delta <= 0 {
        assert Updated(items, id, delta) == items[..i] + items[i + 1..];
        DeleteKeepsOthers(items, i, x);
      } else {
        var moved := e.(quantity := e.quantity + delta);
        assert Updated(items, id, delta) == items[i := moved];
        ReplaceKeepsOthers(items, i, moved, x);
      }
    }
  }

  /** Updating moves the count by `delta` and the total by `delta` unit prices, or,
      when the line goes, takes its whole share off. */
  lemma UpdatedSums(items: seq<Item>, id: string, delta: int)
    requires UniqueIds(items)
    ensures Lookup(items, id).Some? && Lookup(items, id).value.quantity + delta <= 0 ==>
              && Count(Updated(items, id, delta)) == Count(items) - Lookup(items, id).value.quantity
              && Total(Updated(items, id, delta)) ==
                 Total(items) - Lookup(items, id).value.quantity * Lookup(items, id).value.price
    ensures Lookup(items, id).Some? && Lookup(items, id).value.quantity + delta > 0 ==>
              && Count(Updated(items, id, delta)) == Count(items) + delta
              && Total(Updated(items, id, delta)) == Total(items) + delta * Lookup(items, id).value.price
  {
    var i := IndexOf(items, id);
    if 0 <= i {
      LookupAt(items, i);
      var e := items[i];
      assert Lookup(items, id).value == e;
      if e.quantity + delta <= 0 {
        assert Updated(items, id, delta) == items[..i] + items[i + 1..];
        SumsDelete(items, i);
      } else {
        var moved := e.(quantity := e.quantity + delta);
        assert Updated(items, id, delta) == items[i := moved];
        SumsReplace(items, i, moved);
        Distribute(e.quantity, delta, e.price);
      }
    }
  }

  /** Updating keeps every quantity positive: a line that would drop to zero goes. */
  lemma UpdatedPositive(items: seq<Item>, id: string, delta: int)
    requires AllPositive(items)
    ensures AllPositive(Updated(items, id, delta))
  {
    var i := IndexOf(items, id);
    if 0 <= i && items[i].quantity + delta <= 0 {
      RemovedPositive(items, id);
      assert Updated(items, id, delta) == Removed(items, id);
    }
  }

  /** Removing drops exactly that id and its share of the count and the total. */
  lemma RemovedEffect(items: seq<Item>, id: string, x: string)
    requires UniqueIds(items)
    ensures UniqueIds(Removed(items, id))
    ensures Lookup(Removed(items, id), id).None?
    ensures x != id ==> Lookup(Removed(items, id), x) == Lookup(items, x)
    ensures Lookup(items, id).None? ==> Removed(items, id) == items
    ensures Lookup(items, id).Some? ==>
              && Count(Removed(items, id)) == Count(items) - Lookup(items, id).value.quantity
              && Total(Removed(items, id)) ==
                 Total(items) - Lookup(items, id).value.quantity * Lookup(items, id).value.price
  {
    var i := IndexOf(items, id);
    if 0 <= i {
      LookupAt(items, i);
      DeleteKeepsOthers(items, i, x);
      SumsDelete(items, i);
    }
  }

  /** Removing keeps every remaining quantity positive. */
  lemma RemovedPositive(items: seq<Item>, id: string)
    requires AllPositive(items)
    ensures AllPositive(Removed(items, id))
  {
    var i := IndexOf(items, id);
    if 0 <= i {
      var after := items[..i] + items[i + 1..];
      assert Removed(items, id) == after;
      forall k | 0 <= k < |after| ensures after[k].quantity >= 1 {
        if k < i {
          assert after[k] == items[k];
        } else {
          assert after[k] == items[k + 1];
        }
      }
    }
  }

  // ---------------------------------------------------------------------------
  // The stored cart

  class Cart {
    var items: seq<Item>

    /** Object keys are distinct. */
    ghost predicate Valid()
      reads this
    {
      UniqueIds(items)
    }

    /** `readCart`: the stored cart, whose keys are distinct. */
    constructor (stored: seq<Item>)
      requires UniqueIds(stored)
      ensures Valid() && items == stored
    {
      items := stored;
    }

    method AddToCart(p: Product)
      requires Valid()
      modifies this
      ensures Valid() && items == Added(old(items), p)
    {
      AddedLookup(items, p, p.id);
      var i := IndexOf(items, p.id);
      if i < 0 {
        items := items + [Item(p.id, 1, p.price)];
      } else {
        items := items[i := items[i].(quantity := items[i].quantity + 1)];
      }
    }

    method UpdateQty(id: string, delta: int)
      requires Valid()
      modifies this
      ensures Valid() && items == Updated(old(items), id, delta)
    {
      UpdatedLookup(items, id, delta, id);
      var i := IndexOf(items, id);
      if i < 0 {
        return;
      }
      var q := items[i].quantity + delta;
      if q <= 0 {
        items := items[..i] + items[i + 1..];
      } else {
        items := items[i := items[i].(quantity := q)];
      }
    }

    method RemoveItem(id: string)
      requires Valid()
      modifies this
      ensures Valid() && items == Removed(old(items), id)
    {
      RemovedEffect(items, id, id);
      var i := IndexOf(items, id);
      if 0 <= i {
        items := items[..i] + items[i + 1..];
      }
    }

    /** The checkout button: an empty cart is refused; otherwise the cart is cleared. */
    method Checkout() returns (done: bool)
      requires Valid()
      modifies this
      ensures Valid() && done == (old(items) != []) && items == []
    {
      if items == [] {
        return false;
      }
      items := [];
      return true;
    }

    /** The empty-cart button. */
    method Empty()
      modifies this
      ensures Valid() && items == []
    {
      items := [];
    }
  }
}
