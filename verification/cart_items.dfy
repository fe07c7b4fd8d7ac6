/** The item-merge rule of the cart service (internal/cart/service.go):
    adding an item either grows the quantity of the first line with the same
    product or appends a new line. Everything here is pure sequence logic. */
module CartItems {

  /** One cart line, as the protobuf message `CartItem` carries it.
      `details` stands for the remaining fields (name, price, ...), which the
      service copies around but never inspects. */
  datatype CartItem = CartItem(productId: string, quantity: int, details: string)

  predicate HasProduct(items: seq<CartItem>, pid: string) {
    exists i :: 0 <= i < |items| && items[i].productId == pid
  }

  /** `i` is the position the insertion-order scan stops at. */
  predicate IsFirst(items: seq<CartItem>, pid: string, i: int) {
    && 0 <= i < |items|
    && items[i].productId == pid
    && forall j :: 0 <= j < i ==> items[j].productId != pid
  }

  /** No id occurs twice. */
  predicate Distinct(s: seq<string>) {
    forall i, j :: 0 <= i < j < |s| ==> s[i] != s[j]
  }

  /** No two lines share a product. */
  predicate UniqueProducts(items: seq<CartItem>) {
    Distinct(ProductOrder(items))
  }

  /** The item with its quantity grown by `q`; every other field is kept. */
  function Grow(existing: CartItem, q: int): CartItem {
    existing.(quantity := existing.quantity + q)
  }

  /** Scan the lines in order; the first line with the incoming product
      absorbs its quantity and the scan stops; if the scan runs off the end
      the incoming item is appended. No sign check is made on the quantity. */
  function Merge(items: seq<CartItem>, item: CartItem): (r: seq<CartItem>)
    ensures HasProduct(items, item.productId) ==> |r| == |items|
    ensures !HasProduct(items, item.productId) ==> r == items + [item]
    ensures forall i :: IsFirst(items, item.productId, i) ==> r[i] == Grow(items[i], item.quantity)
    ensures forall i :: 0 <= i < |items| && !IsFirst(items, item.productId, i) ==> r[i] == items[i]
    decreases |items|
  {
    if |items| == 0 then
      [item]
    else if items[0].productId == item.productId then
      [Grow(items[0], item.quantity)] + items[1..]
    else
      var rest := Merge(items[1..], item);
      assert HasProduct(items, item.productId) <==> HasProduct(items[1..], item.productId) by {
        if HasProduct(items, item.productId) {
          var i :| 0 <= i < |items| && items[i].productId == item.productId;
          assert items[1..][i - 1].productId == item.productId;
        }
        if HasProduct(items[1..], item.productId) {
          var i :| 0 <= i < |items[1..]| && items[1..][i].productId == item.productId;
          assert items[i + 1].productId == item.productId;
        }
      }
      assert forall i :: 1 <= i < |items| ==> (IsFirst(items, item.productId, i) <==> IsFirst(items[1..], item.productId, i - 1));
      [items[0]] + rest
  }

  /** Total quantity for `pid`, summed arithmetically over every line (or
      every added item) that names it; on a cart with unique products, the
      quantity of its one line. */
  function QuantityOf(items: seq<CartItem>, pid: string): int
    decreases |items|
  {
    if |items| == 0 then 0
    else (if items[0].productId == pid then items[0].quantity else 0) + QuantityOf(items[1..], pid)
  }

  /** The products of a cart, in line order. */
  function ProductOrder(items: seq<CartItem>): seq<string> {
    seq(|items|, i requires 0 <= i < |items| => items[i].productId)
  }

  /** A sequence of merges, one per added item, in call order. */
  function MergeAll(items: seq<CartItem>, adds: seq<CartItem>): seq<CartItem>
    decreases |adds|
  {
    if |adds| == 0 then items else MergeAll(Merge(items, adds[0]), adds[1..])
  }

  /** First-seen order: each id of `pids` not yet in `order` is appended. */
  function AppendNew(order: seq<string>, pids: seq<string>): seq<string>
    decreases |pids|
  {
    if |pids| == 0 then order
    else AppendNew(if pids[0] in order then order else order + [pids[0]], pids[1..])
  }

  /** A cart has a product exactly when its product order lists it. */
  lemma HasProductIffListed(items: seq<CartItem>, pid: string)
    ensures HasProduct(items, pid) <==> pid in ProductOrder(items)
  {
    if pid in ProductOrder(items) {
      var i :| 0 <= i < |items| && ProductOrder(items)[i] == pid;
      assert items[i].productId == pid;
    }
    if HasProduct(items, pid) {
      var i :| 0 <= i < |items| && items[i].productId == pid;
      assert ProductOrder(items)[i] == pid;
    }
  }

  /** Merging adds the incoming quantity to the total of its product and
      leaves the total of every other product alone. */
  lemma {:induction false} MergeQuantity(items: seq<CartItem>, item: CartItem, pid: string)
    ensures QuantityOf(Merge(items, item), pid)
         == QuantityOf(items, pid) + (if pid == item.productId then item.quantity else 0)
    decreases |items|
  {
    var r := Merge(items, item);
    if |items| == 0 {
      assert r == [item];
      assert r[1..] == [];
    } else if items[0].productId == item.productId {
      assert r[1..] == items[1..];
    } else {
      MergeQuantity(items[1..], item, pid);
      assert r[1..] == Merge(items[1..], item);
    }
  }

  /** Merging keeps the product order, appending the incoming product only
      when no line had it. */
  lemma MergeOrder(items: seq<CartItem>, item: CartItem)
    ensures ProductOrder(Merge(items, item))
         == if HasProduct(items, item.productId) then ProductOrder(items)
            else ProductOrder(items) + [item.productId]
  {
    var r := Merge(items, item);
    if HasProduct(items, item.productId) {
      forall i | 0 <= i < |items|
        ensures r[i].productId == items[i].productId
      {
        if IsFirst(items, item.productId, i) {
          assert r[i] == Grow(items[i], item.quantity);
        }
      }
    }
  }

  /** A cart whose products are unique stays so after a merge. */
  lemma MergePreservesUnique(items: seq<CartItem>, item: CartItem)
    requires UniqueProducts(items)
    ensures UniqueProducts(Merge(items, item))
  {
    var r := Merge(items, item);
    MergeOrder(items, item);
    assert forall i :: 0 <= i < |r| ==> ProductOrder(r)[i] == r[i].productId;
    if !HasProduct(items, item.productId) {
      forall i | 0 <= i < |items|
        ensures r[i].productId != item.productId
      {
        assert r[i] == items[i];
      }
    }
  }

  /** After any sequence of additions the total held for each product is
      what the cart had plus the sum of the added quantities. */
  lemma {:induction false} MergeAllQuantity(items: seq<CartItem>, adds: seq<CartItem>, pid: string)
    ensures QuantityOf(MergeAll(items, adds), pid) == QuantityOf(items, pid) + QuantityOf(adds, pid)
    decreases |adds|
  {
    if |adds| > 0 {
      MergeQuantity(items, adds[0], pid);
      MergeAllQuantity(Merge(items, adds[0]), adds[1..], pid);
    }
  }

  /** Uniqueness of products survives any sequence of additions. */
  lemma {:induction false} MergeAllPreservesUnique(items: seq<CartItem>, adds: seq<CartItem>)
    requires UniqueProducts(items)
    ensures UniqueProducts(MergeAll(items, adds))
    decreases |adds|
  {
    if |adds| > 0 {
      MergePreservesUnique(items, adds[0]);
      MergeAllPreservesUnique(Merge(items, adds[0]), adds[1..]);
    }
  }

  /** The cart lists its products in first-seen order: the products it had,
      then each newly added product at the point it was first added. */
  lemma {:induction false} MergeAllOrder(items: seq<CartItem>, adds: seq<CartItem>)
    ensures ProductOrder(MergeAll(items, adds)) == AppendNew(ProductOrder(items), ProductOrder(adds))
    decreases |adds|
  {
    if |adds| > 0 {
      var next := Merge(items, adds[0]);
      MergeOrder(items, adds[0]);
      HasProductIffListed(items, adds[0].productId);
      MergeAllOrder(next, adds[1..]);
      assert ProductOrder(adds)[0] == adds[0].productId;
      assert ProductOrder(adds)[1..] == ProductOrder(adds[1..]);
    }
  }

  lemma {:induction false} AppendNewDistinct(order: seq<string>, pids: seq<string>)
    requires Distinct(order)
    ensures Distinct(AppendNew(order, pids))
    ensures forall x :: x in AppendNew(order, pids) <==> x in order || x in pids
    decreases |pids|
  {
    if |pids| > 0 {
      var next := if pids[0] in order then order else order + [pids[0]];
      AppendNewDistinct(next, pids[1..]);
      assert forall x :: x in pids <==> x == pids[0] || x in pids[1..];
    }
  }

  lemma {:induction false} DistinctCardinality(s: seq<string>)
    requires Distinct(s)
    ensures |set x | x in s| == |s|
    decreases |s|
  {
    if |s| > 0 {
      var init := s[..|s| - 1];
      DistinctCardinality(init);
      assert (set x | x in s) == (set x | x in init) + {s[|s| - 1]};
      assert s[|s| - 1] !in init;
    }
  }

  lemma ProductSetListed(adds: seq<CartItem>)
    ensures (set i | 0 <= i < |adds| :: adds[i].productId) == (set x | x in ProductOrder(adds))
  {
    forall x | x in ProductOrder(adds)
      ensures x in set i | 0 <= i < |adds| :: adds[i].productId
    {
      var i :| 0 <= i < |adds| && ProductOrder(adds)[i] == x;
    }
    forall i | 0 <= i < |adds|
      ensures adds[i].productId in ProductOrder(adds)
    {
      assert ProductOrder(adds)[i] == adds[i].productId;
    }
  }

  lemma SameElements(a: seq<string>, b: seq<string>)
    requires forall x :: x in a <==> x in b
    ensures (set x | x in a) == (set x | x in b)
  {
  }

  /** Adding items to an empty cart leaves one line per distinct product. */
  lemma DistinctProductsCount(adds: seq<CartItem>)
    ensures |MergeAll([], adds)| == |set i | 0 <= i < |adds| :: adds[i].productId|
  {
    var order := ProductOrder(MergeAll([], adds));
    MergeAllOrder([], adds);
    assert ProductOrder([]) == [];
    AppendNewDistinct([], ProductOrder(adds));
    DistinctCardinality(order);
    SameElements(order, ProductOrder(adds));
    ProductSetListed(adds);
  }

  lemma {:induction false} MergeAllOneLine(line: CartItem, adds: seq<CartItem>)
    requires forall i :: 0 <= i < |adds| ==> adds[i].productId == line.productId
    ensures MergeAll([line], adds) == [Grow(line, QuantityOf(adds, line.productId))]
    decreases |adds|
  {
    if |adds| > 0 {
      var next := Merge([line], adds[0]);
      assert IsFirst([line], adds[0].productId, 0);
      assert next == [Grow(line, adds[0].quantity)];
      MergeAllOneLine(Grow(line, adds[0].quantity), adds[1..]);
    }
  }

  /** Repeatedly adding one product to an empty cart leaves exactly one line
      for it; its quantity is the arithmetic sum of the added quantities
      (zero and negative ones included) and its other fields are those of
      the first item added. */
  lemma SameProductSums(adds: seq<CartItem>, pid: string)
    requires |adds| > 0
    requires forall i :: 0 <= i < |adds| ==> adds[i].productId == pid
    ensures MergeAll([], adds) == [CartItem(pid, QuantityOf(adds, pid), adds[0].details)]
  {
    assert Merge([], adds[0]) == [adds[0]];
    assert MergeAll([], adds) == MergeAll([adds[0]], adds[1..]);
    MergeAllOneLine(adds[0], adds[1..]);
    assert QuantityOf(adds, pid) == adds[0].quantity + QuantityOf(adds[1..], pid);
  }
}
