/** A user's cart: an ordered sequence of lines, at most one per product,
    each holding a copy of the product taken when the line was created. */
module Carts {
  import opened Seqs
  import opened Catalog

  /** A cart line. `product` is the product as it was when the line was
      appended; later catalog updates do not reach it. */
  datatype CartLine = CartLine(productId: int, quantity: int, product: Product)

  /** The cart of `userId`, empty when the user has none yet (`carts[id] || []`). */
  function CartOf(carts: map<int, seq<CartLine>>, userId: int): (r: seq<CartLine>)
    ensures (forall u :: u in carts ==> WellFormedCart(carts[u])) ==> WellFormedCart(r)
    ensures userId !in carts ==> |r| == 0
  {
    if userId in carts then carts[userId] else []
  }

  /** At most one line per product, and each line's copy is of its own product. */
  predicate WellFormedCart(lines: seq<CartLine>)
  {
    && (forall i, j :: 0 <= i < j < |lines| ==> lines[i].productId != lines[j].productId)
    && (forall i :: 0 <= i < |lines| ==> lines[i].product.id == lines[i].productId)
  }

  /** The position of the first line for `productId`, or -1 when there is none. */
  function LineIndex(lines: seq<CartLine>, productId: int): (k: int)
    ensures -1 <= k < |lines|
    ensures k >= 0 ==> lines[k].productId == productId
    ensures forall j :: 0 <= j < |lines| && (k == -1 || j < k) ==> lines[j].productId != productId
  {
    FindIndex((l: CartLine) => l.productId == productId, lines)
  }

  /** The quantity one line contributes towards `productId`. */
  function Contribution(line: CartLine, productId: int): int
  {
    if line.productId == productId then line.quantity else 0
  }

  /** The total quantity of `productId` over all lines of the cart. */
  function QuantityOf(lines: seq<CartLine>, productId: int): int
  {
    if |lines| == 0 then 0 else Contribution(lines[0], productId) + QuantityOf(lines[1..], productId)
  }

  lemma {:induction false} QuantityOfAppend(a: seq<CartLine>, b: seq<CartLine>, productId: int)
    ensures QuantityOf(a + b, productId) == QuantityOf(a, productId) + QuantityOf(b, productId)
  {
    if |a| == 0 {
      assert a + b == b;
    } else {
      assert (a + b)[1..] == a[1..] + b;
      QuantityOfAppend(a[1..], b, productId);
    }
  }

  /** Replacing one line changes the total by the difference of the two lines' contributions. */
  lemma QuantityOfUpdate(lines: seq<CartLine>, k: int, x: CartLine, productId: int)
    requires 0 <= k < |lines|
    ensures QuantityOf(lines[k := x], productId) ==
            QuantityOf(lines, productId) - Contribution(lines[k], productId) + Contribution(x, productId)
  {
    assert lines == lines[..k] + ([lines[k]] + lines[k + 1..]);
    assert lines[k := x] == lines[..k] + ([x] + lines[k + 1..]);
    QuantityOfAppend(lines[..k], [lines[k]] + lines[k + 1..], productId);
    QuantityOfAppend(lines[..k], [x] + lines[k + 1..], productId);
    QuantityOfAppend([lines[k]], lines[k + 1..], productId);
    QuantityOfAppend([x], lines[k + 1..], productId);
  }

  /** With at most one line per product, the total for a product is the
      quantity of its line, or 0 when it has none. */
  lemma {:induction false} QuantityOfSingle(lines: seq<CartLine>, productId: int)
    requires WellFormedCart(lines)
    ensures QuantityOf(lines, productId) ==
            (var k := LineIndex(lines, productId); if k >= 0 then lines[k].quantity else 0)
  {
    if |lines| > 0 {
      var tail := lines[1..];
      TailWellFormed(lines);
      QuantityOfSingle(tail, productId);
      if lines[0].productId == productId {
        assert LineIndex(tail, productId) == -1 by {
          forall j | 0 <= j < |tail| ensures tail[j].productId != productId {
            assert tail[j] == lines[j + 1];
          }
        }
      }
    }
  }

  // ---------------------------------------------------------------------
  // Removing a product's line (`filter(item => item.productId !== productId)`).

  /** The cart without the lines for `productId`, the other lines in order. */
  function RemoveLine(lines: seq<CartLine>, productId: int): (r: seq<CartLine>)
    ensures LineIndex(r, productId) == -1
    ensures forall i :: 0 <= i < |r| ==> r[i] in lines
    ensures forall i :: 0 <= i < |lines| && lines[i].productId != productId ==> lines[i] in r
  {
    Filter((l: CartLine) => l.productId != productId, lines)
  }

  /** Removing keeps the other lines in their order. */
  lemma RemoveLineInOrder(lines: seq<CartLine>, productId: int)
    ensures IsSubsequence(RemoveLine(lines, productId), lines)
  {
    FilterIsSubsequence((l: CartLine) => l.productId != productId, lines);
  }

  /** Dropping the first line keeps a cart well formed. */
  lemma TailWellFormed(lines: seq<CartLine>)
    requires WellFormedCart(lines) && |lines| > 0
    ensures WellFormedCart(lines[1..])
  {
    var tail := lines[1..];
    forall i, j | 0 <= i < j < |tail| ensures tail[i].productId != tail[j].productId {
      assert tail[i] == lines[i + 1] && tail[j] == lines[j + 1];
    }
  }

  /** The first line's product has no other line in a well-formed cart. */
  lemma HeadOnlyOnce(lines: seq<CartLine>, x: CartLine)
    requires WellFormedCart(lines) && |lines| > 0 && x in lines[1..]
    ensures x.productId != lines[0].productId
  {
    var m :| 0 <= m < |lines[1..]| && lines[1..][m] == x;
    assert lines[m + 1] == x;
  }

  /** Removing keeps the cart well formed. */
  lemma {:induction false} RemoveLineWellFormed(lines: seq<CartLine>, productId: int)
    requires WellFormedCart(lines)
    ensures WellFormedCart(RemoveLine(lines, productId))
  {
    if |lines| > 0 {
      var tail := lines[1..];
      TailWellFormed(lines);
      RemoveLineWellFormed(tail, productId);
      var rt := RemoveLine(tail, productId);
      var r := RemoveLine(lines, productId);
      if lines[0].productId != productId {
        assert r == [lines[0]] + rt;
        forall j | 0 <= j < |rt| ensures rt[j].productId != lines[0].productId {
          HeadOnlyOnce(lines, rt[j]);
        }
        forall i, j | 0 <= i < j < |r| ensures r[i].productId != r[j].productId {
          assert r[j] == rt[j - 1];
          if i > 0 {
            assert r[i] == rt[i - 1];
          }
        }
      } else {
        assert r == rt;
      }
    }
  }

  /** Removing is idempotent, and removing a product that has no line changes nothing. */
  lemma RemoveLineIdempotent(lines: seq<CartLine>, productId: int)
    ensures RemoveLine(RemoveLine(lines, productId), productId) == RemoveLine(lines, productId)
    ensures LineIndex(lines, productId) == -1 ==> RemoveLine(lines, productId) == lines
  {
    var f := (l: CartLine) => l.productId != productId;
    FilterIdempotent(f, lines);
    if LineIndex(lines, productId) == -1 {
      FilterKeepsAll(f, lines);
    }
  }

  /** In a well-formed cart, cutting out the line for `productId` at its
      position (`splice(itemIndex, 1)`) is the same as removing it by filter. */
  lemma SpliceIsRemoveLine(lines: seq<CartLine>, productId: int)
    requires WellFormedCart(lines) && LineIndex(lines, productId) >= 0
    ensures var k := LineIndex(lines, productId);
            lines[..k] + lines[k + 1..] == RemoveLine(lines, productId)
  {
    var k := LineIndex(lines, productId);
    var f := (l: CartLine) => l.productId != productId;
    assert lines == lines[..k] + ([lines[k]] + lines[k + 1..]);
    FilterAppend(f, lines[..k], [lines[k]] + lines[k + 1..]);
    FilterAppend(f, [lines[k]], lines[k + 1..]);
    assert Filter(f, [lines[k]]) == [];
    var before, after := lines[..k], lines[k + 1..];
    assert forall i :: 0 <= i < |before| ==> f(before[i]) by {
      forall i | 0 <= i < |before| ensures f(before[i]) {
        assert before[i] == lines[i];
      }
    }
    assert forall i :: 0 <= i < |after| ==> f(after[i]) by {
      forall i | 0 <= i < |after| ensures f(after[i]) {
        assert after[i] == lines[k + 1 + i];
      }
    }
    FilterKeepsAll(f, before);
    FilterKeepsAll(f, after);
  }

  /** Changing the quantity of one line leaves the other lines as they were. */
  lemma QuantityUpdateRemoveLine(lines: seq<CartLine>, k: int, quantity: int)
    requires 0 <= k < |lines|
    ensures RemoveLine(lines[k := lines[k].(quantity := quantity)], lines[k].productId) ==
            RemoveLine(lines, lines[k].productId)
  {
    var x := lines[k].(quantity := quantity);
    var f := (l: CartLine) => l.productId != lines[k].productId;
    assert lines == lines[..k] + ([lines[k]] + lines[k + 1..]);
    assert lines[k := x] == lines[..k] + ([x] + lines[k + 1..]);
    FilterAppend(f, lines[..k], [lines[k]] + lines[k + 1..]);
    FilterAppend(f, [lines[k]], lines[k + 1..]);
    FilterAppend(f, lines[..k], [x] + lines[k + 1..]);
    FilterAppend(f, [x], lines[k + 1..]);
  }

  // ---------------------------------------------------------------------
  // Adding to the cart.

  /** `addItem` once its checks have passed: sum into the product's line when
      there is one, otherwise append a new line holding a copy of `p`. */
  function AddLine(lines: seq<CartLine>, p: Product, quantity: int): (r: seq<CartLine>)
    ensures WellFormedCart(lines) ==> WellFormedCart(r)
    ensures LineIndex(r, p.id) >= 0
    ensures |r| == if LineIndex(lines, p.id) >= 0 then |lines| else |lines| + 1
  {
    var k := LineIndex(lines, p.id);
    if k >= 0 then
      var r := lines[k := lines[k].(quantity := lines[k].quantity + quantity)];
      assert r[k].productId == p.id;
      r
    else
      var r := lines + [CartLine(p.id, quantity, p)];
      assert r[|lines|].productId == p.id;
      r
  }

  /** What `addItem` does to the cart: the product's quantity grows by exactly
      `quantity` and no other product's does; the other lines are untouched
      and keep their order; an existing line keeps its original copy of the
      product, while a new line goes at the end with a copy of `p`. */
  lemma AddLineSpec(lines: seq<CartLine>, p: Product, quantity: int, productId: int)
    ensures QuantityOf(AddLine(lines, p, quantity), productId) ==
            QuantityOf(lines, productId) + (if productId == p.id then quantity else 0)
    ensures RemoveLine(AddLine(lines, p, quantity), p.id) == RemoveLine(lines, p.id)
    ensures var k := LineIndex(lines, p.id);
            k >= 0 ==> AddLine(lines, p, quantity)[k].product == lines[k].product
    ensures LineIndex(lines, p.id) == -1 ==>
            AddLine(lines, p, quantity) == lines + [CartLine(p.id, quantity, p)]
  {
    var k := LineIndex(lines, p.id);
    if k >= 0 {
      var x := lines[k].(quantity := lines[k].quantity + quantity);
      assert AddLine(lines, p, quantity) == lines[k := x];
      QuantityOfUpdate(lines, k, x, productId);
      assert Contribution(x, productId) == Contribution(lines[k], productId) + (if productId == p.id then quantity else 0);
      QuantityUpdateRemoveLine(lines, k, lines[k].quantity + quantity);
    } else {
      var line := CartLine(p.id, quantity, p);
      assert AddLine(lines, p, quantity) == lines + [line];
      QuantityOfAppend(lines, [line], productId);
      assert [line][1..] == [];
      assert QuantityOf([line], productId) == Contribution(line, productId);
      var f := (l: CartLine) => l.productId != p.id;
      FilterAppend(f, lines, [line]);
      assert Filter(f, [line]) == [];
    }
  }

  /** Adding `a` and then `b` of the same product gives the same cart as
      adding `a + b` at once. */
  lemma AddLineTwice(lines: seq<CartLine>, p: Product, a: int, b: int)
    ensures AddLine(AddLine(lines, p, a), p, b) == AddLine(lines, p, a + b)
  {
    var k := LineIndex(lines, p.id);
    var once := AddLine(lines, p, a);
    if k >= 0 {
      assert forall j :: 0 <= j < |once| ==> once[j].productId == lines[j].productId;
      assert LineIndex(once, p.id) == k;
    } else {
      assert LineIndex(once, p.id) == |lines|;
      assert AddLine(once, p, b) == lines + [CartLine(p.id, a + b, p)];
    }
  }

  // ---------------------------------------------------------------------
  // Setting a line's quantity.

  /** `PUT /api/cart/:productId` once the line is found: a quantity of 0 or
      less cuts the line out; any other quantity replaces the line's. */
  function SetLineQuantity(lines: seq<CartLine>, productId: int, quantity: int): (r: seq<CartLine>)
    requires LineIndex(lines, productId) >= 0
    ensures |r| == if quantity <= 0 then |lines| - 1 else |lines|
  {
    var k := LineIndex(lines, productId);
    if quantity <= 0 then lines[..k] + lines[k + 1..]
    else lines[k := lines[k].(quantity := quantity)]
  }

  /** What setting a quantity does to a well-formed cart: with a quantity of
      0 or less the product has no line afterwards; otherwise its quantity is
      exactly the new one (no stock check) and its copy of the product is
      kept; either way every other line is untouched and in order, and the
      cart stays well formed. */
  lemma SetLineQuantitySpec(lines: seq<CartLine>, productId: int, quantity: int)
    requires WellFormedCart(lines) && LineIndex(lines, productId) >= 0
    ensures var r := SetLineQuantity(lines, productId, quantity);
      && WellFormedCart(r)
      && RemoveLine(r, productId) == RemoveLine(lines, productId)
      && (quantity <= 0 ==> LineIndex(r, productId) == -1)
      && (quantity > 0 ==> QuantityOf(r, productId) == quantity)
      && (quantity > 0 ==> r[LineIndex(lines, productId)].product == lines[LineIndex(lines, productId)].product)
  {
    var k := LineIndex(lines, productId);
    var r := SetLineQuantity(lines, productId, quantity);
    if quantity <= 0 {
      SpliceIsRemoveLine(lines, productId);
      RemoveLineWellFormed(lines, productId);
      RemoveLineIdempotent(lines, productId);
    } else {
      QuantityUpdateRemoveLine(lines, k, quantity);
      assert forall j :: 0 <= j < |r| ==> r[j].productId == lines[j].productId;
      assert WellFormedCart(r);
      assert LineIndex(r, productId) == k;
      QuantityOfSingle(r, productId);
    }
  }
}
