/** The per-user cart store behind the cart handlers: one cart per user id,
    each an insertion-ordered sequence of lines with a captured unit price,
    plus a stored total. */
module Carts {
  import opened Common

  /** One cart or order line: the product, how many, and the unit price
      captured when the line was first created. */
  datatype Line = Line(product: Id, quantity: int, price: int)

  datatype Cart = Cart(lines: seq<Line>, total: int)

  /** Carts keyed by the id of the user owning them. */
  type CartStore = map<Id, Cart>

  function Subtotal(l: Line): int {
    l.price * l.quantity
  }

  /** The line sum Σ price × quantity, the value the stored total should hold. */
  function Sum(lines: seq<Line>): int {
    if |lines| == 0 then 0 else Subtotal(lines[0]) + Sum(lines[1..])
  }

  /** How many units of `product` the lines hold altogether. */
  function QuantityOf(lines: seq<Line>, product: Id): int {
    if |lines| == 0 then 0
    else (if lines[0].product == product then lines[0].quantity else 0) + QuantityOf(lines[1..], product)
  }

  /** The stored total agrees with the lines. */
  predicate Consistent(c: Cart) {
    c.total == Sum(c.lines)
  }

  predicate AllConsistent(carts: CartStore) {
    forall u :: u in carts ==> Consistent(carts[u])
  }

  /** No two lines of a cart name the same product. */
  predicate DistinctProducts(lines: seq<Line>) {
    forall i, j :: 0 <= i < j < |lines| ==> lines[i].product != lines[j].product
  }

  predicate NoLineFor(lines: seq<Line>, product: Id) {
    forall j :: 0 <= j < |lines| ==> lines[j].product != product
  }

  /** Line `i` is the first line for `product`. */
  predicate FirstMatch(lines: seq<Line>, product: Id, i: int) {
    && 0 <= i < |lines|
    && lines[i].product == product
    && forall j :: 0 <= j < i ==> lines[j].product != product
  }

  lemma {:induction false} SumAppend(a: seq<Line>, b: seq<Line>)
    ensures Sum(a + b) == Sum(a) + Sum(b)
  {
    if |a| == 0 {
      assert a + b == b;
    } else {
      assert (a + b)[1..] == a[1..] + b;
      SumAppend(a[1..], b);
    }
  }

  lemma {:induction false} SumUpdate(lines: seq<Line>, i: int, l: Line)
    requires 0 <= i < |lines|
    ensures Sum(lines[i := l]) == Sum(lines) - Subtotal(lines[i]) + Subtotal(l)
  {
    if i > 0 {
      assert lines[i := l][1..] == lines[1..][i - 1 := l];
      SumUpdate(lines[1..], i - 1, l);
    } else {
      assert lines[i := l][1..] == lines[1..];
    }
  }

  lemma {:induction false} QuantityAppend(a: seq<Line>, b: seq<Line>, product: Id)
    ensures QuantityOf(a + b, product) == QuantityOf(a, product) + QuantityOf(b, product)
  {
    if |a| == 0 {
      assert a + b == b;
    } else {
      assert (a + b)[1..] == a[1..] + b;
      QuantityAppend(a[1..], b, product);
    }
  }

  lemma {:induction false} QuantityUpdate(lines: seq<Line>, i: int, q: int, product: Id)
    requires 0 <= i < |lines|
    ensures QuantityOf(lines[i := lines[i].(quantity := q)], product)
         == QuantityOf(lines, product) + (if lines[i].product == product then q - lines[i].quantity else 0)
  {
    var l := lines[i].(quantity := q);
    if i > 0 {
      assert lines[i := l][1..] == lines[1..][i - 1 := l];
      QuantityUpdate(lines[1..], i - 1, q, product);
    } else {
      assert lines[i := l][1..] == lines[1..];
    }
  }

  /** The `reduce` the handlers use to recompute a cart total, a left fold
      over the lines; it yields exactly the line sum. */
  method ReduceTotal(lines: seq<Line>) returns (total: int)
    ensures total == Sum(lines)
  {
    total := 0;
    var i := 0;
    while i < |lines|
      invariant 0 <= i <= |lines|
      invariant total == Sum(lines[..i])
    {
      assert lines[..i + 1] == lines[..i] + [lines[i]];
      SumAppend(lines[..i], [lines[i]]);
      total := total + Subtotal(lines[i]);
      i := i + 1;
    }
    assert lines[..i] == lines;
  }

  /** `Array.prototype.findIndex` on the product id: the first matching
      position, or -1 when no line is for `product`. */
  function FindIndex(lines: seq<Line>, product: Id): (i: int)
    ensures -1 <= i < |lines|
    ensures i == -1 <==> NoLineFor(lines, product)
    ensures i != -1 ==> FirstMatch(lines, product, i)
  {
    if |lines| == 0 then -1
    else if lines[0].product == product then 0
    else
      var k := FindIndex(lines[1..], product);
      if k == -1 then -1 else k + 1
  }

  // ---------------------------------------------------------------------
  // addProductToCart

  datatype AddBody = AddBody(product: Option<Id>, quantity: Option<int>, price: Option<int>)

  predicate ValidAdd(body: AddBody) {
    TruthyString(body.product) && TruthyNumber(body.quantity) && TruthyNumber(body.price)
  }

  /** The lines of an existing cart after adding `quantity` of `product`:
      the first line for the product grows and keeps its captured price, or,
      when there is none, a new line goes at the end. */
  function MergeLine(lines: seq<Line>, product: Id, quantity: int, price: int): (r: seq<Line>)
    ensures NoLineFor(lines, product) ==> r == lines + [Line(product, quantity, price)]
    ensures forall i :: FirstMatch(lines, product, i) ==>
      && |r| == |lines|
      && r[i] == Line(product, lines[i].quantity + quantity, lines[i].price)
      && (forall j :: 0 <= j < |lines| && j != i ==> r[j] == lines[j])
  {
    var i := FindIndex(lines, product);
    if i == -1 then lines + [Line(product, quantity, price)]
    else lines[i := lines[i].(quantity := lines[i].quantity + quantity)]
  }

  /** The lines a user's cart holds before a request: none without a cart. */
  function LinesOf(carts: CartStore, user: Id): seq<Line> {
    if user in carts then carts[user].lines else []
  }

  /** `POST /cart/user/:userId/product`. The price comes from the request and
      stock is never consulted. */
  function AddProduct(carts: CartStore, user: Id, body: AddBody): (t: Transition<CartStore, Cart>)
    ensures !ValidAdd(body) ==> t == Transition(carts, Err(BadRequest(IncompleteRequest)))
    ensures ValidAdd(body) ==> t.result.Ok? && t.next == carts[user := t.result.value]
    ensures ValidAdd(body) ==> Consistent(t.result.value)
    ensures ValidAdd(body) && user !in carts ==>
      t.result.value == Cart([Line(body.product.value, body.quantity.value, body.price.value)],
                             body.price.value * body.quantity.value)
    ensures ValidAdd(body) && user in carts ==>
      t.result.value.lines == MergeLine(carts[user].lines, body.product.value, body.quantity.value, body.price.value)
  {
    if !ValidAdd(body) then Transition(carts, Err(BadRequest(IncompleteRequest)))
    else
      var product, quantity, price := body.product.value, body.quantity.value, body.price.value;
      var cart :=
        if user !in carts then Cart([Line(product, quantity, price)], price * quantity)
        else
          var lines := MergeLine(carts[user].lines, product, quantity, price);
          Cart(lines, Sum(lines));
      Transition(carts[user := cart], Ok(cart))
  }

  /** Adding moves exactly the requested quantity onto the product and leaves
      every other product's quantity alone. */
  lemma AddProductQuantities(carts: CartStore, user: Id, body: AddBody, other: Id)
    requires ValidAdd(body)
    ensures QuantityOf(AddProduct(carts, user, body).result.value.lines, other)
         == QuantityOf(LinesOf(carts, user), other)
            + (if other == body.product.value then body.quantity.value else 0)
  {
    var product, quantity, price := body.product.value, body.quantity.value, body.price.value;
    var added := Line(product, quantity, price);
    if user !in carts {
      assert QuantityOf([added], other) == QuantityOf([added][1..], other) + (if other == product then quantity else 0);
    } else {
      var lines := carts[user].lines;
      var i := FindIndex(lines, product);
      if i == -1 {
        QuantityAppend(lines, [added], other);
        assert QuantityOf([added], other) == QuantityOf([added][1..], other) + (if other == product then quantity else 0);
      } else {
        assert MergeLine(lines, product, quantity, price) == lines[i := lines[i].(quantity := lines[i].quantity + quantity)];
        QuantityUpdate(lines, i, lines[i].quantity + quantity, other);
      }
    }
  }

  /** The recomputed total grows by the captured price of the line that
      absorbed the quantity: the old line's price when one matched (even if
      the request quoted another), the request's price for a new line. */
  lemma AddProductTotal(carts: CartStore, user: Id, body: AddBody)
    requires ValidAdd(body) && user in carts
    ensures NoLineFor(carts[user].lines, body.product.value) ==>
      AddProduct(carts, user, body).result.value.total
        == Sum(carts[user].lines) + body.price.value * body.quantity.value
    ensures forall i :: FirstMatch(carts[user].lines, body.product.value, i) ==>
      AddProduct(carts, user, body).result.value.total
        == Sum(carts[user].lines) + carts[user].lines[i].price * body.quantity.value
  {
    var product, quantity, price := body.product.value, body.quantity.value, body.price.value;
    var lines := carts[user].lines;
    var i := FindIndex(lines, product);
    if i == -1 {
      SumAppend(lines, [Line(product, quantity, price)]);
    } else {
      var l := lines[i].(quantity := lines[i].quantity + quantity);
      SumUpdate(lines, i, l);
      assert Subtotal(l) == Subtotal(lines[i]) + lines[i].price * quantity;
      forall j | FirstMatch(lines, product, j)
        ensures j == i
      {
      }
    }
  }

  /** A cart with one line per product keeps that shape under adding. */
  lemma AddProductKeepsDistinct(carts: CartStore, user: Id, body: AddBody)
    requires ValidAdd(body)
    requires user in carts ==> DistinctProducts(carts[user].lines)
    ensures DistinctProducts(AddProduct(carts, user, body).result.value.lines)
  {
  }

  // ---------------------------------------------------------------------
  // removeProductFromCart

  /** `Array.prototype.filter` keeping the lines for other products. */
  function RemoveLines(lines: seq<Line>, product: Id): (r: seq<Line>)
    ensures |r| <= |lines|
    ensures forall l :: l in r ==> l in lines && l.product != product
    ensures forall l :: l in lines && l.product != product ==> l in r
  {
    if |lines| == 0 then []
    else (if lines[0].product == product then [] else [lines[0]]) + RemoveLines(lines[1..], product)
  }

  /** Removal keeps the surviving lines in their order: it works piecewise. */
  lemma {:induction false} RemoveLinesAppend(a: seq<Line>, b: seq<Line>, product: Id)
    ensures RemoveLines(a + b, product) == RemoveLines(a, product) + RemoveLines(b, product)
  {
    if |a| == 0 {
      assert a + b == b;
    } else {
      assert (a + b)[1..] == a[1..] + b;
      RemoveLinesAppend(a[1..], b, product);
    }
  }

  /** Removing an absent product changes nothing. */
  lemma {:induction false} RemoveLinesAbsent(lines: seq<Line>, product: Id)
    requires NoLineFor(lines, product)
    ensures RemoveLines(lines, product) == lines
  {
    if |lines| > 0 {
      RemoveLinesAbsent(lines[1..], product);
    }
  }

  /** Removal takes away every unit of the product and no unit of another. */
  lemma {:induction false} RemoveLinesQuantities(lines: seq<Line>, product: Id, other: Id)
    ensures QuantityOf(RemoveLines(lines, product), other)
         == if other == product then 0 else QuantityOf(lines, other)
  {
    if |lines| > 0 {
      var head := if lines[0].product == product then [] else [lines[0]];
      RemoveLinesQuantities(lines[1..], product, other);
      QuantityAppend(head, RemoveLines(lines[1..], product), other);
      if head != [] {
        assert QuantityOf(head, other) == QuantityOf(head[1..], other) + (if lines[0].product == other then lines[0].quantity else 0);
      }
    }
  }

  lemma {:induction false} RemoveLinesKeepsDistinct(lines: seq<Line>, product: Id)
    requires DistinctProducts(lines)
    ensures DistinctProducts(RemoveLines(lines, product))
  {
    if |lines| > 0 {
      var rest := RemoveLines(lines[1..], product);
      RemoveLinesKeepsDistinct(lines[1..], product);
      if lines[0].product != product {
        var r := [lines[0]] + rest;
        forall i, j | 0 <= i < j < |r|
          ensures r[i].product != r[j].product
        {
          if i == 0 {
            assert r[j] in rest;
            assert r[j] in lines[1..];
          } else {
            assert r[i] == rest[i - 1] && r[j] == rest[j - 1];
          }
        }
      }
    }
  }

  /** `DELETE /cart/user/:userId/product/:productId`. */
  function RemoveProduct(carts: CartStore, user: Id, product: Id): (t: Transition<CartStore, Cart>)
    ensures user !in carts ==> t == Transition(carts, Err(NotFound))
    ensures user in carts ==> t.result.Ok? && t.next == carts[user := t.result.value]
    ensures user in carts ==> Consistent(t.result.value)
    ensures user in carts ==> t.result.value.lines == RemoveLines(carts[user].lines, product)
  {
    if user !in carts then Transition(carts, Err(NotFound))
    else
      var lines := RemoveLines(carts[user].lines, product);
      var cart := Cart(lines, Sum(lines));
      Transition(carts[user := cart], Ok(cart))
  }

  // ---------------------------------------------------------------------
  // clearCart

  /** `DELETE /cart/user/:userId`: the cart is emptied, never deleted. */
  function ClearCart(carts: CartStore, user: Id): (t: Transition<CartStore, Cart>)
    ensures user !in carts ==> t == Transition(carts, Err(NotFound))
    ensures user in carts ==>
      && t.result == Ok(Cart([], 0))
      && t.next.Keys == carts.Keys
      && t.next[user] == Cart([], 0)
    ensures forall u :: u in carts && u != user ==> t.next[u] == carts[u]
    ensures AllConsistent(carts) ==> AllConsistent(t.next)
  {
    if user !in carts then Transition(carts, Err(NotFound))
    else Transition(carts[user := Cart([], 0)], Ok(Cart([], 0)))
  }

  /** Clearing twice is clearing once. */
  lemma ClearCartIdempotent(carts: CartStore, user: Id)
    ensures ClearCart(ClearCart(carts, user).next, user) == ClearCart(carts, user)
  {
    if user in carts {
      var once := carts[user := Cart([], 0)];
      assert once[user := Cart([], 0)] == once;
    }
  }

  // ---------------------------------------------------------------------
  // createOrUpdateCart

  datatype CartBody = CartBody(user: Option<Id>, products: Option<seq<Line>>, total: Option<int>)

  predicate ValidReplace(body: CartBody) {
    TruthyString(body.user) && TruthyArray(body.products) && TruthyNumber(body.total)
  }

  /** `POST /cart`: the lines and total are replaced by the submitted ones,
      whether or not the user had a cart, and the total is not recomputed. */
  function ReplaceCart(carts: CartStore, body: CartBody): (t: Transition<CartStore, Cart>)
    ensures !ValidReplace(body) ==> t == Transition(carts, Err(BadRequest(IncompleteRequest)))
    ensures ValidReplace(body) ==>
      && t.result.Ok?
      && t.result.value.lines == body.products.value
      && t.result.value.total == body.total.value
      && t.next.Keys == carts.Keys + {body.user.value}
      && t.next[body.user.value] == t.result.value
      && forall u :: u in carts && u != body.user.value ==> t.next[u] == carts[u]
  {
    if !ValidReplace(body) then Transition(carts, Err(BadRequest(IncompleteRequest)))
    else
      var cart := Cart(body.products.value, body.total.value);
      Transition(carts[body.user.value := cart], Ok(cart))
  }

  /** The wholesale replace breaks the total invariant: an empty line list
      with a non-zero total is accepted as is. */
  lemma ReplaceCartBreaksConsistency()
    ensures var t := ReplaceCart(map[], CartBody(Some("u"), Some([]), Some(5)));
      t.result.Ok? && !AllConsistent(t.next)
  {
  }

  /** The wholesale replace rejects a total of 0 but accepts an empty list. */
  lemma ReplaceCartTruthiness(carts: CartStore, user: Id, lines: seq<Line>)
    requires user != ""
    ensures ReplaceCart(carts, CartBody(Some(user), Some(lines), Some(0))).result.Err?
    ensures ReplaceCart(carts, CartBody(Some(user), Some([]), Some(1))).result.Ok?
  {
  }
}
