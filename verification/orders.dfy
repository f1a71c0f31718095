/** The order ledger behind the order handlers. Creating an order records the
    submitted lines verbatim and then empties the buyer's cart; it neither
    checks the total against the lines nor touches the catalog's stock. */
module Orders {
  import opened Common
  import Carts

  /** The status every new order starts in. */
  const Pending: string := "pending"

  datatype Order = Order(user: Id, lines: seq<Carts.Line>, total: int, status: string)

  /** Orders keyed by their own id. */
  type Ledger = map<Id, Order>

  /** The two stores order creation writes to. */
  datatype OrderBook = OrderBook(orders: Ledger, carts: Carts.CartStore)

  datatype OrderBody = OrderBody(user: Option<Id>, products: Option<seq<Carts.Line>>, total: Option<int>)

  predicate ValidOrder(body: OrderBody) {
    TruthyString(body.user) && TruthyArray(body.products) && TruthyNumber(body.total)
  }

  /** `POST /orders`, with `id` the identifier the database assigns to the new
      document; an id already in use is the store's duplicate-key failure,
      which the handler reports as a bad request. The cart update that
      follows has no upsert: a user without a cart still has none. */
  function CreateOrder(book: OrderBook, id: Id, body: OrderBody): (t: Transition<OrderBook, Order>)
    ensures !ValidOrder(body) ==> t == Transition(book, Err(BadRequest(IncompleteRequest)))
    ensures ValidOrder(body) && id in book.orders ==> t == Transition(book, Err(BadRequest(DuplicateKey)))
    ensures ValidOrder(body) && id !in book.orders ==>
      && t.result.Ok?
      && t.result.value.user == body.user.value
      && t.result.value.lines == body.products.value
      && t.result.value.total == body.total.value
      && t.result.value.status == Pending
      && t.next.orders.Keys == book.orders.Keys + {id}
      && t.next.orders[id] == t.result.value
      && (forall o :: o in book.orders ==> t.next.orders[o] == book.orders[o])
    // the buyer's whole cart is emptied, whatever was ordered
    ensures ValidOrder(body) && id !in book.orders ==>
      && t.next.carts.Keys == book.carts.Keys
      && (body.user.value in book.carts ==> t.next.carts[body.user.value] == Carts.Cart([], 0))
      && (forall u :: u in book.carts && u != body.user.value ==> t.next.carts[u] == book.carts[u])
  {
    if !ValidOrder(body) then Transition(book, Err(BadRequest(IncompleteRequest)))
    else if id in book.orders then Transition(book, Err(BadRequest(DuplicateKey)))
    else
      var user := body.user.value;
      var order := Order(user, body.products.value, body.total.value, Pending);
      var carts := if user in book.carts then book.carts[user := Carts.Cart([], 0)] else book.carts;
      Transition(OrderBook(book.orders[id := order], carts), Ok(order))
  }

  /** Checkout never breaks the cart-total invariant: the only cart it
      touches ends up empty with total 0. */
  lemma CreateOrderKeepsCartsConsistent(book: OrderBook, id: Id, body: OrderBody)
    requires Carts.AllConsistent(book.carts)
    ensures Carts.AllConsistent(CreateOrder(book, id, body).next.carts)
  {
  }

  /** Checkout is not a reconciliation: a cart line for a product that was
      not ordered is dropped along with the ordered ones, so no unit of any
      product is left in the buyer's cart. */
  lemma CreateOrderDropsUnorderedLines(book: OrderBook, id: Id, body: OrderBody, product: Id)
    requires ValidOrder(body) && id !in book.orders && body.user.value in book.carts
    requires Carts.QuantityOf(book.carts[body.user.value].lines, product) != 0
    requires forall k :: 0 <= k < |body.products.value| ==> body.products.value[k].product != product
    ensures Carts.QuantityOf(CreateOrder(book, id, body).next.carts[body.user.value].lines, product) == 0
  {
  }

  /** The submitted total is recorded without comparing it with the lines:
      one unit at price 100 is accepted with a total of 1. */
  lemma CreateOrderTotalUnchecked()
    ensures var body := OrderBody(Some("u"), Some([Carts.Line("p", 1, 100)]), Some(1));
      var t := CreateOrder(OrderBook(map[], map[]), "o", body);
      t.result.Ok? && t.result.value.total != Carts.Sum(t.result.value.lines)
  {
  }

  /** An empty product list is truthy and accepted; a zero total is not. */
  lemma CreateOrderTruthiness(book: OrderBook, id: Id, user: Id, lines: seq<Carts.Line>)
    requires user != "" && id !in book.orders
    ensures CreateOrder(book, id, OrderBody(Some(user), Some([]), Some(1))).result.Ok?
    ensures CreateOrder(book, id, OrderBody(Some(user), Some(lines), Some(0))).result
         == Err(BadRequest(IncompleteRequest))
  {
  }

  /** `PUT /orders/:id/status`: the status is checked before the order is
      looked up, and is the only field that changes. */
  function UpdateOrderStatus(orders: Ledger, id: Id, status: Option<string>): (t: Transition<Ledger, Order>)
    ensures !TruthyString(status) ==> t == Transition(orders, Err(BadRequest(IncompleteRequest)))
    ensures TruthyString(status) && id !in orders ==> t == Transition(orders, Err(NotFound))
    ensures TruthyString(status) && id in orders ==>
      && t.result.Ok?
      && t.result.value.status == status.value
      && t.result.value.user == orders[id].user
      && t.result.value.lines == orders[id].lines
      && t.result.value.total == orders[id].total
      && t.next.Keys == orders.Keys
      && t.next[id] == t.result.value
      && (forall o :: o in orders && o != id ==> t.next[o] == orders[o])
  {
    if !TruthyString(status) then Transition(orders, Err(BadRequest(IncompleteRequest)))
    else if id !in orders then Transition(orders, Err(NotFound))
    else
      var order := orders[id].(status := status.value);
      Transition(orders[id := order], Ok(order))
  }

  /** `DELETE /orders/:id`. */
  function DeleteOrder(orders: Ledger, id: Id): (t: Transition<Ledger, ()>)
    ensures id !in orders ==> t == Transition(orders, Err(NotFound))
    ensures id in orders ==> t.result.Ok?
    ensures t.next.Keys == orders.Keys - {id}
    ensures forall o :: o in t.next ==> t.next[o] == orders[o]
  {
    if id !in orders then Transition(orders, Err(NotFound))
    else Transition(orders - {id}, Ok(()))
  }
}
