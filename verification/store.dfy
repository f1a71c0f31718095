/** The whole in-memory state the handlers act on, and one transition per
    request. Each handler touches only its own stores; every rejected request
    leaves the whole state as it was. */
module Store {
  import opened Common
  import Carts
  import Orders
  import Catalog
  import Users

  datatype Store = Store(
    carts: Carts.CartStore,
    orders: Orders.Ledger,
    catalog: Catalog.Catalog,
    users: Users.Registry)

  /** One request per handler; `id` on a create is the identifier the
      database assigns to the new document. */
  datatype Request =
    | ReplaceCart(cartBody: Carts.CartBody)
    | AddToCart(user: Id, addBody: Carts.AddBody)
    | RemoveFromCart(user: Id, product: Id)
    | ClearCart(user: Id)
    | CreateOrder(id: Id, orderBody: Orders.OrderBody)
    | UpdateOrderStatus(id: Id, status: Option<string>)
    | DeleteOrder(id: Id)
    | CreateWatch(id: Id, watchBody: Catalog.WatchBody)
    | UpdateWatch(id: Id, watchBody: Catalog.WatchBody)
    | DeleteWatch(id: Id)
    | SearchWatches(keyword: Option<string>)
    | CreateUser(id: Id, userBody: Users.UserBody)
    | UpdateUser(id: Id, userBody: Users.UserBody)
    | DeleteUser(id: Id)
    | GetUserById(id: Id)
  {
    predicate IsCartRequest() {
      ReplaceCart? || AddToCart? || RemoveFromCart? || ClearCart?
    }
    predicate IsOrderRequest() {
      CreateOrder? || UpdateOrderStatus? || DeleteOrder?
    }
    predicate IsWatchRequest() {
      CreateWatch? || UpdateWatch? || DeleteWatch? || SearchWatches?
    }
    predicate IsUserRequest() {
      CreateUser? || UpdateUser? || DeleteUser? || GetUserById?
    }
  }

  /** The body of a successful answer. */
  datatype Payload =
    | CartData(cart: Carts.Cart)
    | OrderData(order: Orders.Order)
    | WatchData(watch: Catalog.Watch)
    | WatchList(watches: Catalog.Catalog)
    | UserData(user: Users.User)
    | Done

  function Wrap<T>(r: Result<T>, f: T -> Payload): Result<Payload> {
    match r
    case Ok(v) => Ok(f(v))
    case Err(e) => Err(e)
  }

  function Step(s: Store, req: Request): (t: Transition<Store, Payload>)
    ensures !req.IsCartRequest() && !req.CreateOrder? ==> t.next.carts == s.carts
    ensures !req.IsOrderRequest() ==> t.next.orders == s.orders
    ensures !req.IsWatchRequest() ==> t.next.catalog == s.catalog
    ensures !req.IsUserRequest() ==> t.next.users == s.users
    ensures t.result.Err? ==> t.next == s
  {
    match req
    case ReplaceCart(body) =>
      var t := Carts.ReplaceCart(s.carts, body);
      Transition(s.(carts := t.next), Wrap(t.result, c => CartData(c)))
    case AddToCart(user, body) =>
      var t := Carts.AddProduct(s.carts, user, body);
      Transition(s.(carts := t.next), Wrap(t.result, c => CartData(c)))
    case RemoveFromCart(user, product) =>
      var t := Carts.RemoveProduct(s.carts, user, product);
      Transition(s.(carts := t.next), Wrap(t.result, c => CartData(c)))
    case ClearCart(user) =>
      var t := Carts.ClearCart(s.carts, user);
      Transition(s.(carts := t.next), Wrap(t.result, c => CartData(c)))
    case CreateOrder(id, body) =>
      var t := Orders.CreateOrder(Orders.OrderBook(s.orders, s.carts), id, body);
      Transition(s.(orders := t.next.orders, carts := t.next.carts), Wrap(t.result, o => OrderData(o)))
    case UpdateOrderStatus(id, status) =>
      var t := Orders.UpdateOrderStatus(s.orders, id, status);
      Transition(s.(orders := t.next), Wrap(t.result, o => OrderData(o)))
    case DeleteOrder(id) =>
      var t := Orders.DeleteOrder(s.orders, id);
      Transition(s.(orders := t.next), Wrap(t.result, _ => Done))
    case CreateWatch(id, body) =>
      var t := Catalog.CreateWatch(s.catalog, id, body);
      Transition(s.(catalog := t.next), Wrap(t.result, w => WatchData(w)))
    case UpdateWatch(id, body) =>
      var t := Catalog.UpdateWatch(s.catalog, id, body);
      Transition(s.(catalog := t.next), Wrap(t.result, w => WatchData(w)))
    case DeleteWatch(id) =>
      var t := Catalog.DeleteWatch(s.catalog, id);
      Transition(s.(catalog := t.next), Wrap(t.result, _ => Done))
    case SearchWatches(keyword) =>
      Transition(s, Ok(WatchList(Catalog.Search(s.catalog, keyword))))
    case CreateUser(id, body) =>
      var t := Users.CreateUser(s.users, id, body);
      Transition(s.(users := t.next), Wrap(t.result, u => UserData(u)))
    case UpdateUser(id, body) =>
      var t := Users.UpdateUser(s.users, id, body);
      Transition(s.(users := t.next), Wrap(t.result, u => UserData(u)))
    case DeleteUser(id) =>
      var t := Users.DeleteUser(s.users, id);
      Transition(s.(users := t.next), Wrap(t.result, _ => Done))
    case GetUserById(id) =>
      Transition(s, Wrap(Users.GetUserById(s.users, id), u => UserData(u)))
  }

  /** What every handler but the wholesale cart replace keeps: cart totals
      agree with their lines, and watch names are unique. */
  predicate Invariant(s: Store) {
    Carts.AllConsistent(s.carts) && Catalog.UniqueNames(s.catalog)
  }

  lemma StepPreservesInvariant(s: Store, req: Request)
    requires Invariant(s) && !req.ReplaceCart?
    ensures Invariant(Step(s, req).next)
  {
  }

  /** Watch names stay unique under every request whatsoever. */
  lemma StepKeepsWatchNamesUnique(s: Store, req: Request)
    requires Catalog.UniqueNames(s.catalog)
    ensures Catalog.UniqueNames(Step(s, req).next.catalog)
  {
  }

  /** The wholesale cart replace is the one request that can break the
      invariant, from a state where it held. */
  lemma ReplaceCartBreaksInvariant()
    ensures var s := Store(map[], map[], map[], map[]);
      var req := ReplaceCart(Carts.CartBody(Some("u"), Some([]), Some(5)));
      Invariant(s) && Step(s, req).result.Ok? && !Invariant(Step(s, req).next)
  {
  }
}
