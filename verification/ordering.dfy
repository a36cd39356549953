/** Placing an order (modules/bot/src/order.py): the checkout summary, then
    the location message that runs the guards and commits the order. */
module Ordering {
  import opened Wrappers
  import opened Constants
  import opened Config
  import opened Catalog
  import opened Session
  import opened CartScreen
  import opened Default
  import opened Notification
  import opened Strings

  /** startOrdering: an empty or missing cart gets "cart is empty" and the
      state stays; otherwise the summary with the checkout keyboard is sent
      and the state becomes ORDER. The session is never changed. */
  function StartOrdering(data: UserData, db: Db): (o: Outcome)
    ensures o.data == data && o.db == db
    ensures EmptyOrMissing(data.cart) ==> o == Done(Stay, data, db, [Reply(CartIsEmpty)])
    ensures !EmptyOrMissing(data.cart) ==>
              && (o.raised <==> data.cart.value.restaurant.None? || data.cart.value.currency.None?)
              && (!o.raised ==> o.next == Goto(OrderCheckout) && o.effects == [CartSummary(data.cart.value, true)])
  {
    if EmptyOrMissing(data.cart) then Done(Stay, data, db, [Reply(CartIsEmpty)])
    else
      var cart := data.cart.value;
      if cart.restaurant.None? || cart.currency.None? then Raise(data, db, [])
      else Done(Goto(OrderCheckout), data, db, [CartSummary(cart, true)])
  }

  /** Some cart dish still in the database has been disabled. */
  predicate HasDisabled(cart: Cart, db: Db) {
    exists d :: d in cart.dishes && d in db.dishes && !db.dishes[d].enabled
  }

  /** The CartDish rows of a new order: the cart's dishes that the database
      still has, each with its cart quantity. */
  function OrderItems(cart: Cart, db: Db): (items: map<DishId, int>)
    ensures forall d :: d in items <==> d in cart.dishes && d in db.dishes
    ensures forall d :: d in items ==> items[d] == cart.dishes[d].quantity
  {
    map d | d in cart.dishes && d in db.dishes :: cart.dishes[d].quantity
  }

  /** `f"{latitude},{longitude}"` */
  function Location(latitude: string, longitude: string): string {
    latitude + "," + longitude
  }

  /** The order a successful checkout stores. */
  function NewOrder(data: UserData, db: Db, env: Env, latitude: string, longitude: string): Order
    requires data.cart.Some?
  {
    Order(env.user.id, None, DefaultStatus, Location(latitude, longitude), OrderItems(data.cart.value, db))
  }

  /** The database after the new order row was flushed and rolled back
      again: the order id drawn from the id sequence is not given back. */
  function Drawn(db: Db): Db {
    db.(nextOrder := db.nextOrder + 1)
  }

  /** The last step of makeOrder, once every guard passed: the order row is
      committed under the id the flush drew, the request goes out, and only
      then the user's confirmation, after which the session is cleared and
      the state is LOBBY. The committed order belongs to the sender, awaits
      a response, has no manager, and holds one row per cart dish the
      database still has, with the cart's quantity; no other order changes. */
  function CommitOrder(data: UserData, db: Db, env: Env, latitude: string, longitude: string): (o: Outcome)
    requires data.cart.Some?
    ensures o.data == data || (o.data == Cleared && !o.raised && o.next == Goto(Lobby))
    ensures var id := db.nextOrder;
              && o.db == db.(orders := o.db.orders, nextOrder := id + 1)
              && o.db.orders.Keys == db.orders.Keys + {id}
              && (forall k :: k in db.orders && k != id ==> o.db.orders[k] == db.orders[k])
              && o.db.orders[id].user == env.user.id
              && o.db.orders[id].status == AwaitingResponse
              && o.db.orders[id].manager.None?
              && o.db.orders[id].location == Location(latitude, longitude)
              && (forall d :: d in o.db.orders[id].items <==> d in data.cart.value.dishes && d in db.dishes)
              && (forall d :: d in o.db.orders[id].items ==>
                    o.db.orders[id].items[d] == data.cart.value.dishes[d].quantity)
    ensures !o.raised ==>
              && o.next == Goto(Lobby) && o.data == Cleared
              && |o.effects| >= 3
              && o.effects[|o.effects| - 1] == OrderPlaced(db.nextOrder)
              && o.effects[|o.effects| - 3].OrderRequest?
              && o.effects[|o.effects| - 3].order == db.nextOrder
              && (forall i :: 0 <= i < |o.effects| - 1 ==> !o.effects[i].OrderPlaced?)
  {
    var id := db.nextOrder;
    var db' := Drawn(db).(orders := db.orders[id := NewOrder(data, db, env, latitude, longitude)]);
    var sent := SendOrderRequest(db', id, env.lookup);
    if sent.raised then Raise(data, db', sent.effects)
    else Done(Goto(Lobby), Cleared, db', sent.effects + [OrderPlaced(id)])
  }

  /** makeOrder. In order: a missing cart raises; the order row is flushed,
      which draws its id; a missing cart restaurant raises; a closed
      restaurant gets a notice and /start's result; a disabled dish gets a
      notice and the cart view; otherwise the order is committed.
      Nothing is committed unless every guard passed, and the closed check
      comes before the disabled-dish check. */
  function MakeOrder(data: UserData, db: Db, env: Env, latitude: string, longitude: string): (o: Outcome)
    ensures o.db.orders != db.orders ==>
              && data.cart.Some? && data.cart.value.restaurant.Some?
              && db.Works(data.cart.value.restaurant.value, env.clock)
              && !HasDisabled(data.cart.value, db)
    ensures o.data == data || (o.data == Cleared && !o.raised && o.next == Goto(Lobby))
    ensures data.cart.None? ==> o == Raise(data, db, [])
    ensures data.cart.Some? && data.cart.value.restaurant.None? ==> o == Raise(data, Drawn(db), [])
    ensures data.cart.Some? && data.cart.value.restaurant.Some?
            && !db.Works(data.cart.value.restaurant.value, env.clock) ==>
              && o.db.orders == db.orders
              && o.data == data && !o.raised
              && o.db == StartHandler(data, Drawn(db), env).db
              && o.effects == [Reply(CartRestaurantClosed)] + StartHandler(data, Drawn(db), env).effects
              && o.next == StartHandler(data, Drawn(db), env).next
    ensures data.cart.Some? && data.cart.value.restaurant.Some?
            && db.Works(data.cart.value.restaurant.value, env.clock) && HasDisabled(data.cart.value, db) ==>
              && o.data == data && o.db == Drawn(db)
              && o.effects == [Reply(CartIrrelevantItems)] + ShowCart(data, db).effects
              && o.next == ShowCart(data, db).next && o.raised == ShowCart(data, db).raised
    ensures data.cart.Some? && data.cart.value.restaurant.Some?
            && db.Works(data.cart.value.restaurant.value, env.clock) && !HasDisabled(data.cart.value, db) ==>
              o == CommitOrder(data, db, env, latitude, longitude)
  {
    match data.cart
    case None => Raise(data, db, [])
    case Some(cart) =>
      match cart.restaurant
      case None => Raise(data, Drawn(db), [])
      case Some(r) =>
        if !db.Works(r, env.clock) then
          var s := StartHandler(data, Drawn(db), env);
          s.(effects := [Reply(CartRestaurantClosed)] + s.effects)
        else if HasDisabled(cart, db) then
          var c := ShowCart(data, Drawn(db));
          c.(effects := [Reply(CartIrrelevantItems)] + c.effects)
        else CommitOrder(data, db, env, latitude, longitude)
  }

  /** The stored location splits back into the latitude and longitude sent
      with the order request, for comma-free coordinates. */
  lemma LocationRoundTrip(latitude: string, longitude: string)
    requires ',' !in latitude && ',' !in longitude
    ensures Split(Location(latitude, longitude), ',') == [latitude, longitude]
  {
    SplitJoin(latitude, longitude, ',');
    assert Location(latitude, longitude) == latitude + [','] + longitude;
  }

  /** A successful checkout whose cart has a dish the database knows always
      gets its request out: the committed order has a line, and its
      location parses. */
  lemma CheckoutNeverRaises(data: UserData, db: Db, env: Env, latitude: string, longitude: string, d: DishId)
    requires data.cart.Some? && data.cart.value.restaurant.Some?
    requires db.Works(data.cart.value.restaurant.value, env.clock) && !HasDisabled(data.cart.value, db)
    requires d in data.cart.value.dishes && d in db.dishes
    requires ',' !in latitude && ',' !in longitude
    ensures !MakeOrder(data, db, env, latitude, longitude).raised
  {
    LocationRoundTrip(latitude, longitude);
    var items := OrderItems(data.cart.value, db);
    assert d in items;
  }
}
