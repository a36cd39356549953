/** The cart screen of modules/bot/src/cart.py: showing the cart, the
    0..60 quantity stepper, confirming a change and emptying the cart. */
module CartScreen {
  import opened Wrappers
  import opened Constants
  import opened Config
  import opened Catalog
  import opened Session

  /** Upper bound of the stepper. */
  const MaxQuantity: int := 60

  /** A cart the source treats as empty: none at all, or no lines. */
  predicate EmptyOrMissing(cart: Option<Cart>) {
    cart.None? || cart.value.dishes == map[]
  }

  /** One "change quantity" button per cart line, carrying its quantity. */
  function ChangeButtons(cart: Cart): (m: map<DishId, Callback>)
    ensures m.Keys == cart.dishes.Keys
    ensures forall d :: d in m ==>
              m[d] == QuantityChange(d, cart.dishes[d].name, cart.dishes[d].quantity)
  {
    map d | d in cart.dishes :: QuantityChange(d, cart.dishes[d].name, cart.dishes[d].quantity)
  }

  /** showCart: an empty or missing cart gets "cart is empty" and the state
      stays; otherwise the cart is shown with one change button per line and
      the state becomes CART. The session is never changed. */
  function ShowCart(data: UserData, db: Db): (o: Outcome)
    ensures o.data == data && o.db == db
    ensures EmptyOrMissing(data.cart) ==> o == Done(Stay, data, db, [Reply(CartIsEmpty)])
    ensures !EmptyOrMissing(data.cart) ==>
              && (o.raised <==> data.cart.value.restaurant.None? || data.cart.value.currency.None?)
              && (!o.raised ==> o.next == Goto(CartView)
                                && o.effects == [CartSummary(data.cart.value, false),
                                                 ChangeMenu(ChangeButtons(data.cart.value))])
  {
    if EmptyOrMissing(data.cart) then Done(Stay, data, db, [Reply(CartIsEmpty)])
    else
      var cart := data.cart.value;
      if cart.restaurant.None? || cart.currency.None? then Raise(data, db, [])
      else Done(Goto(CartView), data, db, [CartSummary(cart, false), ChangeMenu(ChangeButtons(cart))])
  }

  /** The -/+/OK editor of one cart line. Minus floors at 0, plus stops at
      60, OK carries the quantity shown. */
  function StepperButtons(dish: DishId, name: string, quantity: int): (rows: seq<seq<Callback>>)
    ensures |rows| == 2 && |rows[0]| == 2 && |rows[1]| == 1
    ensures rows[0][0].QuantityMinus? && rows[0][1].QuantityPlus? && rows[1][0] == QuantityOk(dish, name, quantity)
    ensures rows[0][0].dish == dish && rows[0][1].dish == dish
    ensures rows[0][0].quantity == (if quantity >= 1 then quantity - 1 else quantity)
    ensures rows[0][1].quantity == (if quantity < MaxQuantity then quantity + 1 else quantity)
  {
    [[QuantityMinus(dish, name, if quantity - 1 >= 0 then quantity - 1 else quantity),
      QuantityPlus(dish, name, if quantity + 1 <= MaxQuantity then quantity + 1 else quantity)],
     [QuantityOk(dish, name, quantity)]]
  }

  /** The stepper never leaves 0..60: every quantity it offers from a
      quantity in 0..60 is again in 0..60, and moves by at most one. */
  lemma StepperStaysInRange(dish: DishId, name: string, quantity: int)
    requires 0 <= quantity <= MaxQuantity
    ensures forall cb :: cb in Flat(StepperButtons(dish, name, quantity)) ==>
              && 0 <= cb.quantity <= MaxQuantity
              && -1 <= cb.quantity - quantity <= 1
              && cb.dish == dish
  {
    var rows := StepperButtons(dish, name, quantity);
    forall cb | cb in Flat(rows)
      ensures 0 <= cb.quantity <= MaxQuantity && -1 <= cb.quantity - quantity <= 1 && cb.dish == dish
    {
      var i :| 0 <= i < |rows| && cb in rows[i];
    }
  }

  /** changeDish: the pressed message becomes the stepper for the line; the
      session is not touched. */
  function ChangeDish(data: UserData, db: Db, dish: DishId, name: string, quantity: int): (o: Outcome)
    ensures o.data == data && o.db == db && o.next == Stay && !o.raised
    ensures o.effects == [Stepper(name, quantity, StepperButtons(dish, name, quantity))]
  {
    Done(Stay, data, db, [Stepper(name, quantity, StepperButtons(dish, name, quantity))])
  }

  /** The line change confirmChange makes: 0 removes the line, any other
      quantity replaces the line's quantity. The line must exist. */
  function ApplyChange(cart: Cart, dish: DishId, quantity: int): (r: Option<Cart>)
    ensures r.Some? <==> dish in cart.dishes
    ensures r.Some? ==> r.value.restaurant == cart.restaurant && r.value.currency == cart.currency
    ensures r.Some? && quantity == 0 ==> dish !in r.value.dishes
    ensures r.Some? && quantity != 0 ==>
              dish in r.value.dishes && r.value.dishes[dish] == cart.dishes[dish].(quantity := quantity)
    ensures r.Some? ==> forall d :: d != dish ==>
              (d in r.value.dishes <==> d in cart.dishes)
              && (d in r.value.dishes ==> r.value.dishes[d] == cart.dishes[d])
  {
    if dish !in cart.dishes then None
    else if quantity == 0 then Some(cart.(dishes := cart.dishes - {dish}))
    else Some(cart.(dishes := cart.dishes[dish := cart.dishes[dish].(quantity := quantity)]))
  }

  /** confirmChange: applies the change, replaces the pressed message by
      "cart changed", and only then shows the cart again (whose result it
      returns). A missing cart or line raises before anything happens. */
  function ConfirmChange(data: UserData, db: Db, dish: DishId, quantity: int): (o: Outcome)
    ensures o.db == db
    ensures data.cart.None? || dish !in data.cart.value.dishes ==> o == Raise(data, db, [])
    ensures data.cart.Some? && dish in data.cart.value.dishes ==>
              var data' := data.(cart := ApplyChange(data.cart.value, dish, quantity));
              var shown := ShowCart(data', db);
              && o.data == data'
              && o.next == shown.next && o.raised == shown.raised
              && o.effects == [EditNotice(CartChanged)] + shown.effects
  {
    match data.cart
    case None => Raise(data, db, [])
    case Some(cart) =>
      match ApplyChange(cart, dish, quantity)
      case None => Raise(data, db, [])
      case Some(cart') =>
        var shown := ShowCart(data.(cart := Some(cart')), db);
        shown.(effects := [EditNotice(CartChanged)] + shown.effects)
  }

  /** emptyCart (cart screen): a fresh empty cart and back to LOBBY. */
  function CartEmptyCart(data: UserData, db: Db): (o: Outcome)
    ensures o.data == data.(cart := Some(EmptyCart)) && o.db == db && !o.raised
    ensures o.next == Goto(Lobby)
    ensures o.effects == [ReplyKeyboard(CartIsEmpty, LobbyKeyboard)]
  {
    Done(Goto(Lobby), data.(cart := Some(EmptyCart)), db, [ReplyKeyboard(CartIsEmpty, LobbyKeyboard)])
  }
}
