/** The dish screen of modules/bot/src/dish.py: the dish cards of a
    category, and the cart mutations made from the quantity picker. */
module DishScreen {
  import opened Wrappers
  import opened Constants
  import opened Config
  import opened Catalog
  import opened Session
  import opened Picker

  /** The enabled dishes of a restaurant in one category, with the
      restaurant's currency (the query joins dish, restaurant and category). */
  predicate Listed(db: Db, restaurant: string, category: string, d: DishId) {
    && d in db.dishes
    && db.dishes[d].enabled
    && db.dishes[d].restaurant == restaurant
    && db.dishes[d].category == category
    && restaurant in db.restaurants
  }

  /** The snapshot an "Add" button of a listed dish carries. */
  function RefOf(db: Db, restaurant: string, d: DishId): DishRef
    requires d in db.dishes && restaurant in db.restaurants
  {
    DishRef(restaurant, d, db.dishes[d].name, db.dishes[d].price, db.restaurants[restaurant].currency)
  }

  /** One card per listed dish; the "Add" button only while the restaurant works. */
  function Cards(db: Db, restaurant: string, category: string, works: bool): map<DishId, Option<Callback>> {
    map d | d in db.dishes && Listed(db, restaurant, category, d) ::
      if works then Some(AddPress(RefOf(db, restaurant, d))) else None
  }

  /** showDish after its category check: the cards of the category. */
  function CategoryCards(data: UserData, db: Db, env: Env, category: string): (o: Outcome)
  {
    match data.restaurantName
    case None => Raise(data, db, [])
    case Some(r) =>
      var works := db.Works(r, env.clock);
      Done(Stay, data, db, [DishCards(Cards(db, r, category, works))])
  }

  /** showDish as the source has it: for a text that is not one of the
      restaurant's categories it returns the coroutine of the "not
      recognized" handler without awaiting it, so nothing is sent and the
      handler's return value is no state at all. */
  function ShowDishAsWritten(data: UserData, db: Db, env: Env, text: string): (o: Outcome)
    ensures o.data == data && o.db == db
    ensures o.next == Stray <==> data.dishCategories.Some? && text !in data.dishCategories.value
    ensures o.next == Stray ==> o.effects == [] && !o.raised
    ensures o.raised <==> data.dishCategories.None? || (text in data.dishCategories.value && data.restaurantName.None?)
  {
    match data.dishCategories
    case None => Raise(data, db, [])
    case Some(cats) =>
      if text !in cats then Outcome(Stray, data, db, [], false)
      else CategoryCards(data, db, env, text)
  }

  /** showDish as evidently intended: an unknown text gets the "not
      recognized" reply and the state stays; a category lists its enabled
      dishes, with "Add" buttons exactly when the restaurant works. */
  function ShowDish(data: UserData, db: Db, env: Env, text: string): (o: Outcome)
    ensures o.data == data && o.db == db && (o.raised || o.next == Stay)
    ensures o.raised <==> data.dishCategories.None? || (text in data.dishCategories.value && data.restaurantName.None?)
    ensures data.dishCategories.Some? && text !in data.dishCategories.value ==>
              o.effects == [Reply(MessageNotRecognized)]
    ensures !o.raised && data.dishCategories.Some? && text in data.dishCategories.value ==>
              var r := data.restaurantName.value;
              && |o.effects| == 1 && o.effects[0].DishCards?
              && (forall d :: d in o.effects[0].cards <==> Listed(db, r, text, d))
              && (forall d :: d in o.effects[0].cards ==>
                    (o.effects[0].cards[d].Some? <==> db.Works(r, env.clock)))
              && (forall d :: d in o.effects[0].cards && o.effects[0].cards[d].Some? ==>
                    o.effects[0].cards[d].value == AddPress(RefOf(db, r, d)))
  {
    match data.dishCategories
    case None => Raise(data, db, [])
    case Some(cats) =>
      if text !in cats then Done(Stay, data, db, [Reply(MessageNotRecognized)])
      else CategoryCards(data, db, env, text)
  }

  /** The two differ exactly on unknown texts: there the source hands back a
      value that is not a state and sends nothing. */
  lemma ShowDishUnknownTextIsStray(data: UserData, db: Db, env: Env, text: string)
    requires data.dishCategories.Some? && text !in data.dishCategories.value
    ensures ShowDishAsWritten(data, db, env, text).next == Stray
    ensures ShowDishAsWritten(data, db, env, text).effects == []
    ensures ShowDish(data, db, env, text).next == Stay
    ensures ShowDish(data, db, env, text).effects == [Reply(MessageNotRecognized)]
  {
  }

  lemma ShowDishAgreesOnCategories(data: UserData, db: Db, env: Env, text: string)
    requires data.dishCategories.None? || text in data.dishCategories.value
    ensures ShowDishAsWritten(data, db, env, text) == ShowDish(data, db, env, text)
  {
  }

  /** The restaurant-switch guard: the cart names a (non-empty) restaurant
      other than the dish's, and holds lines. */
  predicate Blocked(cart: Cart, ref: DishRef) {
    && cart.restaurant.Some?
    && cart.restaurant.value != ""
    && ref.restaurant != cart.restaurant.value
    && cart.dishes != map[]
  }

  /** The choice offered when the guard blocks. */
  const SwitchChoice: seq<seq<Callback>> := [[LeaveCartPress], [EmptyCartPress]]

  /** showQuantityButton: never changes the session. When the guard blocks,
      only the leave/empty choice is offered; otherwise the dish message
      gets the prompt line and the picker's first page. */
  function ShowQuantityButton(data: UserData, db: Db, ref: DishRef, body: string): (o: Outcome)
    ensures o.data == data && o.db == db && o.next == Stay
    ensures o.raised <==> data.cart.None?
    ensures !o.raised && Blocked(data.cart.value, ref) ==> o.effects == [Buttons(CartAnotherRestaurant, SwitchChoice)]
    ensures !o.raised && !Blocked(data.cart.value, ref) && body != "" ==>
              o.effects == [EditMessage(OpenText(body), QuantityKeyboard(ref, FirstPage))]
    ensures body == "" ==> o.effects == [] || o.effects == [Buttons(CartAnotherRestaurant, SwitchChoice)]
  {
    match data.cart
    case None => Raise(data, db, [])
    case Some(cart) =>
      if Blocked(cart, ref) then Done(Stay, data, db, [Buttons(CartAnotherRestaurant, SwitchChoice)])
      else if body == "" then Done(Stay, data, db, [])
      else Done(Stay, data, db, [EditMessage(OpenText(body), QuantityKeyboard(ref, FirstPage))])
  }

  /** A blocked press issues no quantity button at all. */
  lemma BlockedPressOffersNoQuantity(data: UserData, db: Db, ref: DishRef, body: string)
    requires data.cart.Some? && Blocked(data.cart.value, ref)
    ensures forall cb :: cb in Issued(ShowQuantityButton(data, db, ref, body).effects) ==>
              cb == LeaveCartPress || cb == EmptyCartPress
  {
    var o := ShowQuantityButton(data, db, ref, body);
    assert o.effects == [Buttons(CartAnotherRestaurant, SwitchChoice)];
  }

  /** cancelDishButton: removes the dish's line if there is one; restaurant,
      currency and the other lines stay. */
  function CancelDishButton(data: UserData, db: Db, ref: DishRef, body: string): (o: Outcome)
    ensures o.db == db && o.next == Stay
    ensures o.raised <==> data.cart.None?
    ensures !o.raised ==>
              && o.data == data.(cart := o.data.cart)
              && o.data.cart.Some?
              && var before := data.cart.value;
                 var after := o.data.cart.value;
                 && after.restaurant == before.restaurant && after.currency == before.currency
                 && ref.dish !in after.dishes
                 && (forall d :: d != ref.dish ==> (d in after.dishes <==> d in before.dishes))
                 && (forall d :: d != ref.dish && d in after.dishes ==> after.dishes[d] == before.dishes[d])
    ensures !o.raised && body != "" ==> o.effects == [EditMessage(StripText(body), [[AddPress(ref)]])]
  {
    match data.cart
    case None => Raise(data, db, [])
    case Some(cart) =>
      var data' := data.(cart := Some(cart.(dishes := cart.dishes - {ref.dish})));
      Done(Stay, data', db, if body == "" then [] else [EditMessage(StripText(body), [[AddPress(ref)]])])
  }

  /** changeQuantityPage: only the picker's keyboard changes, to the page
      six values back or forward. */
  function ChangeQuantityPage(data: UserData, db: Db, ref: DishRef, maxValue: int, isBack: bool): (o: Outcome)
    ensures o.data == data && o.db == db && o.next == Stay && !o.raised
    ensures o.effects == [EditButtons(QuantityKeyboard(ref, MovePage(maxValue, isBack)))]
  {
    Done(Stay, data, db, [EditButtons(QuantityKeyboard(ref, MovePage(maxValue, isBack)))])
  }

  /** selectQuantity: the cart takes the restaurant and currency of the
      pressed picker unconditionally, the dish's line becomes the snapshot
      with the chosen quantity, and every other line stays. */
  function SelectQuantity(data: UserData, db: Db, ref: DishRef, quantity: int, body: string): (o: Outcome)
    ensures o.db == db && o.next == Stay
    ensures o.raised <==> data.cart.None?
    ensures !o.raised ==>
              && o.data == data.(cart := o.data.cart)
              && o.data.cart.Some?
              && var before := data.cart.value;
                 var after := o.data.cart.value;
                 && after.restaurant == Some(ref.restaurant) && after.currency == Some(ref.currency)
                 && ref.dish in after.dishes
                 && after.dishes[ref.dish] == Line(ref.name, ref.price, quantity)
                 && (forall d :: d != ref.dish ==> (d in after.dishes <==> d in before.dishes))
                 && (forall d :: d != ref.dish && d in after.dishes ==> after.dishes[d] == before.dishes[d])
    ensures !o.raised && body != "" ==> o.effects == [EditMessage(StripText(body), [[ChangePress(ref)]])]
  {
    match data.cart
    case None => Raise(data, db, [])
    case Some(cart) =>
      var cart' := Cart(Some(ref.restaurant), Some(ref.currency),
                        cart.dishes[ref.dish := Line(ref.name, ref.price, quantity)]);
      Done(Stay, data.(cart := Some(cart')), db,
           if body == "" then [] else [EditMessage(StripText(body), [[ChangePress(ref)]])])
  }

  /** Selecting and then cancelling a dish that was not in the cart gives
      back the cart's lines (the restaurant and currency stay those of the
      dish). */
  lemma CancelUndoesSelect(data: UserData, db: Db, ref: DishRef, quantity: int, body: string)
    requires data.cart.Some? && ref.dish !in data.cart.value.dishes
    ensures var s := SelectQuantity(data, db, ref, quantity, body);
            var c := CancelDishButton(s.data, db, ref, body);
            && !c.raised
            && c.data.cart.value.dishes == data.cart.value.dishes
            && c.data.cart.value.restaurant == Some(ref.restaurant)
  {
    var s := SelectQuantity(data, db, ref, quantity, body);
    var c := CancelDishButton(s.data, db, ref, body);
    assert c.data.cart.value.dishes == data.cart.value.dishes;
  }

  /** The guard lives only in showQuantityButton: a picker opened before the
      cart filled up with another restaurant's dishes still selects, and the
      cart then names the picker's restaurant while keeping the other
      restaurant's lines. */
  lemma OpenPickerBypassesGuard(data: UserData, db: Db, ref: DishRef, quantity: int, body: string, other: DishId)
    requires data.cart.Some? && Blocked(data.cart.value, ref)
    requires other in data.cart.value.dishes && other != ref.dish
    ensures forall cb :: cb in Issued(ShowQuantityButton(data, db, ref, body).effects) ==> !cb.QuantityPress?
    ensures var o := SelectQuantity(data, db, ref, quantity, body);
            && !o.raised
            && o.data.cart.value.restaurant == Some(ref.restaurant)
            && o.data.cart.value.restaurant != data.cart.value.restaurant
            && o.data.cart.value.dishes[other] == data.cart.value.dishes[other]
  {
    BlockedPressOffersNoQuantity(data, db, ref, body);
  }

  /** emptyCart (dish screen): a fresh empty cart without restaurant or
      currency; the rest of the session stays. */
  function DishEmptyCart(data: UserData, db: Db): (o: Outcome)
    ensures o.data == data.(cart := Some(EmptyCart)) && o.db == db && o.next == Stay && !o.raised
    ensures o.data.cart.value.dishes == map[] && o.data.cart.value.restaurant.None?
    ensures o.effects == [EditNotice(CartIsEmpty)]
  {
    Done(Stay, data.(cart := Some(EmptyCart)), db, [EditNotice(CartIsEmpty)])
  }

  /** leaveCart: nothing but the notice changes. */
  function LeaveCart(data: UserData, db: Db): (o: Outcome)
    ensures o.data == data && o.db == db && o.next == Stay && !o.raised
    ensures o.effects == [EditNotice(CartNotChanged)]
  {
    Done(Stay, data, db, [EditNotice(CartNotChanged)])
  }
}
