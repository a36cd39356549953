/** The customer conversation of modules/bot/config.py as a transition
    system: which handler an update reaches in each state, what the
    conversation's state becomes, and the invariants the whole dialog keeps
    over any sequence of updates. */
module Dialog {
  import opened Wrappers
  import opened Utility
  import opened Constants
  import opened Config
  import opened Catalog
  import opened Session
  import opened Strings
  import opened Picker
  import opened Default
  import opened Lobby
  import opened RestaurantScreen
  import opened DishScreen
  import opened CartScreen
  import opened Ordering
  import opened Notification
  import opened UserOrders

  /** An update from the user. `Press` carries the payload of a button the
      bot issued and the text of the message the button sits under;
      `StalePress` is a button whose payload the bot no longer holds. */
  datatype Event =
    | Message(text: string)
    | SharedLocation(latitude: string, longitude: string)
    | PhotoMessage(fileId: string)
    | Press(cb: Callback, body: string)
    | StalePress

  /** Where the conversation is: not running, in a state, or holding a
      returned value that is no state (then only the entry point and the
      fallbacks apply). */
  datatype Conv = Idle | At(state: State) | Astray

  /** A message that starts with a bot command. No keyboard label is one,
      so a pressed label never reaches the command fallbacks. */
  function IsCommand(text: string): (b: bool)
    ensures b ==> forall l: Label :: text != l.Text()
  {
    |text| > 0 && text[0] == '/'
  }

  /** CommandHandler(name): the first word of the message is "/name", so
      only a name without blanks can ever match. */
  function IsCommandFor(text: string, name: string): (b: bool)
    ensures b ==> IsCommand(text) && ' ' !in name
  {
    IsCommand(text) && Split(text, ' ')[0] == "/" + name
  }

  /** A blank-free command name is heard alone and with arguments. */
  lemma CommandHeard(name: string, argument: string)
    requires ' ' !in name
    ensures IsCommandFor("/" + name, name)
    ensures IsCommandFor("/" + name + " " + argument, name)
  {
    SplitNoSeparator("/" + name, ' ');
    SplitCons("/" + name, argument, ' ');
    assert "/" + name + " " + argument == ("/" + name) + [' '] + argument;
  }

  /** `filters.Text([...])` of the navigation handlers: one of the labels,
      which are never commands. */
  function OneOf(text: string, labels: seq<Label>): (b: bool)
    ensures b ==> text != "" && !IsCommand(text)
  {
    exists i :: 0 <= i < |labels| && text == labels[i].Text()
  }

  /** The handler an update reaches in the customer conversation. */
  datatype Handler =
    | StartCmd | CancelCmd | OtherCmd | Unrecognized | UnknownPress | NoHandler
    | Navigate(text: string)
    | ListRestaurants(text: string) | AboutUsPage | OrderHistory
    | PickRestaurant(text: string) | PickCategory(text: string)
    | OpenQuantity(ref: DishRef, body: string) | DropDish(ref: DishRef, body: string)
    | TurnPage(ref: DishRef, maxValue: int, isBack: bool) | PickQuantity(ref: DishRef, quantity: int, body: string)
    | EmptyFromDish | KeepCart | EmptyFromCart
    | EditLine(dish: DishId, name: string, quantity: int) | ConfirmLine(dish: DishId, quantity: int)
    | Checkout(latitude: string, longitude: string) | OpenOrder(text: string)

  /** The message handlers of each state, the first match winning. Only the
      customer states have any; a restaurant name, a category and an order
      number are heard only in their own state, and every text the state's
      catch-all filter admits is taken. */
  function StateMessage(s: State, db: Db, text: string): (h: Handler)
    ensures !s.IsCustomer() ==> h == NoHandler
    ensures h.PickRestaurant? ==> s == RestaurantList && h.text == text && RestaurantFilter(db, text)
    ensures h.PickCategory? ==> s == DishList && h.text == text && !IsCommand(text)
    ensures h.OpenOrder? ==> s == UserOrderList && h.text == text && text != "" && AllDigits(text)
    ensures h.ListRestaurants? || h.Navigate? ==> h.text == text
    ensures h == AboutUsPage || h == OrderHistory ==> s == Lobby
    ensures h == EmptyFromCart ==> s == CartView
    ensures s == RestaurantList && RestaurantFilter(db, text) ==> h != NoHandler
    ensures s == DishList && !IsCommand(text) ==> h != NoHandler
    ensures s == UserOrderList && text != "" && AllDigits(text) ==> h != NoHandler
    ensures h == NoHandler || h.Navigate? || h.ListRestaurants? || h == AboutUsPage || h == OrderHistory
            || h.PickRestaurant? || h.PickCategory? || h == EmptyFromCart || h.OpenOrder?
  {
    match s
    case Lobby =>
      if Contains(text, ChooseRestaurant.Text()) then ListRestaurants(text)
      else if Contains(text, AboutUs.Text()) then AboutUsPage
      else if Contains(text, MyOrders.Text()) then OrderHistory
      else if OneOf(text, [CartLabel, PlaceOrder]) then Navigate(text)
      else NoHandler
    case RestaurantList =>
      if OneOf(text, [PlaceOrder, CartLabel, BackToMenu]) then Navigate(text)
      else if RestaurantFilter(db, text) then PickRestaurant(text)
      else NoHandler
    case DishList =>
      if Contains(text, BackToRestaurant.Text()) then ListRestaurants(text)
      else if OneOf(text, [PlaceOrder, CartLabel, BackToMenu]) then Navigate(text)
      else if !IsCommand(text) then PickCategory(text)
      else NoHandler
    case CartView =>
      if Contains(text, EmptyTheCart.Text()) then EmptyFromCart
      else if OneOf(text, [PlaceOrder, BackToMenu]) then Navigate(text)
      else NoHandler
    case OrderCheckout =>
      if Contains(text, BackToMenu.Text()) then Navigate(text) else NoHandler
    case UserOrderList =>
      if Contains(text, BackToMenu.Text()) then Navigate(text)
      else if text != "" && AllDigits(text) then OpenOrder(text)
      else NoHandler
    case _ => NoHandler
  }

  /** Every button of a reply keyboard is heard in the state that shows it. */
  predicate Heard(s: State, db: Db, rows: seq<seq<string>>) {
    forall i, j :: 0 <= i < |rows| && 0 <= j < |rows[i]| ==> StateMessage(s, db, rows[i][j]) != NoHandler
  }

  /** The labels on the reply keyboard each customer state shows. */
  predicate Shows(s: State, l: Label) {
    match s
    case Lobby => l in {ChooseRestaurant, CartLabel, PlaceOrder, AboutUs, MyOrders}
    case RestaurantList => l in {PlaceOrder, BackToMenu, CartLabel}
    case DishList => l in {PlaceOrder, BackToRestaurant, CartLabel, BackToMenu}
    case CartView => l in {EmptyTheCart, BackToMenu, PlaceOrder}
    case OrderCheckout => l == BackToMenu
    case UserOrderList => l == BackToMenu
    case _ => false
  }

  /** A label a state shows reaches one of that state's handlers: a label
      matches its own regex filter, and the others are in the state's
      `filters.Text` list. */
  lemma LabelHeard(s: State, db: Db, l: Label)
    requires Shows(s, l)
    ensures StateMessage(s, db, l.Text()) != NoHandler
  {
    var text := l.Text();
    ContainsSelf(text);
    if s == RestaurantList {
      var nav := [PlaceOrder, CartLabel, BackToMenu];
      assert text == nav[if l == PlaceOrder then 0 else if l == CartLabel then 1 else 2].Text();
    } else if s == Lobby && (l == CartLabel || l == PlaceOrder) {
      var labels := [CartLabel, PlaceOrder];
      assert text == labels[if l == CartLabel then 0 else 1].Text();
    } else if s == CartView && l != EmptyTheCart {
      var labels := [PlaceOrder, BackToMenu];
      assert text == labels[if l == PlaceOrder then 0 else 1].Text();
    }
  }

  /** The lobby keyboard (sent by /start and by emptying the cart), the
      restaurant and dish keyboards, the cart keyboard and the "Back to
      menu" keyboard of the checkout and order list: no button of them is
      lost to the fallbacks in its state. */
  lemma KeyboardButtonsHeard(db: Db)
    ensures Heard(Lobby, db, LobbyKeyboard)
    ensures Heard(RestaurantList, db, RestaurantKeyboard)
    ensures Heard(DishList, db, DishKeyboard)
    ensures Heard(CartView, db, CartKeyboard)
    ensures Heard(OrderCheckout, db, BackToMenuKeyboard) && Heard(UserOrderList, db, BackToMenuKeyboard)
  {
    forall i, j | 0 <= i < |LobbyKeyboard| && 0 <= j < |LobbyKeyboard[i]|
      ensures StateMessage(Lobby, db, LobbyKeyboard[i][j]) != NoHandler
    {
      var l := if i == 0 then ChooseRestaurant else if i == 1 then (if j == 0 then CartLabel else PlaceOrder)
               else if i == 2 then AboutUs else MyOrders;
      LabelHeard(Lobby, db, l);
    }
    forall i, j | 0 <= i < |RestaurantKeyboard| && 0 <= j < |RestaurantKeyboard[i]|
      ensures StateMessage(RestaurantList, db, RestaurantKeyboard[i][j]) != NoHandler
    {
      var l := if i == 0 then PlaceOrder else if j == 0 then BackToMenu else CartLabel;
      LabelHeard(RestaurantList, db, l);
    }
    forall i, j | 0 <= i < |DishKeyboard| && 0 <= j < |DishKeyboard[i]|
      ensures StateMessage(DishList, db, DishKeyboard[i][j]) != NoHandler
    {
      var l := if i == 0 then PlaceOrder else if i == 1 then (if j == 0 then BackToRestaurant else CartLabel)
               else BackToMenu;
      LabelHeard(DishList, db, l);
    }
    forall i, j | 0 <= i < |CartKeyboard| && 0 <= j < |CartKeyboard[i]|
      ensures StateMessage(CartView, db, CartKeyboard[i][j]) != NoHandler
    {
      var l := if i == 0 then EmptyTheCart else if j == 0 then BackToMenu else PlaceOrder;
      LabelHeard(CartView, db, l);
    }
    LabelHeard(OrderCheckout, db, BackToMenu);
    LabelHeard(UserOrderList, db, BackToMenu);
  }

  /** The button handlers of each state: the dish screen hears the card,
      picker and cart-switch payloads, the cart hears the stepper, and no
      state hears anything else (the handshake buttons in particular). */
  function StatePress(s: State, cb: Callback, body: string): (h: Handler)
    ensures s != DishList && s != CartView ==> h == NoHandler
    ensures s == DishList ==>
              (h != NoHandler <==> cb.AddPress? || cb.ChangePress? || cb.CancelDishPress? || cb.QuantityBack?
                                   || cb.QuantityNext? || cb.QuantityPress? || cb.EmptyCartPress? || cb.LeaveCartPress?)
    ensures s == CartView ==>
              (h != NoHandler <==> cb.QuantityChange? || cb.QuantityMinus? || cb.QuantityPlus? || cb.QuantityOk?)
    ensures h != NoHandler ==> ForDishes(h) || ForCart(h)
    ensures h.PickQuantity? ==> cb == QuantityPress(h.ref, h.quantity)
    ensures h.ConfirmLine? ==> cb.QuantityOk? && cb.dish == h.dish && cb.quantity == h.quantity
  {
    match s
    case DishList =>
      (match cb
      case AddPress(ref) => OpenQuantity(ref, body)
      case ChangePress(ref) => OpenQuantity(ref, body)
      case CancelDishPress(ref) => DropDish(ref, body)
      case QuantityNext(ref, m) => TurnPage(ref, m, false)
      case QuantityBack(ref, m) => TurnPage(ref, m, true)
      case QuantityPress(ref, q) => PickQuantity(ref, q, body)
      case EmptyCartPress => EmptyFromDish
      case LeaveCartPress => KeepCart
      case _ => NoHandler)
    case CartView =>
      (match cb
      case QuantityChange(d, name, q) => EditLine(d, name, q)
      case QuantityMinus(d, name, q) => EditLine(d, name, q)
      case QuantityPlus(d, name, q) => EditLine(d, name, q)
      case QuantityOk(d, _, q) => ConfirmLine(d, q)
      case _ => NoHandler)
    case _ => NoHandler
  }

  /** The fallbacks for a message no state handler took: /cancel, any
      other command but exactly "/help", and any text that is no command. */
  function MessageFallback(text: string): (h: Handler)
    ensures !IsCommand(text) ==> h == Unrecognized
    ensures text == "/help" ==> h == NoHandler
  {
    SplitNoSeparator("/help", ' ');
    if IsCommandFor(text, "cancel") then CancelCmd
    else if IsCommand(text) && text != "/help" then OtherCmd
    else if IsCommand(text) then NoHandler
    else Unrecognized
  }

  /** The customer conversation's routing: the entry point /start in every
      situation (re-entry is allowed), the state's handlers, then the
      fallbacks. Outside the conversation only /start is heard. The
      handshake buttons are left to their own handler. A stale payload
      makes the handlers' patterns fail, so nothing is run. */
  function Route(conv: Conv, db: Db, e: Event): (h: Handler)
    ensures conv.Idle? && !(e.Message? && IsCommandFor(e.text, "start")) ==> h == NoHandler
    ensures e.Message? && IsCommandFor(e.text, "start") ==> h == StartCmd
  {
    match e
    case Message(text) =>
      if IsCommandFor(text, "start") then StartCmd
      else if conv.Idle? then NoHandler
      else
        var own := if conv.At? then StateMessage(conv.state, db, text) else NoHandler;
        if own != NoHandler then own else MessageFallback(text)
    case SharedLocation(latitude, longitude) =>
      if conv.Idle? then NoHandler
      else if conv == At(OrderCheckout) then Checkout(latitude, longitude)
      else Unrecognized
    case PhotoMessage(_) =>
      if conv.Idle? then NoHandler else Unrecognized
    case Press(cb, body) =>
      if conv.Idle? then NoHandler
      else
        var own := if conv.At? then StatePress(conv.state, cb, body) else NoHandler;
        if own != NoHandler then own
        else if cb.OrderConfirm? || cb.OrderCancel? then NoHandler
        else UnknownPress
    case StalePress => NoHandler
  }

  /** navigationButton: the three labels it knows; any other text raises. */
  function NavigationButton(data: UserData, db: Db, env: Env, text: string): (o: Outcome)
    ensures !OneOf(text, [BackToMenu, CartLabel, PlaceOrder]) ==> o == Raise(data, db, [])
    ensures text == BackToMenu.Text() ==> o == StartHandler(data, db, env)
    ensures text == CartLabel.Text() ==> o == ShowCart(data, db)
    ensures text == PlaceOrder.Text() ==> o == StartOrdering(data, db)
  {
    var labels := [BackToMenu, CartLabel, PlaceOrder];
    if text == BackToMenu.Text() then assert text == labels[0].Text(); StartHandler(data, db, env)
    else if text == CartLabel.Text() then assert text == labels[1].Text(); ShowCart(data, db)
    else if text == PlaceOrder.Text() then assert text == labels[2].Text(); StartOrdering(data, db)
    else
      assert !OneOf(text, [BackToMenu, CartLabel, PlaceOrder]) by {
        forall i | 0 <= i < 3 ensures text != [BackToMenu, CartLabel, PlaceOrder][i].Text() {
        }
      }
      Raise(data, db, [])
  }

  /** The handlers of the restaurant and dish screens
      (modules/bot/src/restaurant.py, modules/bot/src/dish.py). */
  predicate ForDishes(h: Handler) {
    h.PickRestaurant? || h.PickCategory? || h.OpenQuantity? || h.DropDish? || h.TurnPage?
    || h.PickQuantity? || h.EmptyFromDish? || h.KeepCart?
  }

  /** The handlers of the cart and checkout screens
      (modules/bot/src/cart.py, modules/bot/src/order.py). */
  predicate ForCart(h: Handler) {
    h.EmptyFromCart? || h.EditLine? || h.ConfirmLine? || h.Checkout?
  }

  /** Running a handler. Only showDish on an unknown text hands back a
      value that is no state, and a route that reached no handler changes
      nothing. */
  function Run(h: Handler, data: UserData, db: Db, env: Env): (o: Outcome)
    requires db.Valid()
    ensures o.next == Stray ==> h.PickCategory?
    ensures h == NoHandler ==> o == Done(Stay, data, db, [])
  {
    if ForDishes(h) then RunDishes(h, data, db, env)
    else if ForCart(h) then RunCart(h, data, db, env)
    else RunMenu(h, data, db, env)
  }

  /** The commands, the fallbacks, the lobby and the order list. Only
      /start and "Back to menu" (which is /start) write the database, to
      register the user. */
  function RunMenu(h: Handler, data: UserData, db: Db, env: Env): (o: Outcome)
    requires db.Valid() && !ForDishes(h) && !ForCart(h)
    ensures o.next != Stray
    ensures o.db != db ==> h == StartCmd || h == Navigate(BackToMenu.Text())
    ensures h == NoHandler ==> o == Done(Stay, data, db, [])
  {
    match h
    case StartCmd => StartHandler(data, db, env)
    case CancelCmd => CancelHandler(data, db)
    case OtherCmd => EndConversation(data, db)
    case Unrecognized => Done(Stay, data, db, [Reply(MessageNotRecognized)])
    case UnknownPress => Done(Stay, data, db, [Alert(UncatchedCallback)])
    case Navigate(text) => NavigationButton(data, db, env, text)
    case ListRestaurants(text) => ShowRestaurants(data, db, text)
    case AboutUsPage => ShowAboutUs(data, db)
    case OrderHistory => ShowOrders(data, db, env)
    case OpenOrder(text) => ShowSingleOrder(data, db, env, text)
    case _ => Done(Stay, data, db, [])  // NoHandler
  }

  /** The restaurant and dish screens: none writes the database, and only
      an unknown category text strays. */
  function RunDishes(h: Handler, data: UserData, db: Db, env: Env): (o: Outcome)
    requires db.Valid() && ForDishes(h)
    ensures o.db == db
    ensures o.next == Stray <==> h.PickCategory? && data.dishCategories.Some? && h.text !in data.dishCategories.value
  {
    match h
    case PickRestaurant(text) => ShowDishCategories(data, db, env, text)
    case PickCategory(text) => ShowDishAsWritten(data, db, env, text)
    case OpenQuantity(ref, body) => ShowQuantityButton(data, db, ref, body)
    case DropDish(ref, body) => CancelDishButton(data, db, ref, body)
    case TurnPage(ref, m, isBack) => ChangeQuantityPage(data, db, ref, m, isBack)
    case PickQuantity(ref, q, body) => SelectQuantity(data, db, ref, q, body)
    case EmptyFromDish => DishEmptyCart(data, db)
    case _ => LeaveCart(data, db)  // KeepCart
  }

  /** The cart and checkout screens: only the checkout writes the
      database. */
  function RunCart(h: Handler, data: UserData, db: Db, env: Env): (o: Outcome)
    requires db.Valid() && ForCart(h)
    ensures o.next != Stray
    ensures o.db != db ==> h.Checkout?
  {
    match h
    case EditLine(d, name, q) => ChangeDish(data, db, d, name, q)
    case ConfirmLine(d, q) => ConfirmChange(data, db, d, q)
    case Checkout(latitude, longitude) => MakeOrder(data, db, env, latitude, longitude)
    case _ => CartEmptyCart(data, db)  // EmptyFromCart
  }

  /** The handlers registered outside the conversations, which see every
      update first: the stale-keyboard alert, the handshake buttons, and
      /help. */
  function Global(e: Event, data: UserData, db: Db, env: Env): (o: Outcome)
    ensures o.data == data && o.next == Stay
    ensures db.Valid() ==> o.db.Valid()
    ensures forall cb :: cb !in Issued(o.effects)
    ensures e.Press? && Decision(e.cb).Some? ==> o == RequestButton(data, db, env, e.cb)
    ensures !(e.Press? && Decision(e.cb).Some?) ==> o.db == db
  {
    match e
    case StalePress =>
      assert Flat([]) == {};
      Done(Stay, data, db, [Alert(KeyboardUnavailable), EditButtons([])])
    case Press(cb, _) =>
      if Decision(cb).Some? then
        var o := RequestButton(data, db, env, cb);
        assert Flat([]) == {};
        o
      else Done(Stay, data, db, [])
    case Message(text) =>
      if IsCommandFor(text, "help") then HelpMessage(data, db, env) else Done(Stay, data, db, [])
    case _ => Done(Stay, data, db, [])
  }

  /** The conversation after a handler: an exception keeps the state, None
      keeps it, END leaves the conversation, and any other value is stored. */
  function Advance(conv: Conv, o: Outcome): (c: Conv)
    ensures o.raised || o.next == Stay ==> c == conv
    ensures !o.raised && o.next.Goto? ==> c == At(o.next.state)
    ensures !o.raised && o.next == End ==> c == Idle
  {
    if o.raised then conv
    else
      match o.next
      case Stay => conv
      case Goto(s) => At(s)
      case End => Idle
      case Stray => Astray
  }

  /** The bot's side of one user's dialog: the customer conversation's
      place, the session, the database, and every payload the bot has put on
      a keyboard so far. */
  datatype World = World(conv: Conv, data: UserData, db: Db, issued: set<Callback>)

  /** The payloads live in the bot's callback-data cache: a press whose
      payload the bot never issued reaches the handlers as a stale press. */
  function Delivered(w: World, e: Event): (d: Event)
    ensures d.Press? ==> d.cb in w.issued
    ensures !e.Press? || e.cb in w.issued ==> d == e
  {
    if e.Press? && e.cb !in w.issued then StalePress else e
  }

  /** One update: the global handlers, then the customer conversation on
      what they left. Issued payloads are never forgotten; outside the
      conversation only /start moves it, leaving the session alone
      otherwise; and it strays only on a message in DISH. */
  function Step(w: World, env: Env, e: Event): (s: World)
    requires w.db.Valid()
    ensures w.issued <= s.issued
    ensures w.conv.Idle? && !(e.Message? && IsCommandFor(e.text, "start")) ==> s.conv == Idle && s.data == w.data
    ensures s.conv == Astray ==> w.conv == Astray || (w.conv == At(DishList) && e.Message?)
  {
    var d := Delivered(w, e);
    var g := Global(d, w.data, w.db, env);
    var o := Run(Route(w.conv, g.db, d), g.data, g.db, env);
    World(Advance(w.conv, o), o.data, o.db, w.issued + Issued(g.effects) + Issued(o.effects))
  }

  /** A payload as the keyboards issue it: picker pages on the grid of
      valid pages with the arrow they show, picked quantities in 1..60,
      stepper quantities in 0..60. */
  predicate WellFormed(cb: Callback) {
    match cb
    case QuantityPress(_, q) => 1 <= q <= MaxQuantity
    case QuantityBack(_, m) => ValidPage(m) && m > FirstPage
    case QuantityNext(_, m) => ValidPage(m) && m < MaxQuantity
    case QuantityChange(_, _, q) => 0 <= q <= MaxQuantity
    case QuantityMinus(_, _, q) => 0 <= q <= MaxQuantity
    case QuantityPlus(_, _, q) => 0 <= q <= MaxQuantity
    case QuantityOk(_, _, q) => 0 <= q <= MaxQuantity
    case _ => true
  }

  predicate AllWellFormed(cbs: set<Callback>) {
    forall cb :: cb in cbs ==> WellFormed(cb)
  }

  /** Every cart line holds 1..60 pieces, and a cart with lines names its
      restaurant and currency. */
  predicate CartOk(cart: Option<Cart>) {
    cart.Some? ==>
      && (forall d :: d in cart.value.dishes ==> 1 <= cart.value.dishes[d].quantity <= MaxQuantity)
      && (cart.value.dishes != map[] ==> cart.value.restaurant.Some? && cart.value.currency.Some?)
  }

  /** What each state may rely on in the session: the dish screen has its
      restaurant, categories and cart, the cart screen a cart, and checkout
      a cart with lines. Only customer states are reached. */
  predicate StateOk(conv: Conv, data: UserData) {
    && (conv.At? ==> conv.state.IsCustomer())
    && (conv == At(DishList) ==> data.restaurantName.Some? && data.dishCategories.Some? && data.cart.Some?)
    && (conv == At(CartView) ==> data.cart.Some?)
    && (conv == At(OrderCheckout) ==> data.cart.Some? && data.cart.value.dishes != map[])
  }

  predicate Inv(w: World) {
    w.db.Valid() && CartOk(w.data.cart) && StateOk(w.conv, w.data) && AllWellFormed(w.issued)
  }

  /** The arguments a handler takes from a well-formed payload. */
  predicate ArgsOk(h: Handler) {
    match h
    case TurnPage(_, m, isBack) => ValidPage(m) && (if isBack then m > FirstPage else m < MaxQuantity)
    case PickQuantity(_, q, _) => 1 <= q <= MaxQuantity
    case EditLine(_, _, q) => 0 <= q <= MaxQuantity
    case ConfirmLine(_, q) => 0 <= q <= MaxQuantity
    case _ => true
  }

  lemma RouteArgs(conv: Conv, db: Db, e: Event)
    requires e.Press? ==> WellFormed(e.cb)
    ensures ArgsOk(Route(conv, db, e))
  {
  }

  /** What every handler keeps: a valid database, a well-formed cart,
      well-formed payloads, and customer states only. */
  predicate Kept(o: Outcome) {
    && o.db.Valid()
    && CartOk(o.data.cart)
    && AllWellFormed(Issued(o.effects))
    && (o.next.Goto? ==> o.next.state.IsCustomer())
  }

  /** Every button of a valid picker page is well formed. */
  lemma PickerWellFormed(ref: DishRef, m: int)
    requires ValidPage(m)
    ensures AllWellFormed(Flat(QuantityKeyboard(ref, m)))
  {
    var rows := QuantityKeyboard(ref, m);
    QuantityKeyboardLayout(ref, m);
    forall cb | cb in Flat(rows) ensures WellFormed(cb) {
      var i :| 0 <= i < |rows| && cb in rows[i];
      if i == 0 || i == 1 {
        var j :| 0 <= j < 3 && rows[i][j] == cb;
      }
    }
  }

  /** The cart view's keyboard: one change button per line, each carrying
      the line's quantity. */
  lemma CartMenuWellFormed(cart: Cart)
    requires forall d :: d in cart.dishes ==> 1 <= cart.dishes[d].quantity <= MaxQuantity
    ensures AllWellFormed(Issued([CartSummary(cart, false), ChangeMenu(ChangeButtons(cart))]))
  {
    var m := ChangeButtons(cart);
    assert [CartSummary(cart, false), ChangeMenu(m)] == [CartSummary(cart, false)] + [ChangeMenu(m)];
    IssuedConcat([CartSummary(cart, false)], [ChangeMenu(m)]);
    IssuedOne(CartSummary(cart, false));
    IssuedOne(ChangeMenu(m));
    forall cb | cb in m.Values ensures WellFormed(cb) {
      var d :| d in m && m[d] == cb;
      assert cb == QuantityChange(d, cart.dishes[d].name, cart.dishes[d].quantity);
    }
  }

  /** showCart on a well-kept cart. */
  lemma ShowCartKept(data: UserData, db: Db)
    requires db.Valid() && CartOk(data.cart)
    ensures Kept(ShowCart(data, db))
  {
    if EmptyOrMissing(data.cart) {
      NothingIssued([Reply(CartIsEmpty)]);
    } else if data.cart.value.restaurant.Some? && data.cart.value.currency.Some? {
      CartMenuWellFormed(data.cart.value);
    }
  }

  lemma StartKept(data: UserData, db: Db, env: Env)
    requires db.Valid() && CartOk(data.cart)
    ensures Kept(StartHandler(data, db, env))
  {
    NothingIssued(StartHandler(data, db, env).effects);
  }

  lemma StartOrderingKept(data: UserData, db: Db)
    requires db.Valid() && CartOk(data.cart)
    ensures Kept(StartOrdering(data, db))
  {
    NothingIssued(StartOrdering(data, db).effects);
  }

  lemma NavigateKept(data: UserData, db: Db, env: Env, text: string)
    requires db.Valid() && CartOk(data.cart)
    ensures Kept(NavigationButton(data, db, env, text))
  {
    if text == BackToMenu.Text() {
      StartKept(data, db, env);
    } else if text == CartLabel.Text() {
      ShowCartKept(data, db);
    } else if text == PlaceOrder.Text() {
      StartOrderingKept(data, db);
    } else {
      NothingIssued([]);
    }
  }

  lemma OpenQuantityKept(data: UserData, db: Db, ref: DishRef, body: string)
    requires db.Valid() && CartOk(data.cart)
    ensures Kept(ShowQuantityButton(data, db, ref, body))
  {
    var o := ShowQuantityButton(data, db, ref, body);
    PickerWellFormed(ref, FirstPage);
    forall cb | cb in Issued(o.effects) ensures WellFormed(cb) {
      var i :| 0 <= i < |o.effects| && cb in Shown(o.effects[i]);
    }
  }

  lemma TurnPageKept(data: UserData, db: Db, ref: DishRef, m: int, isBack: bool)
    requires db.Valid() && CartOk(data.cart)
    requires ValidPage(m) && (if isBack then m > FirstPage else m < MaxQuantity)
    ensures Kept(ChangeQuantityPage(data, db, ref, m, isBack))
  {
    MoveKeepsPageValid(m, isBack);
    PickerWellFormed(ref, MovePage(m, isBack));
    assert Issued([EditButtons(QuantityKeyboard(ref, MovePage(m, isBack)))]) == Flat(QuantityKeyboard(ref, MovePage(m, isBack)));
  }

  lemma PickQuantityKept(data: UserData, db: Db, ref: DishRef, q: int, body: string)
    requires db.Valid() && CartOk(data.cart) && 1 <= q <= MaxQuantity
    ensures Kept(SelectQuantity(data, db, ref, q, body))
  {
  }

  lemma DropDishKept(data: UserData, db: Db, ref: DishRef, body: string)
    requires db.Valid() && CartOk(data.cart)
    ensures Kept(CancelDishButton(data, db, ref, body))
  {
  }

  lemma EditLineKept(data: UserData, db: Db, d: DishId, name: string, q: int)
    requires db.Valid() && CartOk(data.cart) && 0 <= q <= MaxQuantity
    ensures Kept(ChangeDish(data, db, d, name, q))
  {
    StepperStaysInRange(d, name, q);
    var o := ChangeDish(data, db, d, name, q);
    assert Issued(o.effects) == Flat(StepperButtons(d, name, q));
  }

  lemma ConfirmLineKept(data: UserData, db: Db, d: DishId, q: int)
    requires db.Valid() && CartOk(data.cart) && 0 <= q <= MaxQuantity
    ensures Kept(ConfirmChange(data, db, d, q))
  {
    if data.cart.Some? && d in data.cart.value.dishes {
      var data' := data.(cart := ApplyChange(data.cart.value, d, q));
      ShowCartKept(data', db);
      IssuedConcat([EditNotice(CartChanged)], ShowCart(data', db).effects);
    }
  }

  /** Handshake buttons, and the confirmation after them, are well formed. */
  lemma HandshakeWellFormed(effects: seq<Effect>, id: OrderId)
    requires Issued(effects) <= {OrderConfirm(id), OrderCancel(id)}
    ensures AllWellFormed(Issued(effects)) && AllWellFormed(Issued(effects + [OrderPlaced(id)]))
  {
    NothingIssued([OrderPlaced(id)]);
    IssuedConcat(effects, [OrderPlaced(id)]);
    var s := Issued(effects);
    forall cb | cb in s ensures WellFormed(cb) {
      assert cb == OrderConfirm(id) || cb == OrderCancel(id);
    }
  }

  /** At a closed restaurant the checkout is /start's result with a notice
      in front, which issues nothing more. */
  lemma ClosedCheckoutIsStart(data: UserData, db: Db, env: Env, latitude: string, longitude: string)
    requires data.cart.Some? && data.cart.value.restaurant.Some?
    requires !db.Works(data.cart.value.restaurant.value, env.clock)
    ensures var o, s := MakeOrder(data, db, env, latitude, longitude), StartHandler(data, Drawn(db), env);
      o.db == s.db && o.data == s.data && o.next == s.next && Issued(o.effects) == Issued(s.effects)
  {
    var s := StartHandler(data, Drawn(db), env);
    NothingIssued([Reply(CartRestaurantClosed)]);
    IssuedConcat([Reply(CartRestaurantClosed)], s.effects);
  }

  lemma ClosedCheckoutKept(data: UserData, db: Db, env: Env, latitude: string, longitude: string)
    requires db.Valid() && CartOk(data.cart)
    requires data.cart.Some? && data.cart.value.restaurant.Some?
    requires !db.Works(data.cart.value.restaurant.value, env.clock)
    ensures Kept(MakeOrder(data, db, env, latitude, longitude))
  {
    DrawnKeepsValid(db);
    StartKept(data, Drawn(db), env);
    ClosedCheckoutIsStart(data, db, env, latitude, longitude);
  }

  /** With a disabled dish in the cart the checkout is the cart view with a
      notice in front, which issues nothing more. */
  lemma DisabledCheckoutIsCart(data: UserData, db: Db, env: Env, latitude: string, longitude: string)
    requires data.cart.Some? && data.cart.value.restaurant.Some?
    requires db.Works(data.cart.value.restaurant.value, env.clock) && HasDisabled(data.cart.value, db)
    ensures var o, c := MakeOrder(data, db, env, latitude, longitude), ShowCart(data, db);
      o.db == Drawn(db) && o.data == c.data && o.next == c.next && Issued(o.effects) == Issued(c.effects)
  {
    var c := ShowCart(data, db);
    NothingIssued([Reply(CartIrrelevantItems)]);
    IssuedConcat([Reply(CartIrrelevantItems)], c.effects);
  }

  lemma DisabledCheckoutKept(data: UserData, db: Db, env: Env, latitude: string, longitude: string)
    requires db.Valid() && CartOk(data.cart)
    requires data.cart.Some? && data.cart.value.restaurant.Some?
    requires db.Works(data.cart.value.restaurant.value, env.clock) && HasDisabled(data.cart.value, db)
    ensures Kept(MakeOrder(data, db, env, latitude, longitude))
  {
    DrawnKeepsValid(db);
    ShowCartKept(data, db);
    DisabledCheckoutIsCart(data, db, env, latitude, longitude);
  }

  /** Drawing an order id keeps the database valid. */
  lemma DrawnKeepsValid(db: Db)
    requires db.Valid()
    ensures Drawn(db).Valid()
  {
  }

  /** Committing an order row drawn from the id sequence keeps the
      database valid. */
  lemma CommitKeepsValid(db: Db, order: Order)
    requires db.Valid()
    ensures Drawn(db).(orders := db.orders[db.nextOrder := order]).Valid()
  {
  }

  lemma CommitCheckoutKept(data: UserData, db: Db, env: Env, latitude: string, longitude: string)
    requires db.Valid() && CartOk(data.cart)
    requires data.cart.Some? && data.cart.value.restaurant.Some?
    requires db.Works(data.cart.value.restaurant.value, env.clock) && !HasDisabled(data.cart.value, db)
    ensures Kept(MakeOrder(data, db, env, latitude, longitude))
  {
    var id := db.nextOrder;
    var db' := Drawn(db).(orders := db.orders[id := NewOrder(data, db, env, latitude, longitude)]);
    CommitKeepsValid(db, NewOrder(data, db, env, latitude, longitude));
    var sent := SendOrderRequest(db', id, env.lookup);
    RequestIssuesHandshake(db', id, env.lookup);
    HandshakeWellFormed(sent.effects, id);
    var o := if sent.raised then Raise(data, db', sent.effects)
             else Done(Goto(Lobby), Cleared, db', sent.effects + [OrderPlaced(id)]);
    assert CommitOrder(data, db, env, latitude, longitude) == o;
  }

  lemma CheckoutKept(data: UserData, db: Db, env: Env, latitude: string, longitude: string)
    requires db.Valid() && CartOk(data.cart)
    ensures Kept(MakeOrder(data, db, env, latitude, longitude))
  {
    if data.cart.Some? && data.cart.value.restaurant.Some? {
      if !db.Works(data.cart.value.restaurant.value, env.clock) {
        ClosedCheckoutKept(data, db, env, latitude, longitude);
      } else if HasDisabled(data.cart.value, db) {
        DisabledCheckoutKept(data, db, env, latitude, longitude);
      } else {
        CommitCheckoutKept(data, db, env, latitude, longitude);
      }
    }
  }

  /** The order tables and the order-number keyboard issue nothing. */
  lemma OrderTablesIssueNothing(past: seq<OrderId>, current: seq<OrderId>, rows: seq<seq<string>>)
    ensures Issued((if past == [] then [] else [OrdersTable(true, |past| > MaxPastInImage, past)])
                   + (if current == [] then [] else [OrdersTable(false, false, current)])
                   + [ReplyKeyboard(EnterOrder, rows)]) == {}
  {
    var a: seq<Effect> := if past == [] then [] else [OrdersTable(true, |past| > MaxPastInImage, past)];
    var b: seq<Effect> := if current == [] then [] else [OrdersTable(false, false, current)];
    var c := [ReplyKeyboard(EnterOrder, rows)];
    NothingIssued(a);
    NothingIssued(b);
    NothingIssued(c);
    IssuedConcat(a, b);
    IssuedConcat(a + b, c);
  }

  lemma OrderHistoryKept(data: UserData, db: Db, env: Env)
    requires db.Valid() && CartOk(data.cart)
    ensures Kept(ShowOrders(data, db, env))
  {
    var ids := UserOrderIds(db, env.user.id);
    if ids != [] {
      OrderTablesIssueNothing(Partition(db, ids, true), Partition(db, ids, false),
                              BackToMenuKeyboard + ListSplit(Labels(ids), 3));
    }
  }

  lemma PickRestaurantKept(data: UserData, db: Db, env: Env, text: string)
    requires db.Valid() && CartOk(data.cart)
    ensures Kept(ShowDishCategories(data, db, env, text))
  {
    var o := ShowDishCategories(data, db, env, text);
    forall i | 0 <= i < |o.effects| ensures Shown(o.effects[i]) == {} {
    }
    NothingIssued(o.effects);
  }

  lemma PickCategoryKept(data: UserData, db: Db, env: Env, text: string)
    requires db.Valid() && CartOk(data.cart)
    ensures Kept(ShowDishAsWritten(data, db, env, text))
  {
    var o := ShowDishAsWritten(data, db, env, text);
    forall cb | cb in Issued(o.effects) ensures WellFormed(cb) {
      var i :| 0 <= i < |o.effects| && cb in Shown(o.effects[i]);
    }
  }

  /** The handlers of the lobby, the menus and the fallbacks. */
  lemma MenuRunKept(h: Handler, data: UserData, db: Db, env: Env)
    requires db.Valid() && CartOk(data.cart) && !ForDishes(h) && !ForCart(h)
    ensures Kept(RunMenu(h, data, db, env))
  {
    match h {
      case StartCmd => StartKept(data, db, env);
      case Navigate(text) => NavigateKept(data, db, env, text);
      case ListRestaurants(text) => NothingIssued(ShowRestaurants(data, db, text).effects);
      case OrderHistory => OrderHistoryKept(data, db, env);
      case OpenOrder(text) => NothingIssued(ShowSingleOrder(data, db, env, text).effects);
      case CancelCmd => NothingIssued(CancelHandler(data, db).effects);
      case OtherCmd => NothingIssued(EndConversation(data, db).effects);
      case Unrecognized => NothingIssued([Reply(MessageNotRecognized)]);
      case UnknownPress => NothingIssued([Alert(UncatchedCallback)]);
      case AboutUsPage => NothingIssued(ShowAboutUs(data, db).effects);
      case _ => NothingIssued([]);
    }
  }

  /** The handlers of the restaurant and dish screens. */
  lemma DishRunKept(h: Handler, data: UserData, db: Db, env: Env)
    requires db.Valid() && CartOk(data.cart) && ArgsOk(h) && ForDishes(h)
    ensures Kept(RunDishes(h, data, db, env))
  {
    match h {
      case PickRestaurant(text) => PickRestaurantKept(data, db, env, text);
      case PickCategory(text) => PickCategoryKept(data, db, env, text);
      case OpenQuantity(ref, body) => OpenQuantityKept(data, db, ref, body);
      case DropDish(ref, body) => DropDishKept(data, db, ref, body);
      case TurnPage(ref, m, isBack) => TurnPageKept(data, db, ref, m, isBack);
      case PickQuantity(ref, q, body) => PickQuantityKept(data, db, ref, q, body);
      case EmptyFromDish => NothingIssued(DishEmptyCart(data, db).effects);
      case KeepCart => NothingIssued(LeaveCart(data, db).effects);
    }
  }

  /** The handlers of the cart and checkout screens. */
  lemma CartRunKept(h: Handler, data: UserData, db: Db, env: Env)
    requires db.Valid() && CartOk(data.cart) && ArgsOk(h) && ForCart(h)
    ensures Kept(RunCart(h, data, db, env))
  {
    match h {
      case EmptyFromCart => NothingIssued(CartEmptyCart(data, db).effects);
      case EditLine(d, name, q) => EditLineKept(data, db, d, name, q);
      case ConfirmLine(d, q) => ConfirmLineKept(data, db, d, q);
      case Checkout(latitude, longitude) => CheckoutKept(data, db, env, latitude, longitude);
    }
  }

  /** Every handler, given the arguments a well-formed payload carries,
      keeps the database valid and the cart well formed, issues only
      well-formed payloads, and moves only to customer states. */
  lemma RunKeeps(h: Handler, data: UserData, db: Db, env: Env)
    requires db.Valid() && CartOk(data.cart) && ArgsOk(h)
    ensures Kept(Run(h, data, db, env))
  {
    if ForDishes(h) {
      DishRunKept(h, data, db, env);
    } else if ForCart(h) {
      CartRunKept(h, data, db, env);
    } else {
      MenuRunKept(h, data, db, env);
    }
  }

  /** A handler that moves to a screen leaves in the session what the
      screen relies on. */
  predicate Enters(o: Outcome) {
    && (!o.raised && o.next == Goto(DishList) ==>
          o.data.restaurantName.Some? && o.data.dishCategories.Some? && o.data.cart.Some?)
    && (!o.raised && o.next == Goto(CartView) ==> o.data.cart.Some?)
    && (!o.raised && o.next == Goto(OrderCheckout) ==> o.data.cart.Some? && o.data.cart.value.dishes != map[])
  }

  /** A handler that keeps the state (by returning None or by raising)
      keeps the chosen restaurant and its categories, and never drops the
      cart. */
  predicate Holds(data: UserData, o: Outcome) {
    (o.raised || o.next == Stay) ==>
      && o.data.restaurantName == data.restaurantName
      && o.data.dishCategories == data.dishCategories
      && (data.cart.Some? ==> o.data.cart.Some?)
  }

  /** ... and, unless it is one of the handlers that remove cart lines,
      keeps a cart with lines a cart with lines. */
  predicate HoldsLines(h: Handler, data: UserData, o: Outcome) {
    (o.raised || o.next == Stay) && !(h.DropDish? || h.EmptyFromDish? || h.ConfirmLine?)
      && data.cart.Some? && data.cart.value.dishes != map[] ==>
        o.data.cart.Some? && o.data.cart.value.dishes != map[]
  }

  lemma MenuRunLeads(h: Handler, data: UserData, db: Db, env: Env)
    requires db.Valid() && CartOk(data.cart) && !ForDishes(h) && !ForCart(h)
    ensures var o := RunMenu(h, data, db, env); Enters(o) && Holds(data, o) && HoldsLines(h, data, o)
  {
  }

  lemma DishRunLeads(h: Handler, data: UserData, db: Db, env: Env)
    requires db.Valid() && CartOk(data.cart) && ArgsOk(h) && ForDishes(h)
    ensures var o := RunDishes(h, data, db, env); Enters(o) && Holds(data, o) && HoldsLines(h, data, o)
  {
  }

  lemma CartRunLeads(h: Handler, data: UserData, db: Db, env: Env)
    requires db.Valid() && CartOk(data.cart) && ArgsOk(h) && ForCart(h)
    ensures var o := RunCart(h, data, db, env); Enters(o) && Holds(data, o) && HoldsLines(h, data, o)
  {
    match h {
      case ConfirmLine(d, q) => ConfirmLineLeads(data, db, d, q);
      case Checkout(latitude, longitude) => CheckoutLeads(data, db, env, latitude, longitude);
      case _ =>
    }
  }

  lemma ConfirmLineLeads(data: UserData, db: Db, d: DishId, q: int)
    requires db.Valid() && CartOk(data.cart) && 0 <= q <= MaxQuantity
    ensures var o := ConfirmChange(data, db, d, q); Enters(o) && Holds(data, o)
  {
  }

  lemma CheckoutLeads(data: UserData, db: Db, env: Env, latitude: string, longitude: string)
    requires db.Valid() && CartOk(data.cart)
    ensures var o := MakeOrder(data, db, env, latitude, longitude); Enters(o) && Holds(data, o)
  {
  }

  lemma RunLeads(h: Handler, data: UserData, db: Db, env: Env)
    requires db.Valid() && CartOk(data.cart) && ArgsOk(h)
    ensures var o := Run(h, data, db, env); Enters(o) && Holds(data, o) && HoldsLines(h, data, o)
  {
    if ForDishes(h) {
      DishRunLeads(h, data, db, env);
    } else if ForCart(h) {
      CartRunLeads(h, data, db, env);
    } else {
      MenuRunLeads(h, data, db, env);
    }
  }

  /** The handlers that remove cart lines are only reachable from the dish
      and cart screens. */
  lemma LineRemoversStayPut(conv: Conv, db: Db, e: Event)
    ensures var h := Route(conv, db, e);
      h.DropDish? || h.EmptyFromDish? || h.ConfirmLine? ==> conv == At(DishList) || conv == At(CartView)
  {
  }

  /** Whatever the update, the conversation only reaches customer states,
      and each state finds in the session what it relies on. */
  lemma RunKeepsStateOk(conv: Conv, data: UserData, db: Db, env: Env, e: Event)
    requires db.Valid() && CartOk(data.cart) && StateOk(conv, data)
    requires e.Press? ==> WellFormed(e.cb)
    ensures var o := Run(Route(conv, db, e), data, db, env);
      StateOk(Advance(conv, o), o.data)
  {
    var h := Route(conv, db, e);
    RouteArgs(conv, db, e);
    RunKeeps(h, data, db, env);
    RunLeads(h, data, db, env);
    LineRemoversStayPut(conv, db, e);
  }

  /** A fresh dialog over a consistent database. */
  function Fresh(db: Db): World {
    World(Idle, Cleared, db, {})
  }

  lemma FreshInv(db: Db)
    requires db.Valid()
    ensures Inv(Fresh(db))
  {
  }

  /** One update keeps the invariant: a valid database, a well-formed cart,
      every state finding what it relies on, and only well-formed payloads
      on the keyboards. */
  lemma StepKeepsInv(w: World, env: Env, e: Event)
    requires Inv(w)
    ensures Inv(Step(w, env, e))
  {
    var d := Delivered(w, e);
    var g := Global(d, w.data, w.db, env);
    assert d.Press? ==> WellFormed(d.cb);
    RunKeepsStateOk(w.conv, g.data, g.db, env, d);
    RouteArgs(w.conv, g.db, d);
    RunKeeps(Route(w.conv, g.db, d), g.data, g.db, env);
  }

  /** An update as it reaches the bot: who sent it, when, and what. */
  datatype Update = Update(env: Env, event: Event)

  /** A dialog: the updates one after the other. */
  function Replay(w: World, updates: seq<Update>): (r: World)
    requires Inv(w)
    ensures Inv(r)
    decreases |updates|
  {
    if |updates| == 0 then w
    else
      StepKeepsInv(w, updates[0].env, updates[0].event);
      Replay(Step(w, updates[0].env, updates[0].event), updates[1..])
  }

  /** A message other than /help passes the global handlers untouched. */
  lemma GlobalPassesMessage(text: string, data: UserData, db: Db, env: Env)
    requires !IsCommandFor(text, "help")
    ensures Global(Message(text), data, db, env) == Done(Stay, data, db, [])
  {
  }

  /** One message other than /help, given what the conversation runs for it. */
  lemma StepMessage(w: World, env: Env, text: string, o: Outcome)
    requires w.db.Valid() && !IsCommandFor(text, "help")
    requires o == Run(Route(w.conv, w.db, Message(text)), w.data, w.db, env)
    ensures Step(w, env, Message(text)) == World(Advance(w.conv, o), o.data, o.db, w.issued + Issued(o.effects))
  {
    GlobalPassesMessage(text, w.data, w.db, env);
    NothingIssued([]);
  }

  /** "/start" is the start command and not /help. */
  lemma StartCommand()
    ensures IsCommandFor("/start", "start") && !IsCommandFor("/start", "help")
  {
    SplitNoSeparator("/start", ' ');
  }

  lemma StartRuns(data: UserData, db: Db, env: Env)
    requires db.Valid()
    ensures Run(StartCmd, data, db, env) == StartHandler(data, db, env)
  {
    assert Run(StartCmd, data, db, env) == RunMenu(StartCmd, data, db, env);
  }

  /** /start is heard in every situation (re-entry is allowed): a person
      lands in the lobby with the session untouched. */
  lemma StartReenters(w: World, env: Env)
    requires Inv(w) && !env.user.isBot
    ensures Step(w, env, Message("/start")).conv == At(Lobby)
    ensures Step(w, env, Message("/start")).data == w.data
  {
    StartCommand();
    assert Route(w.conv, w.db, Message("/start")) == StartCmd;
    StartRuns(w.data, w.db, env);
    StepMessage(w, env, "/start", StartHandler(w.data, w.db, env));
  }

  /** "/cancel" is the cancel command and neither /start nor /help. */
  lemma CancelCommand()
    ensures IsCommandFor("/cancel", "cancel") && !IsCommandFor("/cancel", "start") && !IsCommandFor("/cancel", "help")
  {
    SplitNoSeparator("/cancel", ' ');
  }

  /** "/cancel" is no button text: every label starts with an emoji or a
      letter. */
  lemma CancelIsNoLabel(l: Label)
    ensures "/cancel" != l.Text()
  {
    assert l.Text()[0] != '/';
  }

  lemma CancelIsNoneOf(labels: seq<Label>)
    ensures !OneOf("/cancel", labels)
  {
    forall i | 0 <= i < |labels| ensures "/cancel" != labels[i].Text() {
      CancelIsNoLabel(labels[i]);
    }
  }

  /** The labels the regex filters search for are longer than "/cancel". */
  lemma CancelHoldsNoLabel(l: Label)
    requires l != CartLabel && l != PlaceOrder
    ensures !Contains("/cancel", l.Text())
  {
    assert |l.Text()| > |"/cancel"|;
  }

  /** No state's own handlers take "/cancel", but for a restaurant of that
      name. */
  lemma CancelPassesStates(s: State, db: Db)
    requires s == RestaurantList ==> !RestaurantFilter(db, "/cancel")
    ensures StateMessage(s, db, "/cancel") == NoHandler
  {
    match s {
      case Lobby =>
        CancelHoldsNoLabel(ChooseRestaurant);
        CancelHoldsNoLabel(AboutUs);
        CancelHoldsNoLabel(MyOrders);
        CancelIsNoneOf([CartLabel, PlaceOrder]);
      case RestaurantList =>
        CancelIsNoneOf([PlaceOrder, CartLabel, BackToMenu]);
      case DishList =>
        CancelHoldsNoLabel(BackToRestaurant);
        CancelIsNoneOf([PlaceOrder, CartLabel, BackToMenu]);
      case CartView =>
        CancelHoldsNoLabel(EmptyTheCart);
        CancelIsNoneOf([PlaceOrder, BackToMenu]);
      case OrderCheckout =>
        CancelHoldsNoLabel(BackToMenu);
      case UserOrderList =>
        CancelHoldsNoLabel(BackToMenu);
        assert !IsDigit("/cancel"[0]);
      case _ =>
    }
  }

  /** /cancel reaches the cancel handler in every state, unless an enabled
      restaurant is literally called "/cancel" and the restaurant keyboard
      is showing (the state's handlers come first). */
  lemma CancelRoute(conv: Conv, db: Db)
    requires !conv.Idle?
    requires conv == At(RestaurantList) ==> !RestaurantFilter(db, "/cancel")
    ensures Route(conv, db, Message("/cancel")) == CancelCmd
  {
    if conv.At? {
      CancelPassesStates(conv.state, db);
    }
    CancelCommand();
  }

  lemma CancelRuns(conv: Conv, data: UserData, db: Db, env: Env)
    requires db.Valid() && !conv.Idle?
    requires conv == At(RestaurantList) ==> !RestaurantFilter(db, "/cancel")
    ensures Run(Route(conv, db, Message("/cancel")), data, db, env) == CancelHandler(data, db)
  {
    CancelRoute(conv, db);
    assert Run(CancelCmd, data, db, env) == RunMenu(CancelCmd, data, db, env);
  }

  /** /cancel ends a running conversation and clears the session. */
  lemma CancelLeaves(w: World, env: Env)
    requires Inv(w) && !w.conv.Idle?
    requires w.conv == At(RestaurantList) ==> !RestaurantFilter(w.db, "/cancel")
    ensures Step(w, env, Message("/cancel")).conv == Idle
    ensures Step(w, env, Message("/cancel")).data == Cleared
  {
    CancelCommand();
    CancelRuns(w.conv, w.data, w.db, env);
    StepMessage(w, env, "/cancel", CancelHandler(w.data, w.db));
  }

  /** No handler: nothing happens. */
  lemma RunsNothing(data: UserData, db: Db, env: Env)
    requires db.Valid()
    ensures Run(NoHandler, data, db, env) == Done(Stay, data, db, [])
  {
    assert Run(NoHandler, data, db, env) == RunMenu(NoHandler, data, db, env);
  }

  /** Outside the conversation only /start is heard: nothing else moves the
      dialog or touches the session. */
  lemma IdleHearsOnlyStart(w: World, env: Env, e: Event)
    requires Inv(w) && w.conv == Idle
    requires !(e.Message? && IsCommandFor(e.text, "start"))
    ensures Step(w, env, e).conv == Idle && Step(w, env, e).data == w.data
  {
    var d := Delivered(w, e);
    var g := Global(d, w.data, w.db, env);
    assert Route(Idle, g.db, d) == NoHandler;
    RunsNothing(g.data, g.db, env);
  }

  /** A stale button only gets the "keyboard unavailable" alert: the dialog,
      the session and the database stay as they were. */
  lemma StalePressChangesNothing(w: World, env: Env)
    requires Inv(w)
    ensures var w' := Step(w, env, StalePress);
      w'.conv == w.conv && w'.data == w.data && w'.db == w.db && w'.issued == w.issued
  {
    var g := Global(StalePress, w.data, w.db, env);
    assert Issued(g.effects) == {};
    assert Route(w.conv, g.db, StalePress) == NoHandler;
    RunsNothing(g.data, g.db, env);
    NothingIssued([]);
  }

  /** What the dish screen's routing can reach: its own handlers, the
      navigation labels it registers, the restaurant list, and the
      commands and fallbacks. */
  lemma DishScreenRoutes(db: Db, e: Event)
    ensures var h := Route(At(DishList), db, e);
      && !ForCart(h) && !h.PickRestaurant? && !h.OrderHistory? && !h.OpenOrder?
      && (h.Navigate? ==> OneOf(h.text, [PlaceOrder, CartLabel, BackToMenu]))
  {
  }

  /** The navigation labels never raise on a well-kept cart. */
  lemma NavigateNeverRaises(data: UserData, db: Db, env: Env, text: string)
    requires db.Valid() && CartOk(data.cart) && OneOf(text, [PlaceOrder, CartLabel, BackToMenu])
    ensures !NavigationButton(data, db, env, text).raised
  {
    var labels := [PlaceOrder, CartLabel, BackToMenu];
    var i :| 0 <= i < |labels| && text == labels[i].Text();
  }

  lemma DishScreenMenuNeverRaises(h: Handler, data: UserData, db: Db, env: Env)
    requires db.Valid() && CartOk(data.cart) && !ForDishes(h) && !ForCart(h) && !h.OpenOrder?
    requires h.Navigate? ==> OneOf(h.text, [PlaceOrder, CartLabel, BackToMenu])
    ensures !RunMenu(h, data, db, env).raised
  {
    if h.Navigate? {
      NavigateNeverRaises(data, db, env, h.text);
    }
  }

  /** The dish screen's own handlers never raise while the session holds
      the restaurant, its categories and a cart. */
  lemma DishHandlersNeverRaise(h: Handler, data: UserData, db: Db, env: Env)
    requires db.Valid() && CartOk(data.cart) && ArgsOk(h) && ForDishes(h) && !h.PickRestaurant?
    requires data.restaurantName.Some? && data.dishCategories.Some? && data.cart.Some?
    ensures !RunDishes(h, data, db, env).raised
  {
  }

  /** On the dish screen of a well-kept dialog nothing raises: the restaurant,
      its categories and the cart are always there. */
  lemma DishScreenNeverRaises(w: World, env: Env, e: Event)
    requires Inv(w) && w.conv == At(DishList)
    requires e.Press? ==> e.cb in w.issued
    ensures var g := Global(e, w.data, w.db, env);
      !Run(Route(w.conv, g.db, e), g.data, g.db, env).raised
  {
    var g := Global(e, w.data, w.db, env);
    var h := Route(w.conv, g.db, e);
    RouteArgs(w.conv, g.db, e);
    DishScreenRoutes(g.db, e);
    if ForDishes(h) {
      DishHandlersNeverRaise(h, w.data, g.db, env);
    } else {
      DishScreenMenuNeverRaises(h, w.data, g.db, env);
    }
  }

  /** What the cart screen's routing can reach. */
  lemma CartScreenRoutes(db: Db, e: Event)
    ensures var h := Route(At(CartView), db, e);
      && !ForDishes(h) && !h.Checkout? && !h.ListRestaurants? && !h.OrderHistory? && !h.OpenOrder?
      && (h.Navigate? ==> OneOf(h.text, [PlaceOrder, BackToMenu]))
  {
  }

  lemma CartScreenMenuNeverRaises(h: Handler, data: UserData, db: Db, env: Env)
    requires db.Valid() && CartOk(data.cart) && !ForDishes(h) && !ForCart(h) && !h.OpenOrder?
    requires h.Navigate? ==> OneOf(h.text, [PlaceOrder, BackToMenu])
    ensures !RunMenu(h, data, db, env).raised
  {
    if h.Navigate? {
      var labels := [PlaceOrder, BackToMenu];
      var i :| 0 <= i < |labels| && h.text == labels[i].Text();
      assert OneOf(h.text, [PlaceOrder, CartLabel, BackToMenu]) by {
        assert h.text == [PlaceOrder, CartLabel, BackToMenu][if i == 0 then 0 else 2].Text();
      }
      NavigateNeverRaises(data, db, env, h.text);
    }
  }

  /** The cart screen's own handlers raise only for a stepper whose line is
      gone. */
  lemma CartHandlersRaise(h: Handler, data: UserData, db: Db, env: Env)
    requires db.Valid() && CartOk(data.cart) && ArgsOk(h) && ForCart(h) && !h.Checkout? && data.cart.Some?
    ensures RunCart(h, data, db, env).raised <==> h.ConfirmLine? && h.dish !in data.cart.value.dishes
  {
  }

  /** On the cart screen only a stepper whose line is gone raises (its
      KeyError): the stepper of a line removed meanwhile. */
  lemma CartScreenRaisesOnlyOnGoneLines(w: World, env: Env, e: Event)
    requires Inv(w) && w.conv == At(CartView)
    requires e.Press? ==> e.cb in w.issued
    ensures var g := Global(e, w.data, w.db, env);
      var h := Route(w.conv, g.db, e);
      Run(h, g.data, g.db, env).raised <==> h.ConfirmLine? && h.dish !in w.data.cart.value.dishes
  {
    var g := Global(e, w.data, w.db, env);
    var h := Route(w.conv, g.db, e);
    RouteArgs(w.conv, g.db, e);
    CartScreenRoutes(g.db, e);
    if ForCart(h) {
      CartHandlersRaise(h, w.data, g.db, env);
    } else {
      CartScreenMenuNeverRaises(h, w.data, g.db, env);
    }
  }

  /** What the unawaited coroutine of showDish does to the dialog: an
      unknown text on the dish screen leaves the conversation holding no
      state, after which even a category name is not recognized and only
      /start brings the menu back. */
  lemma UnawaitedShowDishStrandsTheMenu(data: UserData, db: Db, env: Env, text: string, category: string)
    requires data.dishCategories.Some? && text !in data.dishCategories.value
    requires category in data.dishCategories.value && !IsCommand(category)
    requires !Contains(category, BackToRestaurant.Text()) && !OneOf(category, [PlaceOrder, CartLabel, BackToMenu])
    ensures Advance(At(DishList), ShowDishAsWritten(data, db, env, text)) == Astray
    ensures Route(Astray, db, Message(category)) == Unrecognized
    ensures Advance(At(DishList), ShowDish(data, db, env, text)) == At(DishList)
    ensures Route(At(DishList), db, Message(category)) == PickCategory(category)
  {
    assert !IsCommandFor(category, "start");
  }

  /** The same through whole updates: on the dish screen, a text the
      screen routes to showDish but that is no category leaves the dialog
      astray with session and database unchanged; a category name sent
      next is then only "not recognized". */
  lemma UnknownCategoryStrandsTheDialog(w: World, env: Env, text: string, category: string)
    requires w.db.Valid() && w.conv == At(DishList)
    requires w.data.dishCategories.Some? && text !in w.data.dishCategories.value
    requires StateMessage(DishList, w.db, text) == PickCategory(text)
    requires category in w.data.dishCategories.value && !IsCommand(category)
    ensures var w1 := Step(w, env, Message(text));
      && w1.conv == Astray && w1.data == w.data && w1.db == w.db
      && Step(w1, env, Message(category)).conv == Astray
      && Step(w1, env, Message(category)).data == w.data
  {
    var o1 := Run(Route(w.conv, w.db, Message(text)), w.data, w.db, env);
    assert Route(w.conv, w.db, Message(text)) == PickCategory(text);
    StepMessage(w, env, text, o1);
    var w1 := Step(w, env, Message(text));
    assert !IsCommandFor(category, "start") && !IsCommandFor(category, "help");
    var o2 := Run(Route(w1.conv, w1.db, Message(category)), w1.data, w1.db, env);
    assert Route(w1.conv, w1.db, Message(category)) == Unrecognized;
    StepMessage(w1, env, category, o2);
  }
}
