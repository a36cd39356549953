/** The per-user session (`context.user_data`), the callback payloads the
    bot's inline buttons carry, the observable effects of a handler and the
    record every handler returns. */
module Session {
  import opened Wrappers
  import opened Constants
  import opened Config
  import opened Availability
  import opened Catalog

  /** One cart line: a snapshot of the dish when it was picked. */
  datatype Line = Line(name: string, price: Price, quantity: int)

  /** The cart: restaurant and currency are absent in a fresh or emptied cart. */
  datatype Cart = Cart(restaurant: Option<string>, currency: Option<string>, dishes: map<DishId, Line>)

  /** `{'dishes': {}}` */
  const EmptyCart: Cart := Cart(None, None, map[])

  /** The session keys the customer dialog uses; an absent key is None. */
  datatype UserData = UserData(restaurantName: Option<string>, dishCategories: Option<set<string>>,
                               cart: Option<Cart>)

  /** `user_data.clear()` */
  const Cleared: UserData := UserData(None, None, None)

  /** The dish snapshot every picker button carries. */
  datatype DishRef = DishRef(restaurant: string, dish: DishId, name: string, price: Price, currency: string)

  /** Callback payloads. The bot stores payloads on its side
      (arbitrary_callback_data), so a press delivers a payload exactly as the
      bot issued it. */
  datatype Callback =
    | AddPress(ref: DishRef)                     // -ADD-
    | ChangePress(ref: DishRef)                  // -CHANGE-
    | CancelDishPress(ref: DishRef)              // -CANCEL-
    | QuantityBack(ref: DishRef, maxValue: int)  // -QUANTITY_BACK-
    | QuantityNext(ref: DishRef, maxValue: int)  // -QUANTITY_NEXT-
    | QuantityPress(ref: DishRef, quantity: int) // -QUANTITY-
    | EmptyCartPress                             // -EMPTY_CART-
    | LeaveCartPress                             // -LEAVE_CART-
    | QuantityChange(dish: DishId, name: string, quantity: int)  // -QUANTITY_CHANGE-
    | QuantityMinus(dish: DishId, name: string, quantity: int)   // -QUANTITY_MINUS-
    | QuantityPlus(dish: DishId, name: string, quantity: int)    // -QUANTITY_PLUS-
    | QuantityOk(dish: DishId, name: string, quantity: int)      // -QUANTITY_OK-
    | OrderConfirm(order: OrderId)               // -ORDER_CONFIRM-
    | OrderCancel(order: OrderId)                // -ORDER_CANCEL-
    | RolePress(role: Role, user: UserId)        // -ADMIN_STATUS- / -MANAGER_STATUS-
    | RestaurantStatusPress(restaurant: string)  // -CHANGE_RESTAURANT_STATUS-
    | SchedulePress(restaurant: string)          // -CHANGE_RESTAURANT_SCHEDULE-
    | CancelSchedulePress                        // -CANCEL_SCHEDULE_CHANGE-
    | DishStatusPress(dish: DishId, enabled: bool)  // -CHANGE_DISH_STATUS-
    | StatusMenuPress(order: OrderId)            // -CHANGE_STATUS-
    | NewStatusPress(order: OrderId, status: Status)  // -NEW_STATUS-

  /** The two permissions an admin hands out. */
  datatype Role = AdminRole | ManagerRole

  /** The sender of an update, with the fields Telegram gives. */
  datatype TgUser = TgUser(id: UserId, isBot: bool, username: Option<string>, firstName: string,
                           lastName: Option<string>)

  /** The answer to "is the bot a member of the notification chat?". */
  datatype ChatLookup = InChat | NotInChat | LookupFailed

  /** What a handler learns from outside the session and the database: the
      sender, the local clock, and the chat lookup made while notifying. */
  datatype Env = Env(user: TgUser, clock: Clock, lookup: ChatLookup)

  /** Where an order request is delivered. */
  datatype Chat = NotificationChat | DeveloperChat

  /** What a handler does that the user or a chat can see. Inline keyboards
      are given by the payloads of their buttons, reply keyboards by the
      texts of theirs. */
  datatype Effect =
    | Reply(key: TextKey)                                  // a fixed text
    | ReplyKeyboard(key: TextKey, rows: seq<seq<string>>)  // a fixed text with a reply keyboard
    | NamedKeyboard(text: string, rows: seq<seq<string>>)  // a given text with a reply keyboard
    | CategoryMenu(restaurant: string, categories: set<string>)  // the restaurant's category keyboard
    | Alert(key: TextKey)                                  // an alert answering a button press
    | ClosedHours(days: map<int, DayLine>)                 // the "closed now" notice
    | DishCards(cards: map<DishId, Option<Callback>>)      // one message per dish, with or without "Add"
    | EditMessage(text: string, buttons: seq<seq<Callback>>)  // the pressed message rewritten
    | EditButtons(buttons: seq<seq<Callback>>)             // only the pressed message's keyboard
    | EditNotice(key: TextKey)                             // the pressed message replaced by a fixed text
    | Buttons(key: TextKey, buttons: seq<seq<Callback>>)   // a fixed text with an inline keyboard
    | CartSummary(cart: Cart, checkout: bool)              // the cart contents, with the cart or order keyboard
    | ChangeMenu(changes: map<DishId, Callback>)         // one "change quantity" button per cart line
    | Stepper(name: string, quantity: int, buttons: seq<seq<Callback>>)  // the -/+/OK editor of one line
    | OrderPlaced(order: OrderId)                          // the confirmation with the order number
    | Diagnostic(chat: Chat)                               // an error text to the developer
    | OrderRequest(chat: Chat, order: OrderId, lines: map<DishId, RequestLine>, buttons: seq<seq<Callback>>)
    | OrderLocation(chat: Chat, latitude: string, longitude: string)
    | OrdersTable(past: bool, asDocument: bool, orders: seq<OrderId>)  // a user's orders as a table
    | OrderDetails(order: OrderId)                         // one order as a table
    | UserCard(user: UserId, buttons: seq<seq<Callback>>)  // a user's details with the permission buttons
    | RestaurantCard(restaurant: string, enabled: bool, days: map<int, DayLine>, buttons: seq<seq<Callback>>)  // a restaurant as a manager sees it
    | Choices(key: TextKey, options: set<string>)          // a fixed text with one reply button per option

  /** One row of an order request: dish name, quantity and unit price. */
  datatype RequestLine = RequestLine(name: string, quantity: int, price: Price)

  /** The return value of a handler: `None` keeps the state, END ends the
      conversation. `Stray` is a value that is no state at all. */
  datatype Next = Stay | Goto(state: State) | End | Stray

  /** A handler's result. `raised` marks an exception: the update is
      abandoned, the state stays, and what was changed or sent before it
      remains. */
  datatype Outcome = Outcome(next: Next, data: UserData, db: Db, effects: seq<Effect>, raised: bool)

  /** A normal return. */
  function Done(next: Next, data: UserData, db: Db, effects: seq<Effect>): Outcome {
    Outcome(next, data, db, effects, false)
  }

  /** An exception after the given effects. */
  function Raise(data: UserData, db: Db, effects: seq<Effect>): Outcome {
    Outcome(Stay, data, db, effects, true)
  }

  /** The payloads of all buttons on a keyboard. */
  function Flat(rows: seq<seq<Callback>>): (cbs: set<Callback>)
    ensures forall cb :: cb in cbs <==> exists i :: 0 <= i < |rows| && cb in rows[i]
  {
    if |rows| == 0 then {}
    else
      var rest := Flat(rows[1..]);
      assert forall cb :: (exists i :: 0 <= i < |rows| && cb in rows[i]) ==> cb in rows[0] || cb in rest by {
        forall cb | exists i :: 0 <= i < |rows| && cb in rows[i]
          ensures cb in rows[0] || cb in rest
        {
          var i :| 0 <= i < |rows| && cb in rows[i];
          if i > 0 {
            assert cb in rows[1..][i - 1];
          }
        }
      }
      (set cb | cb in rows[0]) + rest
  }

  /** The payloads of the inline buttons an effect shows. */
  function Shown(e: Effect): set<Callback> {
    match e
    case DishCards(cards) => set d | d in cards && cards[d].Some? :: cards[d].value
    case EditMessage(_, rows) => Flat(rows)
    case EditButtons(rows) => Flat(rows)
    case Buttons(_, rows) => Flat(rows)
    case ChangeMenu(changes) => changes.Values
    case Stepper(_, _, rows) => Flat(rows)
    case OrderRequest(_, _, _, rows) => Flat(rows)
    case UserCard(_, rows) => Flat(rows)
    case RestaurantCard(_, _, _, rows) => Flat(rows)
    case _ => {}
  }

  /** Every payload the effects put on a keyboard: exactly the payloads a
      later button press can deliver. */
  function Issued(effects: seq<Effect>): (cbs: set<Callback>)
    ensures forall cb :: cb in cbs <==> exists i :: 0 <= i < |effects| && cb in Shown(effects[i])
  {
    if |effects| == 0 then {}
    else
      var rest := Issued(effects[1..]);
      assert forall cb :: (exists i :: 0 <= i < |effects| && cb in Shown(effects[i])) ==>
                            cb in Shown(effects[0]) || cb in rest by {
        forall cb | exists i :: 0 <= i < |effects| && cb in Shown(effects[i])
          ensures cb in Shown(effects[0]) || cb in rest
        {
          var i :| 0 <= i < |effects| && cb in Shown(effects[i]);
          if i > 0 {
            assert effects[1..][i - 1] == effects[i];
          }
        }
      }
      Shown(effects[0]) + rest
  }

  /** Issuing is compositional: the payloads of two runs of effects are the
      payloads of each. */
  lemma {:induction false} IssuedConcat(a: seq<Effect>, b: seq<Effect>)
    ensures Issued(a + b) == Issued(a) + Issued(b)
    decreases |a|
  {
    if |a| == 0 {
      assert a + b == b;
    } else {
      assert (a + b)[1..] == a[1..] + b;
      IssuedConcat(a[1..], b);
    }
  }

  /** Effects without inline buttons issue nothing. */
  lemma NothingIssued(effects: seq<Effect>)
    requires forall i :: 0 <= i < |effects| ==> Shown(effects[i]) == {}
    ensures Issued(effects) == {}
  {
  }

  /** A single effect issues what it shows. */
  lemma IssuedOne(e: Effect)
    ensures Issued([e]) == Shown(e)
  {
    assert [e][1..] == [];
  }
}
