/** The conversation states of modules/bot/config.py and their integer codes. */
module Config {
  import opened Wrappers

  /** LOBBY .. USER_ORDERS are the customer states, the rest the manager
      states, in the order the source numbers them. */
  datatype State =
    | Lobby | RestaurantList | DishList | CartView | OrderCheckout | UserOrderList
    | ManageUser | ManageOrder | ManageRestaurant | ManageSchedule
    | NewRestaurantName | NewRestaurantCurrency | NewRestaurantSchedule | NewCategoryName
    | NewDishRestaurant | NewDishCategory | NewDishName | NewDishDescription
    | NewDishPrice | NewDishPhoto
  {
    predicate IsCustomer() {
      this in {Lobby, RestaurantList, DishList, CartView, OrderCheckout, UserOrderList}
    }
  }

  /** ConversationHandler.END */
  const EndCode: int := -1

  /** The integer constant the source gives each state. */
  function Code(s: State): (c: int)
    ensures s.IsCustomer() <==> 0 <= c <= 5
    ensures !s.IsCustomer() <==> 6 <= c <= 19
  {
    match s
    case Lobby => 0
    case RestaurantList => 1
    case DishList => 2
    case CartView => 3
    case OrderCheckout => 4
    case UserOrderList => 5
    case ManageUser => 6
    case ManageOrder => 7
    case ManageRestaurant => 8
    case ManageSchedule => 9
    case NewRestaurantName => 10
    case NewRestaurantCurrency => 11
    case NewRestaurantSchedule => 12
    case NewCategoryName => 13
    case NewDishRestaurant => 14
    case NewDishCategory => 15
    case NewDishName => 16
    case NewDishDescription => 17
    case NewDishPrice => 18
    case NewDishPhoto => 19
  }

  /** The state a code stands for, if any. */
  function FromCode(c: int): (s: Option<State>)
    ensures s.Some? <==> 0 <= c <= 19
    ensures s.Some? ==> Code(s.value) == c
  {
    if c == 0 then Some(Lobby)
    else if c == 1 then Some(RestaurantList)
    else if c == 2 then Some(DishList)
    else if c == 3 then Some(CartView)
    else if c == 4 then Some(OrderCheckout)
    else if c == 5 then Some(UserOrderList)
    else if c == 6 then Some(ManageUser)
    else if c == 7 then Some(ManageOrder)
    else if c == 8 then Some(ManageRestaurant)
    else if c == 9 then Some(ManageSchedule)
    else if c == 10 then Some(NewRestaurantName)
    else if c == 11 then Some(NewRestaurantCurrency)
    else if c == 12 then Some(NewRestaurantSchedule)
    else if c == 13 then Some(NewCategoryName)
    else if c == 14 then Some(NewDishRestaurant)
    else if c == 15 then Some(NewDishCategory)
    else if c == 16 then Some(NewDishName)
    else if c == 17 then Some(NewDishDescription)
    else if c == 18 then Some(NewDishPrice)
    else if c == 19 then Some(NewDishPhoto)
    else None
  }

  /** Codes are pairwise distinct, none of them is END, and decoding a code
      gives back its state. */
  lemma CodesDistinct(s: State, t: State)
    ensures Code(s) == Code(t) ==> s == t
    ensures Code(s) != EndCode
    ensures FromCode(Code(s)) == Some(s)
  {
  }
}
