/** Order statuses, the fixed texts and the reply-keyboard labels of the bot
    (utils/constants.py and utils/text.py). Texts are opaque: only their
    identity matters, except the length of the "select quantity" prompt. */
module Constants {

  /** The statuses in the order of ORDER_STATUSES. */
  datatype Status = AwaitingResponse | InProgress | Completed | Cancelled

  const OrderStatuses: seq<Status> := [AwaitingResponse, InProgress, Completed, Cancelled]

  /** Index 0: status of every new order. */
  const DefaultStatus: Status := OrderStatuses[0]
  /** Index 1: status set when a manager confirms an order request. */
  const ConfirmedStatus: Status := OrderStatuses[1]
  /** Index -1: status set when a manager cancels an order request. */
  const CancelledStatus: Status := OrderStatuses[|OrderStatuses| - 1]

  function StatusName(s: Status): string
  {
    match s
    case AwaitingResponse => "Awaiting Response"
    case InProgress => "In Progress"
    case Completed => "Completed"
    case Cancelled => "Cancelled"
  }

  /** An order is "past" when its status is one of the last two statuses. */
  function IsPast(s: Status): (past: bool)
    ensures past <==> s == Completed || s == Cancelled
  {
    s in OrderStatuses[|OrderStatuses| - 2..]
  }

  /** The prompt appended to a dish message while the quantity picker is open. */
  const SelectQuantityText: string := "Select quantity"

  /** Fixed messages the bot sends; their wording is not modelled. */
  datatype TextKey =
    | Welcome | InputValue | MessageNotRecognized | KeyboardUnavailable
    | UncatchedCallback | AboutUsText | CartIsEmpty | CartChanged
    | CartNotChanged | CartAnotherRestaurant | SelectDishToChange
    | OrderCompletion | NoPastOrders | EnterOrder | OrderNotFound
    | CartRestaurantClosed | CartIrrelevantItems | UserNotFound | ComeAgain
    | HelpUser | HelpManager | NotManager | NotAdmin | NameTooLong
    | RestaurantExists | CategoryExists | RestaurantNotFound | CategoryNotFound
    | ScheduleError | ArgumentError | ScheduleChanged | ScheduleCancelled
    | ScheduleHint | RestaurantVisible | RestaurantHidden | AdminRevoked
    | AdminGranted | PermissionsRevoked | ManagerGranted | DescriptionTooLong
    | PriceError | AskName | AskCurrency | AskSchedule | AskRestaurant
    | AskCategory | AskDescription | AskPrice | AskPhoto | RestaurantCreated
    | CategoryCreated | DishCreated | AskDishCategory

  /** Reply-keyboard buttons whose text the conversation recognises. */
  datatype Label =
    | ChooseRestaurant | CartLabel | PlaceOrder | AboutUs | MyOrders
    | BackToMenu | BackToRestaurant | EmptyTheCart
  {
    /** The button text, emoji included. */
    function Text(): string {
      match this
      case ChooseRestaurant => "\U{1F4CB} Choose restaurant"
      case CartLabel => "\U{1F6D2} Cart"
      case PlaceOrder => "\U{1F698} Place an order"
      case AboutUs => "\U{1F4AC} About Us"
      case MyOrders => "\U{1F5C2} My Orders"
      case BackToMenu => "\U{1F4CB} Back to menu"
      case BackToRestaurant => "\U{1F4CB} Back to restaurant selection"
      case EmptyTheCart => "Empty the cart"
    }
  }

  /** Regex search for a pattern without metacharacters: the pattern occurs
      somewhere in the text. */
  predicate Contains(text: string, pattern: string) {
    exists i | 0 <= i <= |text| - |pattern| :: OccursAt(text, pattern, i)
  }

  predicate OccursAt(text: string, pattern: string, i: int) {
    0 <= i <= |text| - |pattern| && text[i..i + |pattern|] == pattern
  }

  /** Every text contains itself, so a label message always matches its own
      regex filter. */
  lemma ContainsSelf(text: string)
    ensures Contains(text, text)
  {
    assert OccursAt(text, text, 0);
  }

  const LobbyKeyboard: seq<seq<string>> :=
    [[ChooseRestaurant.Text()], [CartLabel.Text(), PlaceOrder.Text()],
     [AboutUs.Text()], [MyOrders.Text()]]

  const RestaurantKeyboard: seq<seq<string>> :=
    [[PlaceOrder.Text()], [BackToMenu.Text(), CartLabel.Text()]]

  const DishKeyboard: seq<seq<string>> :=
    [[PlaceOrder.Text()], [BackToRestaurant.Text(), CartLabel.Text()], [BackToMenu.Text()]]

  const CartKeyboard: seq<seq<string>> :=
    [[EmptyTheCart.Text()], [BackToMenu.Text(), PlaceOrder.Text()]]

  const BackToMenuKeyboard: seq<seq<string>> := [[BackToMenu.Text()]]
}
