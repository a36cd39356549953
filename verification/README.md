# Telegram food delivery bot, modelled in Dafny

This project models the core of the food delivery bot:
- **The customer conversation.** A customer picks a restaurant, a dish category and dishes, fills a cart, and edits it. They place an order by sharing their location, and they browse their past orders.
- **The managers' side.** Managers confirm or cancel incoming orders, hand out permissions, look up a restaurant, show or hide restaurants and dishes, and change a restaurant's weekly schedule. They also create restaurants, dish categories and dishes through step-by-step wizards.

The model is pure functions over immutable datatypes:
- **Handler results.** Every handler becomes a function from the session (`user_data`), the database and the update to an `Outcome` record:
  - the value the handler returns (stay, go to a state, end the conversation, or a value that is no state);
  - the new session and database;
  - the messages and keyboards the user sees;
  - whether the handler raised.
  Manager handlers return `MOutcome`, which also carries the manager's workspace (`user_data['manage']`).
- **The database** is a set of abstract maps: users, restaurants with their schedules, dishes, categories and orders.
- **The customer conversation** is a transition system (`Dialog`):
  - `Route` picks the handler an update reaches in the current state, following the handler table and fallbacks of `modules/bot/config.py`;
  - `Advance` moves the conversation;
  - `Step` combines both with the global handlers of group 0 (the stale-keyboard alert, the order-request buttons and /help).
  - The dialog runs each handler as the source has it. In particular, showDish on a text that is no category returns a value that is no state, and the conversation is then astray (`Conv.Astray`). Only the entry point and the fallbacks still apply.
- **Button presses.** The bot stores callback payloads on its side, so the world records every payload a keyboard ever showed. A press either carries one of those payloads or is stale.
- **Invariants.** Over any sequence of updates the dialog keeps these (`Dialog.Inv`):
  - the database stays well formed;
  - every cart line's quantity stays in 1..60;
  - a non-empty cart knows its restaurant and currency;
  - every state finds the session keys its handlers read;
  - every button ever issued carries in-range values.

Modules follow the source files:

| module | file |
|---|---|
| Utility | utils/utility.py |
| Constants | utils/constants.py |
| Config | the states of modules/bot/config.py |
| Catalog | the database of modules/database/config.py |
| Availability | the opening-hours decision of restaurant.py |
| Session | `user_data`, callback payloads, effects |
| Lobby, RestaurantScreen, DishScreen, Picker, CartScreen, Ordering, Default, Notification, UserOrders, Manage | the handler files of modules/bot/src |
| ScheduleText | the schedule message format shared by two manager handlers |
| Strings | the Python string built-ins the handlers use |
| Dialog | the conversation of modules/bot/config.py |

## Model

| member | source | states |
|---|---|---|
| Utility.ListSplit | utils/utility.py:6-17 | no rows exactly when the list is empty |
| Utility.ListSplitConcat | utils/utility.py:6-17 | joining the rows gives back the list in its order |
| Utility.ListSplitRows | utils/utility.py:10-16 | ceil(len/cols) rows, each non-empty and at most `cols` long, all but the last exactly `cols` long |
| Utility.ListSplitPosition | utils/utility.py:11-16 | element i lands in row i / cols, column i % cols |
| Constants.ContainsSelf | modules/bot/config.py:54-58 | a label message always matches the regex filter made from that label |
| Constants.IsPast | utils/constants.py:54-59 | an order is past exactly when its status is one of the last two statuses (Completed, Cancelled) |
| Config.Code | modules/bot/config.py:24-27 | customer states have codes 0..5, manager states 6..19 |
| Config.FromCode | modules/bot/config.py:24-27 | exactly the codes 0..19 stand for a state, and decoding inverts `Code` |
| Config.CodesDistinct | modules/bot/config.py:23-27 | the twenty state codes are pairwise distinct, none is END, and each decodes to its state |
| Availability.DayOfWeek | modules/bot/src/restaurant.py:59 | `weekday() + 1`: Monday is 1 and Sunday is 7 |
| Availability.WorksAt | modules/bot/src/restaurant.py:50-74 | an empty schedule, or a day missing from it, means closed |
| Availability.LessIsEarlier | modules/bot/src/restaurant.py:69-73 | Python's field-by-field comparison of times agrees with the order of instants within the day |
| Availability.WorksAtWithinHours | modules/bot/src/restaurant.py:62-74 | open exactly when the day is scheduled and start <= now <= end, both bounds inclusive, with a closing time of 00:00 read as 23:59:59 |
| Availability.MidnightReadsAsLastSecond | modules/bot/src/restaurant.py:66-67 | a day closing at 00:00 is open at 23:59:59 and closed within the last second after it |
| Availability.OpeningHoursExamples | modules/bot/src/restaurant.py:59-74 | a Monday 9-18 restaurant is open at Monday noon and closed at Tuesday noon; a Tuesday 9-00 restaurant is open at 23:30 |
| Availability.WeekdayName | modules/bot/src/restaurant.py:76-87 | `weekday_name[day-1]` has a name exactly for days -6..7, negative indices counting from the end |
| Availability.ClosedNotice | modules/bot/src/restaurant.py:75-92 | the closed notice lists every scheduled day with its hours, and fails when a stored day has no weekday name |
| Catalog.ScheduleOf | modules/bot/src/restaurant.py:39-48 | the schedule query finds rows only for an enabled restaurant of that name |
| Catalog.DisabledNeverWorks | modules/bot/src/restaurant.py:42-51 | a disabled or unknown restaurant never works |
| RestaurantScreen.IsRestaurantWorking | modules/bot/src/restaurant.py:34-93 | the verdict is the schedule decision; the notice is sent only when closed, asked to alert, and there is a schedule; it raises only when a stored day has no name |
| RestaurantScreen.CategoriesOf | modules/bot/src/restaurant.py:100-115 | a category is offered exactly when the restaurant has an enabled dish in it |
| RestaurantScreen.ShowDishCategories | modules/bot/src/restaurant.py:95-145 | unless the notice raises: remembers the restaurant and its categories, creates an empty cart only when there is none and keeps an existing one, shows the categories after any closed notice, goes to DISH |
| Lobby.EnabledNames | modules/bot/src/lobby.py:28 | exactly the enabled restaurants are kept |
| Lobby.ShowRestaurants | modules/bot/src/lobby.py:24-42 | goes to RESTAURANT with a keyboard of exactly the enabled restaurants, at most two per row, followed by the navigation rows |
| Lobby.ShowAboutUs | modules/bot/src/lobby.py:44-57 | replies with the about text and keeps the state and session |
| Picker.SixInTwoRows | modules/bot/src/dish.py:30 | six values split into two rows of three |
| Picker.QuantityKeyboardLayout | modules/bot/src/dish.py:19-71 | two rows of three values max-5..max, then a row with `<<` exactly when max > 6 and `>>` exactly when max < 60, then the Cancel row |
| Picker.QuantityKeyboardValues | modules/bot/src/dish.py:21-33 | a quantity is offered exactly when it lies in max-5..max |
| Picker.MovePage | modules/bot/src/dish.py:239 | a page move subtracts 6 going back and adds 6 going forward |
| Picker.MoveKeepsPageValid | modules/bot/src/dish.py:36-58 | a move the page offers stays on a page in {6, 12, ..., 60} |
| Picker.ValidPageOffersQuantities | modules/bot/src/dish.py:21-33 | every quantity a reachable page offers lies in 1..60 |
| Picker.OpenText | modules/bot/src/dish.py:188-195 | opening the picker appends "\n\nSelect quantity:" to the message |
| Picker.StripText | modules/bot/src/dish.py:217 | closing it cuts the last len(select_quantity) + 1 characters |
| Picker.OpenThenStrip | modules/bot/src/dish.py:188-217 | opening and then closing leaves the original text followed by "\n\n" |
| DishScreen.ShowDishAsWritten | modules/bot/src/dish.py:105-146 | showDish as written: it never touches the session or the database; it returns a value that is no state, sending nothing and not raising, exactly when the text is not one of the restaurant's categories; it raises exactly when the session lacks the categories, or the restaurant for a known category |
| DishScreen.ShowDish | modules/bot/src/dish.py:105-146 | the corrected showDish of "## Findings", which the dialog does not run: unknown text gets "not recognized"; a known category lists exactly its enabled dishes, with an "Add" button exactly when the restaurant works; it raises when the session lacks the keys |
| DishScreen.ShowDishUnknownTextIsStray | modules/bot/src/dish.py:108-109 | as written, unknown text returns a value that is no state and sends nothing; corrected, it stays and replies "not recognized" |
| DishScreen.ShowDishAgreesOnCategories | modules/bot/src/dish.py:105-146 | apart from unknown text the two versions agree |
| DishScreen.ShowQuantityButton | modules/bot/src/dish.py:148-197 | a cart with lines from another restaurant gets the switch choice and the picker is not opened; otherwise the message gets the first page; the cart is never changed, and a missing cart raises |
| DishScreen.BlockedPressOffersNoQuantity | modules/bot/src/dish.py:152-172 | when the guard trips, only "leave" and "empty" are offered |
| DishScreen.CancelDishButton | modules/bot/src/dish.py:199-223 | removes exactly that dish's line and keeps every other line, the restaurant and the currency |
| DishScreen.ChangeQuantityPage | modules/bot/src/dish.py:225-248 | redraws the picker one page back or forward, changing nothing else |
| DishScreen.SelectQuantity | modules/bot/src/dish.py:250-288 | overwrites the cart's restaurant and currency with the dish's, writes the dish snapshot with the chosen quantity, and keeps the other lines |
| DishScreen.CancelUndoesSelect | modules/bot/src/dish.py:199-223 | selecting a new dish and then cancelling it restores the cart's lines |
| DishScreen.OpenPickerBypassesGuard | modules/bot/src/dish.py:250-269 | the guard lives only in the "Add" handler: a picker opened before the cart changed still writes, and relabels the cart's lines with the new restaurant |
| DishScreen.DishEmptyCart | modules/bot/src/dish.py:290-304 | the cart becomes empty with no restaurant or currency, and the state stays |
| DishScreen.LeaveCart | modules/bot/src/dish.py:306-316 | changes nothing but the message |
| CartScreen.ChangeButtons | modules/bot/src/cart.py:41-60 | one "change" button per cart line, carrying its name and quantity |
| CartScreen.ShowCart | modules/bot/src/cart.py:16-64 | a missing or empty cart gets "cart is empty" and the state stays; otherwise it shows the cart with its change buttons and goes to CART, raising when the cart lacks restaurant or currency |
| CartScreen.StepperButtons | modules/bot/src/cart.py:66-102 | minus carries q-1 but never below 0, plus carries q+1 but never above 60, OK carries q |
| CartScreen.StepperStaysInRange | modules/bot/src/cart.py:77-96 | from a quantity in 0..60 every button stays in 0..60, within one step, on the same dish |
| CartScreen.ChangeDish | modules/bot/src/cart.py:66-102 | shows the stepper for the pressed line, changing nothing else |
| CartScreen.ApplyChange | modules/bot/src/cart.py:110-114 | only a line in the cart can change; 0 removes it; otherwise only its quantity changes; other lines are untouched |
| CartScreen.ConfirmChange | modules/bot/src/cart.py:104-122 | a line gone from the cart raises; otherwise the change is applied, and "cart changed" comes before the cart is shown again |
| CartScreen.CartEmptyCart | modules/bot/src/cart.py:124-134 | empties the cart and returns to LOBBY |
| Ordering.StartOrdering | modules/bot/src/order.py:17-52 | a missing or empty cart gets "cart is empty" and the state stays; otherwise the checkout summary, then ORDER |
| Ordering.OrderItems | modules/bot/src/order.py:87-93 | one CartDish row per cart dish the database has, with its cart quantity |
| Ordering.CommitOrder | modules/bot/src/order.py:87-108 | commits one new order of the sender, awaiting response, with the joined location and one row per cart dish; no other order changes; the request goes out before the confirmation; then the session is cleared and the state is LOBBY |
| Ordering.MakeOrder | modules/bot/src/order.py:54-108 | guards in order, each before any commit: a missing cart or restaurant raises, a closed restaurant gives /start's result, a disabled dish gives the cart view with the session kept; an order is committed only when all pass |
| Ordering.LocationRoundTrip | modules/bot/src/order.py:60 | splitting the stored location on "," gives back latitude and longitude |
| Ordering.CheckoutNeverRaises | modules/bot/src/order.py:54-108 | a checkout that passes every guard with a known dish and comma-free coordinates completes |
| Default.Registered | modules/bot/src/default.py:22-43 | an unknown user is created without rights; a known one gets names refreshed and keeps their rights |
| Default.StartHandler | modules/bot/src/default.py:14-52 | a bot account is ignored; anyone else is registered, greeted when new, and goes to LOBBY with the session untouched |
| Default.StartIdempotent | modules/bot/src/default.py:14-52 | /start twice stores the same as /start once |
| Default.CancelHandler | modules/bot/src/default.py:70-79 | clears the session and ends the conversation |
| Default.EndConversation | modules/bot/src/default.py:81-84 | clears the session and ends the conversation silently |
| Default.HelpMessage | modules/bot/src/default.py:86-110 | a bot gets nothing; others get the user help, and the manager help exactly when they are a manager |
| Notification.RequestChat | modules/bot/src/notification.py:79-94 | the request goes to the notification chat exactly when the bot is found there; otherwise to the developer |
| Notification.RequestLines | modules/bot/src/notification.py:26-38 | one summary row per order line with its quantity |
| Notification.SendOrderRequest | modules/bot/src/notification.py:13-111 | an unknown order or an order without lines raises before sending anything; otherwise it sends any diagnostic, then the request, then the location pin, and a location without a comma raises only at the pin, after the request went out |
| Notification.Decision | modules/bot/src/notification.py:119-126 | confirm means "In Progress", cancel means "Cancelled", nothing else is a decision |
| Notification.RequestButton | modules/bot/src/notification.py:113-165 | a non-manager gets an alert and nothing changes; a manager's press on a known order sets the status and the manager, whatever the previous status; an unknown order or another value raises |
| Notification.RequestButtonIdempotent | modules/bot/src/notification.py:141-154 | pressing the same decision twice stores the same as once |
| Notification.RequestButtonTouchesOneOrder | modules/bot/src/notification.py:141-154 | no other order, user, restaurant or dish changes, nor the order's owner, lines or location |
| Notification.HandshakeButtons | modules/bot/src/notification.py:52-77 | the request carries exactly the confirm and cancel buttons of its order |
| Notification.RequestIssuesHandshakeUnpinned | modules/bot/src/notification.py:85-104 | a request sent without its pin already shows the two handshake buttons |
| Notification.RequestIssuesHandshakePinned | modules/bot/src/notification.py:85-109 | a request with its pin shows exactly the two handshake buttons |
| Notification.RequestIssuesHandshake | modules/bot/src/notification.py:52-109 | an existing order with lines has exactly its two handshake buttons issued, even when the pin then raises; an unknown or empty order issues nothing |
| UserOrders.ListedFrom | modules/bot/src/user_orders.py:49-69 | the query lists exactly the user's orders that have lines, newest first |
| UserOrders.UserOrderIdsComplete | modules/bot/src/user_orders.py:49-69 | an order is listed exactly when it is the user's and has lines, in descending order |
| UserOrders.Partition | modules/bot/src/user_orders.py:88-91 | an order goes to the past list exactly when its status is past |
| UserOrders.PartitionDescending | modules/bot/src/user_orders.py:79-92 | each list keeps the query's newest-first order |
| UserOrders.PartitionSplits | modules/bot/src/user_orders.py:79-92 | the split is complete and disjoint, and both halves stay newest first |
| UserOrders.Labels | modules/bot/src/user_orders.py:79-92 | each button is its order id zero-padded to two digits |
| UserOrders.ShowOrders | modules/bot/src/user_orders.py:41-127 | no orders: "no orders" and the state stays; otherwise past orders (as a document when more than ten), current orders, and the numbers three per row under "back to menu", going to USER_ORDERS |
| UserOrders.ShowSingleOrder | modules/bot/src/user_orders.py:129-183 | shows an order exactly when it is the sender's and has lines; "not found" exactly when it is missing or someone else's; it raises on an order without lines |
| UserOrders.ButtonsOpenTheirOrders | modules/bot/src/user_orders.py:118-127 | every number button shown opens that very order |
| Strings.Split | modules/bot/src/notification.py:25 | `str.split`: at least one part, none containing the separator |
| Strings.SplitJoinAll | modules/bot/src/manage_db.py:687-688 | splitting what was joined from separator-free parts gives the parts back |
| Strings.Remove | modules/bot/src/manage_db.py:688 | `replace(' ', '')` removes every space and keeps every other character |
| Strings.Lower | modules/bot/src/manage_db.py:1158 | lower-casing maps each character and keeps the length |
| Strings.ParseInt | modules/bot/src/manage_db.py:327-337 | `int()` accepts exactly an optionally signed run of digits |
| Strings.IntTextRoundTrip | modules/bot/src/manage_db.py:327-337 | `int(str(n))` gives back n |
| Strings.PaddedRoundTrip | modules/bot/src/user_orders.py:139 | reading a two-digit padded id gives back the id |
| Strings.ParsePadded | modules/bot/src/user_orders.py:139 | `int(f"{id:02}")` is the id |
| ScheduleText.MakeTime | modules/bot/src/manage_db.py:691-692 | `dt.time(*parts)` takes one to four in-range fields, in the order hour, minute, second, microsecond |
| ScheduleText.Ints | modules/bot/src/manage_db.py:691-692 | all fields become integers, or the line fails |
| ScheduleText.ParseLine | modules/bot/src/manage_db.py:687-693 | a line parses only with exactly three fields after removing spaces, and yields valid times |
| ScheduleText.RowsSpec | modules/bot/src/manage_db.py:687-693 | a message parses exactly when every line does, one row per line |
| ScheduleText.CollectSpec | modules/bot/src/manage_db.py:690 | the schedule has exactly the days of the rows, and a later line for a day overrides an earlier one |
| ScheduleText.ParseScheduleSucceeds | modules/bot/src/manage_db.py:683-702 | the message parses exactly when each of its lines does |
| ScheduleText.ParseScheduleSpec | modules/bot/src/manage_db.py:683-693 | the parsed schedule holds exactly the days given, each with its last line's hours |
| ScheduleText.ParseScheduleChecked | modules/bot/src/manage_db.py:683-702 | the parse with the day range checked: it keeps exactly the parses whose days lie in 1..7 |
| ScheduleText.CheckedScheduleHasNames | modules/bot/src/restaurant.py:85-90 | a checked schedule can always be listed in the closed notice |
| ScheduleText.LineRoundTrip | modules/bot/src/manage_db.py:683-693 | a line written in the prompt's format parses back to its day and hours |
| ScheduleText.LinesRoundTrip | modules/bot/src/manage_db.py:687-693 | every formatted line parses back |
| ScheduleText.MessageRoundTrip | modules/bot/src/manage_db.py:683-693 | a whole message in the prompt's format parses back to its rows |
| ScheduleText.FilterChecksFirstDay | modules/bot/config.py:241 | the message filter sees only the first day number, a digit 1..7 |
| ScheduleText.MatchIgnoresRest | modules/bot/config.py:241 | whatever follows a matching start also passes the filter |
| ScheduleText.FirstLinePasses | modules/bot/config.py:241 | the prompt's example line passes the filter |
| ScheduleText.ExampleFirstLine | modules/bot/src/manage_db.py:658 | the formatted line for Monday 9 to 18 is the prompt's example line |
| ScheduleText.DayEightPassesFilter | modules/bot/config.py:241 | a message with a second line for day 8 passes the filter |
| ScheduleText.DayEightParses | modules/bot/src/manage_db.py:687-693 | and is parsed, with day 8 kept |
| ScheduleText.LaterLineEscapesDayCheck | modules/bot/config.py:241 | as written, day 8 gets through and breaks the closed notice; the checked parse refuses it |
| Manage.SetStatus | modules/bot/src/manage_db.py:215-261 | a non-manager ends the conversation; otherwise writes the chosen status and the presser as manager, whatever they were |
| Manage.SetStatusIdempotent | modules/bot/src/manage_db.py:234-236 | choosing the same status twice stores the same as once |
| Manage.UserKeyboard | modules/bot/src/manage_db.py:263-295 | permission buttons appear exactly for an admin viewing someone else, and only for the viewed user |
| Manage.UserQueryOf | modules/bot/src/manage_db.py:325-337 | "@name" asks for a username, an integer asks for an id, anything else or nothing is an argument error |
| Manage.UserQueryRoundTrip | modules/bot/src/manage_db.py:325-337 | "@" + name and the text of an id are read back as themselves |
| Manage.FindUser | modules/bot/src/manage_db.py:307-352 | a non-manager ends the conversation; a bad argument gets an error; otherwise it goes to the user screen exactly when some user matches, showing a matching user with the permission keyboard |
| Manage.Toggle | modules/bot/src/manage_db.py:434-449 | a toggle never leaves an admin without manager rights and never touches the names |
| Manage.ToggleEffects | modules/bot/src/manage_db.py:434-449 | admin on grants both rights, admin off clears admin only, manager off clears both, manager on grants manager only |
| Manage.ToggleTwice | modules/bot/src/manage_db.py:434-449 | pressing twice restores the user exactly except admin on/off for a non-manager and manager off/on for an admin |
| Manage.ChangePermission | modules/bot/src/manage_db.py:409-456 | a non-admin ends the conversation with nothing changed; an admin toggles the target, keeps "admin implies manager" for every user, and touches no other user |
| Manage.ShowRestaurant | modules/bot/src/manage_db.py:498-587 | a found restaurant's card shows its visibility and its schedule days and issues exactly the status and schedule buttons, followed by the keyboard of all its dish categories, hidden dishes included; the workspace then names the restaurant and the state moves to M_RESTAURANT; a stored day without a weekday name raises with nothing sent |
| Manage.FindRestaurant | modules/bot/src/manage_db.py:458-587 | a non-manager ends the conversation; a missing name gets an error with nothing cleared; once a name is given the session is cleared, and a name that no restaurant has ignoring case leaves the workspace blank; otherwise the restaurant shown is one whose name equals it ignoring case |
| Manage.FoundRestaurantSchedulable | modules/bot/src/manage_db.py:568-572 | after a successful lookup the card carries the schedule button, and pressing it reaches the schedule prompt for that restaurant |
| Manage.MissedLookupForgetsRestaurant | modules/bot/src/manage_db.py:489-497 | a lookup that finds nothing clears the session and the workspace, so a schedule button shown earlier then raises |
| Manage.DayEightBreaksLookup | modules/bot/src/manage_db.py:513-520 | a restaurant stored with day 8 can no longer be looked up: listing its schedule raises, after the session is cleared |
| Manage.ChangeRestaurantStatus | modules/bot/src/manage_db.py:589-647 | a non-manager ends the conversation; otherwise flips the restaurant's visibility and alerts its new state |
| Manage.RestaurantFlipTwice | modules/bot/src/manage_db.py:614 | flipping twice restores the database |
| Manage.ChangeDishState | modules/bot/src/manage_db.py:805-850 | a non-manager ends the conversation; otherwise flips the dish and redraws the button from the state the pressed button showed |
| Manage.DishButtonShowsState | modules/bot/src/manage_db.py:831-847 | the new button is right exactly when the pressed one was |
| Manage.DishFlipTwice | modules/bot/src/manage_db.py:831 | flipping twice restores the database |
| Manage.ChangeRestaurantSchedule | modules/bot/src/manage_db.py:649-670 | prompts for the schedule with a Cancel button, going to the schedule state, and raises without a managed restaurant |
| Manage.CancelScheduleChange | modules/bot/src/manage_db.py:672-675 | returns to the restaurant screen with the session, workspace and database as they were |
| Manage.CancelledScheduleChangesNothing | modules/bot/src/manage_db.py:649-675 | asking for a schedule and cancelling returns to the restaurant with nothing changed |
| Manage.MergeSchedule | modules/bot/src/manage_db.py:730-752 | after the merge the stored days are exactly the new days with the new hours: shared days updated, new days inserted, the rest deleted |
| Manage.SetRestaurantSchedule | modules/bot/src/manage_db.py:677-758 | a message that does not parse gets the error reply and changes nothing, and any integer day is accepted; a non-manager ends the conversation; otherwise the restaurant's schedule becomes exactly the parsed one and the state returns to the restaurant |
| Manage.CreateNewRestaurant | modules/bot/src/manage_db.py:852-884 | a manager starts the wizard with a cleared session; others end the conversation |
| Manage.NameNewRestaurant | modules/bot/src/manage_db.py:886-920 | the name moves on exactly when it fits 32 characters and no restaurant has it ignoring case |
| Manage.CurrencyNewRestaurant | modules/bot/src/manage_db.py:922-945 | a currency that fits is stored and the wizard moves on |
| Manage.ScheduleNewRestaurant | modules/bot/src/manage_db.py:947-1020 | a message that does not parse gets the error reply; a parsed schedule from a manager, whatever its day numbers, creates the drafted restaurant, hidden, with that schedule, and ends the wizard |
| Manage.RestaurantWizard | modules/bot/src/manage_db.py:852-1020 | a free name, a currency and a schedule that parses go N_RESTAURANT, C_RESTAURANT, S_RESTAURANT, END and create the hidden restaurant |
| Manage.WizardStoresDayEight | modules/bot/src/manage_db.py:955-961 | as written, a schedule message with a line for day 8 creates a restaurant that stores day 8, whose closed notice then fails |
| Manage.CreateNewDishCategory | modules/bot/src/manage_db.py:1022-1052 | a manager starts the category wizard with a cleared session |
| Manage.NameCategoryWith | modules/bot/src/manage_db.py:1054-1108 | a name that is too long or taken keeps the step; a new name is appended; an exact duplicate the test missed raises |
| Manage.CategoryCheckMissesCapitals | modules/bot/src/manage_db.py:1078-1094 | as written, retyping "Burgers" raises and "BURGERS" creates a case duplicate |
| Manage.CategoryNamesStayDistinct | modules/bot/src/manage_db.py:1054-1108 | corrected, a new category never raises and names stay distinct ignoring case |
| Manage.FirstMatch | modules/bot/src/manage_db.py:1155-1160 | the lookup ignoring case finds the first stored name that matches, or none when none does |
| Manage.CreateNewDish | modules/bot/src/manage_db.py:1110-1148 | a manager starts the dish wizard with all restaurants offered |
| Manage.RestaurantNewDish | modules/bot/src/manage_db.py:1150-1193 | moves on exactly when a restaurant matches ignoring case, keeping its stored name and currency |
| Manage.CategoryNewDish | modules/bot/src/manage_db.py:1195-1228 | a category matching ignoring case is stored in its stored spelling |
| Manage.NameNewDish | modules/bot/src/manage_db.py:1230-1252 | a name that fits is stored, and the step raises when the draft has no category |
| Manage.DescriptionNewDish | modules/bot/src/manage_db.py:1254-1276 | a description of at most 128 characters is stored |
| Manage.PriceNewDish | modules/bot/src/manage_db.py:1278-1305 | a text of the price pattern is stored and the photo step follows |
| Manage.PhotoNewDish | modules/bot/src/manage_db.py:1307-1350 | a complete draft creates a visible dish under the next id and ends the wizard; otherwise it raises with nothing stored |
| Manage.DishDraftComplete | modules/bot/src/manage_db.py:1110-1305 | valid answers take the wizard through every step to the photo with a complete draft |
| Manage.DishWizard | modules/bot/src/manage_db.py:1110-1350 | the whole wizard creates the dish with the given fields, visible, in the matched restaurant and category |
| Session.Flat | modules/bot/src/dish.py:59-69 | the payloads of a keyboard are those of its rows |
| Session.Issued | modules/bot/config.py:34-35 | the payloads a press can carry are exactly those the sent keyboards showed |
| Session.IssuedConcat | modules/bot/config.py:34-35 | issuing is compositional over runs of effects |
| Dialog.IsCommand | modules/bot/config.py:41-42 | no keyboard label is a command, so a pressed label never reaches the command fallbacks |
| Dialog.IsCommandFor | modules/bot/config.py:40 | a message for CommandHandler(name) is a command, and only a name without blanks can match |
| Dialog.CommandHeard | modules/bot/config.py:50-51 | a blank-free command name is heard alone and followed by arguments |
| Dialog.OneOf | modules/bot/config.py:68-72 | a text `filters.Text` accepts is one of its labels, never empty and never a command |
| Dialog.StateMessage | modules/bot/config.py:54-183 | only customer states hear messages; a restaurant name, a category and an order number are taken only in RESTAURANT, DISH and USER_ORDERS, and every text those filters admit is taken there |
| Dialog.LabelHeard | modules/bot/config.py:54-183 | every label a state's reply keyboard shows reaches one of that state's handlers |
| Dialog.KeyboardButtonsHeard | modules/bot/config.py:54-183 | no button of the lobby, restaurant, dish, cart or "back to menu" keyboards falls through to the fallbacks in the state that shows it |
| Dialog.StatePress | modules/bot/config.py:93-163 | DISH hears exactly the card, picker and cart-switch buttons, CART exactly the stepper buttons, and no state hears the handshake buttons |
| Dialog.Run | modules/bot/config.py:49-187 | only showDish on an unknown text returns a value that is no state, and an update that reaches no handler changes nothing |
| Dialog.RunMenu | modules/bot/config.py:54-183 | of the menu handlers only /start and "back to menu" write the database |
| Dialog.RunDishes | modules/bot/config.py:77-136 | the restaurant and dish screens never write the database, and stray exactly on a text that is no category |
| Dialog.RunCart | modules/bot/config.py:137-172 | of the cart and checkout handlers only the checkout writes the database |
| Dialog.Step | modules/bot/config.py:315-342 | issued payloads are never forgotten; outside the conversation only /start moves it or touches the session; the dialog strays only on a message in DISH |
| Dialog.MessageFallback | modules/bot/config.py:39-47 | unmatched text gets "not recognized"; /help is left to the help handler |
| Dialog.Route | modules/bot/config.py:49-187 | outside the conversation only /start is heard; /start re-enters from anywhere |
| Dialog.NavigationButton | modules/bot/src/default.py:54-68 | "back to menu" is /start, "cart" shows the cart, "place order" starts ordering, any other label raises |
| Dialog.Global | modules/bot/config.py:315-342 | the handlers outside the conversation change no session and issue no buttons; a handshake press goes to requestButton whatever the state |
| Dialog.Advance | modules/bot/config.py:49-187 | None or an exception keeps the state, a state moves there, END leaves the conversation |
| Dialog.Delivered | modules/bot/config.py:315-320 | a press delivers only a payload the bot issued; anything else is stale |
| Dialog.RouteArgs | modules/bot/config.py:93-163 | handlers reached by well-formed payloads get in-range arguments |
| Dialog.ShowCartKept | modules/bot/src/cart.py:16-64 | the cart view keeps the database and cart well formed and issues in-range buttons |
| Dialog.StartKept | modules/bot/src/default.py:14-52 | /start keeps every invariant |
| Dialog.StartOrderingKept | modules/bot/src/order.py:17-52 | the checkout summary keeps every invariant |
| Dialog.NavigateKept | modules/bot/src/default.py:54-68 | navigation keeps every invariant |
| Dialog.OpenQuantityKept | modules/bot/src/dish.py:148-197 | opening the picker issues only in-range quantities |
| Dialog.TurnPageKept | modules/bot/src/dish.py:225-248 | turning a page the picker offered issues only in-range quantities and pages |
| Dialog.PickQuantityKept | modules/bot/src/dish.py:250-288 | picking a quantity in 1..60 keeps every cart line in 1..60 |
| Dialog.DropDishKept | modules/bot/src/dish.py:199-223 | dropping a line keeps every invariant |
| Dialog.EditLineKept | modules/bot/src/cart.py:66-102 | the stepper issues only in-range quantities |
| Dialog.ConfirmLineKept | modules/bot/src/cart.py:104-122 | confirming a quantity in 0..60 keeps every line in 1..60 |
| Dialog.ClosedCheckoutIsStart | modules/bot/src/order.py:78-80 | a checkout at a closed restaurant behaves as /start |
| Dialog.ClosedCheckoutKept | modules/bot/src/order.py:78-80 | and keeps every invariant |
| Dialog.DisabledCheckoutIsCart | modules/bot/src/order.py:82-85 | a checkout with a disabled dish behaves as the cart view |
| Dialog.DisabledCheckoutKept | modules/bot/src/order.py:82-85 | and keeps every invariant |
| Dialog.CommitCheckoutKept | modules/bot/src/order.py:87-108 | a committed order keeps the database well formed and issues only the handshake |
| Dialog.CheckoutKept | modules/bot/src/order.py:54-108 | every checkout keeps every invariant |
| Dialog.OrderHistoryKept | modules/bot/src/user_orders.py:41-127 | the order history keeps every invariant |
| Dialog.PickRestaurantKept | modules/bot/src/restaurant.py:95-145 | picking a restaurant keeps every invariant |
| Dialog.PickCategoryKept | modules/bot/src/dish.py:105-146 | showDish as written keeps every invariant, also when it strays |
| Dialog.MenuRunKept | modules/bot/config.py:54-183 | every handler of the lobby, restaurant, order and history screens keeps every invariant |
| Dialog.DishRunKept | modules/bot/config.py:93-136 | every handler of the dish screen keeps every invariant |
| Dialog.CartRunKept | modules/bot/config.py:137-163 | every handler of the cart screen keeps every invariant |
| Dialog.RunKeeps | modules/bot/config.py:49-187 | every handler of the conversation keeps every invariant |
| Dialog.ConfirmLineLeads | modules/bot/src/cart.py:104-122 | confirming a line enters its next state with the keys it reads |
| Dialog.CheckoutLeads | modules/bot/src/order.py:54-108 | a checkout enters its next state with the keys it reads |
| Dialog.MenuRunLeads | modules/bot/config.py:54-183 | menu handlers enter states with the session keys those read, and keep them when staying |
| Dialog.DishRunLeads | modules/bot/config.py:93-136 | so do the dish screen's |
| Dialog.CartRunLeads | modules/bot/config.py:137-163 | and the cart screen's |
| Dialog.RunLeads | modules/bot/config.py:49-187 | every handler enters its next state with the session keys it reads, and keeps them when staying |
| Dialog.LineRemoversStayPut | modules/bot/config.py:93-163 | the handlers that can remove cart lines are reached only on the dish and cart screens |
| Dialog.RunKeepsStateOk | modules/bot/config.py:49-187 | after any update each state finds the session keys its handlers read |
| Dialog.FreshInv | modules/bot/config.py:49-52 | a fresh bot over a well-formed database satisfies the invariant |
| Dialog.StepKeepsInv | modules/bot/config.py:49-187 | every update keeps the invariant |
| Dialog.Replay | modules/bot/config.py:49-187 | so does every sequence of updates |
| Dialog.GlobalPassesMessage | modules/bot/config.py:315-342 | a message other than /help passes the global handlers untouched |
| Dialog.StepMessage | modules/bot/config.py:49-187 | a message runs the routed handler and moves as it says |
| Dialog.StartCommand | modules/bot/config.py:50-52 | "/start" is the start command and not /help |
| Dialog.StartRuns | modules/bot/config.py:50-52 | the start command runs startHandler |
| Dialog.StartReenters | modules/bot/config.py:186 | /start from any state goes to LOBBY and keeps the session |
| Dialog.CancelCommand | modules/bot/config.py:40 | "/cancel" is the cancel command only |
| Dialog.CancelIsNoLabel | modules/bot/config.py:40 | no keyboard label is "/cancel" |
| Dialog.CancelIsNoneOf | modules/bot/config.py:40 | no label list accepts "/cancel" |
| Dialog.CancelHoldsNoLabel | modules/bot/config.py:40 | "/cancel" contains no label searched for by the screens |
| Dialog.CancelPassesStates | modules/bot/config.py:54-183 | no state handler takes "/cancel" |
| Dialog.CancelRoute | modules/bot/config.py:40 | "/cancel" reaches cancelHandler in every state |
| Dialog.CancelRuns | modules/bot/config.py:40 | and runs it |
| Dialog.CancelLeaves | modules/bot/config.py:40 | /cancel ends the conversation and forgets the session |
| Dialog.RunsNothing | modules/bot/config.py:39-47 | an update no handler takes changes nothing |
| Dialog.IdleHearsOnlyStart | modules/bot/config.py:50-52 | outside the conversation nothing but /start moves or changes the session |
| Dialog.StalePressChangesNothing | modules/bot/config.py:315-320 | a stale press changes nothing |
| Dialog.DishScreenRoutes | modules/bot/config.py:93-136 | the dish screen reaches only its own handlers and its three navigation labels |
| Dialog.NavigateNeverRaises | modules/bot/src/default.py:54-68 | a label navigation accepts never raises |
| Dialog.DishScreenMenuNeverRaises | modules/bot/config.py:93-136 | the dish screen's menu handlers never raise |
| Dialog.DishHandlersNeverRaise | modules/bot/src/dish.py:148-316 | its button handlers never raise with the session keys present |
| Dialog.DishScreenNeverRaises | modules/bot/config.py:93-136 | no update on the dish screen raises |
| Dialog.CartScreenRoutes | modules/bot/config.py:137-163 | the cart screen reaches only its own handlers and its two navigation labels |
| Dialog.CartScreenMenuNeverRaises | modules/bot/config.py:137-163 | the cart screen's menu handlers never raise |
| Dialog.CartHandlersRaise | modules/bot/src/cart.py:66-134 | a cart button raises exactly when it confirms a line that is gone |
| Dialog.CartScreenRaisesOnlyOnGoneLines | modules/bot/config.py:137-163 | an update on the cart screen raises exactly when it confirms a line that is gone |
| Dialog.UnawaitedShowDishStrandsTheMenu | modules/bot/src/dish.py:108-109 | as written, unknown text on the dish screen strands the conversation, so a category name is no longer recognized; corrected, the screen stays in DISH, where that name picks the category |
| Dialog.UnknownCategoryStrandsTheDialog | modules/bot/src/dish.py:108-109 | over whole updates: an unknown text on the dish screen leaves the dialog astray with session and database unchanged, and a category sent next is only "not recognized" |

## Left out

- Telegram I/O is reduced to effect records: messages, edits, alerts, documents and photos. Keyboards are given by their payloads or labels. `query.answer` without text, logging, `print`, message wording and the ✅/❌ labels are left out.
- Image and table rendering (`create_image`, `tabulate`, temporary files) is left out. A table is represented by the ids it shows.
- The ORM is left out: sessions, flush, commit and rollback. The database is a value. Where a handler raises after a flush, the model keeps what the source commits. The order id drawn by a flushed and rolled-back checkout is modelled, because the sequence does not give it back.
- Query result order is partly left out. Categories and dish cards are sets. The restaurant and category tables keep their row order. "Newest first" is descending order id, since ids grow with time.
- The clock and time zones are inputs (`Clock`): the day of the week and the local time.
  - The gate compares `datetime.time` values down to the microsecond, so a day closing at 00:00 is closed from 23:59:59.000001 on.
- Float prices and totals are left out. A price is an opaque text carried from the dish to the cart and order. Totals and the "Total" row of summaries are not computed.
- Manage.PriceNewDish: `float(text)` is approximated by the PR_DISH filter's pattern `^[0-9]+\.?[0-9]*$`. A text of that pattern always converts and is stored as is. Any other text gets `PriceError`, the handler's own reply when `float()` fails (modules/bot/src/manage_db.py:1284-1288). Texts such as "1e3" that `float()` accepts but the pattern refuses are treated as failures. In the running bot, a text failing the pattern never reaches the handler; it gets the fallback "not recognized" reply (modules/bot/config.py:293-297).
- Coordinates are left out as numbers. The location is the latitude and longitude texts joined by a comma, and the round trip is proved for comma-free texts.
- `int()` is modelled on ASCII digits with an optional sign only. Underscores, surrounding whitespace and non-ASCII digits, which Python also accepts, are left out.
- `lower()` is modelled on ASCII letters only.
- The regular expressions' `\s` is the ASCII whitespace set.
- The bot's command parsing ignores "@botname" suffixes and newline-separated arguments.
- Dialog.IsCommand: a command is any message starting with "/". `filters.COMMAND` also needs Telegram's `bot_command` entity at offset 0, which "/" alone or "/ x" lacks, so the model counts a few texts as commands that the bot counts as plain text.
- The callback-data cache is modelled as "issued or stale". Its size and eviction order are left out, and any press may turn out stale.
- The manager conversation is modelled handler by handler. Its handlers are not composed into the dialog's `World`, because the two conversations share only `user_data` and the database.
- Manager handlers that only display are left out: `findOrder`, `showOrders`, `showStatuses`, `lastUsers` and the manager `showDish`.
  - `showOrders`, `showStatuses` and `lastUsers` only send messages and return the same state or END. They write neither `user_data` nor the database.
  - `findOrder` clears `user_data` after it shows an order (modules/bot/src/manage_db.py:115). That drops the customer's cart and the manager's workspace, as `Manage.FindRestaurant` does once it is given a name.
  - The manager `showDish` reads the workspace `findRestaurant` leaves (modules/bot/src/manage_db.py:763). For a text that is no category, it returns `error.messageHandler(...)` unawaited (modules/bot/src/manage_db.py:764). This strands the manager conversation the way the customer `showDish` strands the customer one (see Findings). Its dish list is not modelled.
- Manage.ChangePermission: the "not yourself" test at manage_db.py:415 compares a user object with an id and never holds, so it is not modelled. The keyboard rule is what keeps an admin off their own buttons (`Manage.UserKeyboard`).
- Manage.FindUser: of several users with the same username, the model shows the one with the smallest id. The source shows whichever row the database returns first.
- UserOrders.ShowOrders and UserOrders.ListedFrom: the history query groups by order id, status and restaurant currency (modules/bot/src/user_orders.py:61-65). An order whose lines come from restaurants with two currencies therefore gives two rows, and its id appears twice in the tables and on the keyboard. The model lists each order once. Such orders can arise (`DishScreen.OpenPickerBypassesGuard`).
- Manage.RestaurantNewDish and Manage.FindRestaurant: require a well-formed database. Their lookups walk the table's row order, which holds every restaurant.
- Manage.FindRestaurant: when several restaurants have the name ignoring case, the contract says only that one of them is shown. The source shows whichever row the database returns first. The card's texts, the ✅/❌ label and the times are left out. The card holds the status, the days and the buttons.
- The error handler that reports exceptions to the developer is left out. An exception is the `raised` flag, which keeps the state and what was stored before it.
- `modules/database/operations.py` (bootstrap), the bot's startup and environment variables are not part of this model.

## Findings

| source | as written | input that shows it | evidently intended | confidence | as-written member | corrected member |
|---|---|---|---|---|---|---|
| modules/bot/config.py:241, 259 and modules/bot/src/manage_db.py:687-693 | the filter checks the day range only on the message's first line, and the parser accepts any integer day | the message "1 - 09.00 - 18.00\n8 - 09.00 - 18.00" is stored with a day 8; the customer's closed notice then raises IndexError on `weekday_name[7]` | every line's day lies in 1..7 | not executed | ScheduleText.LaterLineEscapesDayCheck | ScheduleText.ParseScheduleChecked |
| modules/bot/src/manage_db.py:1078-1083 | the duplicate test compares the lowered stored name with the typed text as is | with "Burgers" stored, typing "Burgers" raises on the unique constraint and "BURGERS" creates a second category | compare both sides lowered, as the restaurant wizard does at line 898 | not executed | Manage.CategoryCheckMissesCapitals | Manage.CategoryNamesStayDistinct |
| modules/bot/src/dish.py:108-109 | for text that is no category, showDish returns `error.messageHandler(...)` without awaiting it | any unknown text on the dish screen: nothing is sent and the returned coroutine is no state, so the category messages stop reaching showDish | await the handler, reply "not recognized" and stay in DISH | not executed | Dialog.UnawaitedShowDishStrandsTheMenu | DishScreen.ShowDish |
