/** The manager side of the bot (modules/bot/src/manage_db.py): order
    status, user permissions, restaurant and dish visibility, the weekly
    schedule, and the wizards that create restaurants, dish categories and
    dishes. Every handler here checks its caller against the database. */
module Manage {
  import opened Wrappers
  import opened Constants
  import opened Config
  import opened Availability
  import opened Catalog
  import opened Session
  import opened Strings
  import opened ScheduleText

  /** `context.user_data['manage']`: what the manager dialog remembers
      between messages. A wizard step that needs a key another dialog has
      not left there fails with a KeyError. */
  datatype Workspace =
    | Blank                                     // no 'manage' key
    | Managing(restaurant: string)              // the restaurant /restaurant showed
    | RestaurantDraft(newName: string, newCurrency: Option<string>)
    | DishDraft(restaurant: string, currency: string, category: Option<string>, name: Option<string>,
                description: Option<string>, price: Option<Price>)

  /** A manager handler's result. `user_data` is one dictionary per user,
      so the customer's session is part of it: clearing it for a wizard
      clears the customer's cart as well. */
  datatype MOutcome = MOutcome(next: Next, data: UserData, work: Workspace, db: Db, effects: seq<Effect>,
                               raised: bool)

  function MDone(next: Next, data: UserData, work: Workspace, db: Db, effects: seq<Effect>): MOutcome {
    MOutcome(next, data, work, db, effects, false)
  }

  function MRaise(data: UserData, work: Workspace, db: Db, effects: seq<Effect>): MOutcome {
    MOutcome(Stay, data, work, db, effects, true)
  }

  /** String(32) columns: restaurant name and currency, category name, dish name. */
  const NameLength: nat := 32
  /** String(128): dish description. */
  const DescriptionLength: nat := 128

  // ---------------------------------------------------------------------
  // Order status (lines 215-261)
  // ---------------------------------------------------------------------

  /** A manager picks a status for an order: the status and the manager are
      written, whatever they were. */
  function SetStatus(data: UserData, work: Workspace, db: Db, env: Env, order: OrderId, status: Status): (o: MOutcome)
    ensures !db.IsManager(env.user.id) ==> o == MDone(End, data, work, db, [Alert(NotManager)])
    ensures db.IsManager(env.user.id) && order !in db.orders ==> o.raised && o.db == db
    ensures db.IsManager(env.user.id) && order in db.orders ==>
      && !o.raised && o.next == Stay
      && o.db == db.(orders := db.orders[order := db.orders[order].(status := status, manager := Some(env.user.id))])
      && Issued(o.effects) == {StatusMenuPress(order)}
  {
    if !db.IsManager(env.user.id) then MDone(End, data, work, db, [Alert(NotManager)])
    else if order !in db.orders then MRaise(data, work, db, [])
    else
      var updated := db.orders[order].(status := status, manager := Some(env.user.id));
      var buttons := [[StatusMenuPress(order)]];
      assert Flat(buttons) == {StatusMenuPress(order)};
      MDone(Stay, data, work, db.(orders := db.orders[order := updated]), [EditButtons(buttons)])
  }

  /** Pressing the same status twice is pressing it once. */
  lemma SetStatusIdempotent(data: UserData, work: Workspace, db: Db, env: Env, order: OrderId, status: Status)
    ensures var o := SetStatus(data, work, db, env, order, status);
      SetStatus(o.data, o.work, o.db, env, order, status).db == o.db
  {
  }

  // ---------------------------------------------------------------------
  // Users and permissions (lines 263-352, 409-456)
  // ---------------------------------------------------------------------

  /** The permission buttons under a user's details, by payload: shown only
      to an admin looking at somebody else. */
  function UserKeyboard(db: Db, target: UserId, viewer: UserId): (rows: seq<seq<Callback>>)
    ensures Flat(rows) != {} <==> target != viewer && db.IsAdmin(viewer)
    ensures forall cb :: cb in Flat(rows) ==> cb.RolePress? && cb.user == target && cb.user != viewer
    ensures target != viewer && db.IsAdmin(viewer) ==>
      RolePress(AdminRole, target) in Flat(rows) && RolePress(ManagerRole, target) in Flat(rows)
  {
    if target != viewer && db.IsAdmin(viewer) then
      var rows := [[RolePress(AdminRole, target), RolePress(ManagerRole, target)]];
      assert rows[0][0] in Flat(rows);
      rows
    else []
  }

  /** What `/user <arg>` asks for. */
  datatype UserQuery = ByName(name: string) | ById(id: UserId) | BadArgument

  /** `context.args[0]`: "@name" asks for a username, anything else must be
      an integer id; a missing or empty argument is an error. */
  function UserQueryOf(args: seq<string>): (q: UserQuery)
    ensures q.BadArgument? <==>
      (|args| == 0 || |args[0]| == 0 || (args[0][0] != '@' && ParseInt(args[0]).None?))
    ensures q.ByName? ==> args[0] == "@" + q.name
    ensures q.ById? ==> ParseInt(args[0]) == Some(q.id)
  {
    if |args| == 0 || |args[0]| == 0 then BadArgument
    else if args[0][0] == '@' then
      assert args[0] == "@" + args[0][1..];
      ByName(args[0][1..])
    else
      match ParseInt(args[0])
      case Some(id) => ById(id)
      case None => BadArgument
  }

  /** Both ways of naming a user come back as themselves. */
  lemma UserQueryRoundTrip(name: string, id: UserId)
    ensures UserQueryOf(["@" + name]) == ByName(name)
    ensures UserQueryOf([IntText(id)]) == ById(id)
  {
    assert ("@" + name)[1..] == name;
    IntTextRoundTrip(id);
    var t := IntText(id);
    assert t[0] != '@' by {
      if id < 0 {
        assert t[0] == '-';
      } else {
        assert AllDigits(t);
      }
    }
  }

  /** The smallest of a non-empty set. */
  function MinOf(s: set<int>): (m: int)
    requires s != {}
    ensures m in s && forall x :: x in s ==> m <= x
  {
    MinExists(s);
    var m :| m in s && forall x :: x in s ==> m <= x;
    m
  }

  lemma {:induction false} MinExists(s: set<int>)
    requires s != {}
    ensures exists m :: m in s && forall x :: x in s ==> m <= x
    decreases |s|
  {
    if forall x :: x !in s {
      assert false;
    }
    var y :| y in s;
    if s != {y} {
      MinExists(s - {y});
      var m :| m in s - {y} && forall x :: x in s - {y} ==> m <= x;
      if y < m {
        forall x | x in s ensures y <= x {
          if x != y {
            assert x in s - {y};
          }
        }
      } else {
        forall x | x in s ensures m <= x {
          if x != y {
            assert x in s - {y};
          }
        }
      }
    } else {
      assert forall x :: x in s ==> y <= x;
    }
  }

  /** The users a query matches. */
  function Matches(db: Db, q: UserQuery): set<UserId> {
    match q
    case ByName(name) => set id | id in db.users && db.users[id].username == Some(name)
    case ById(id) => if id in db.users then {id} else {}
    case BadArgument => {}
  }

  /** `/user <arg>` from a manager: the user's details, or an error. Of
      several users with the same username the one with the smallest id is
      shown. */
  function FindUser(data: UserData, work: Workspace, db: Db, env: Env, args: seq<string>): (o: MOutcome)
    ensures o.db == db && o.data == data && o.work == work && !o.raised
    ensures !db.IsManager(env.user.id) ==> o.next == End && o.effects == [Reply(NotManager)]
    ensures db.IsManager(env.user.id) && UserQueryOf(args).BadArgument? ==>
      o.next == Stay && o.effects == [Reply(ArgumentError)]
    ensures db.IsManager(env.user.id) && !UserQueryOf(args).BadArgument? ==>
      && (o.next == Goto(ManageUser) <==> Matches(db, UserQueryOf(args)) != {})
      && (o.next == Stay <==> Matches(db, UserQueryOf(args)) == {})
      && (o.next == Stay ==> o.effects == [Reply(UserNotFound)])
      && (o.next == Goto(ManageUser) ==>
            |o.effects| == 1 && o.effects[0].UserCard? && o.effects[0].user in Matches(db, UserQueryOf(args))
            && o.effects[0].buttons == UserKeyboard(db, o.effects[0].user, env.user.id))
  {
    if !db.IsManager(env.user.id) then MDone(End, data, work, db, [Reply(NotManager)])
    else
      var q := UserQueryOf(args);
      if q.BadArgument? then MDone(Stay, data, work, db, [Reply(ArgumentError)])
      else
        var found := Matches(db, q);
        if found == {} then MDone(Stay, data, work, db, [Reply(UserNotFound)])
        else
          var user := MinOf(found);
          MDone(Goto(ManageUser), data, work, db, [UserCard(user, UserKeyboard(db, user, env.user.id))])
  }

  /** One press of a permission button. */
  function Toggle(u: User, role: Role): (v: User)
    ensures v.admin ==> v.manager
    ensures v.username == u.username && v.firstName == u.firstName && v.lastName == u.lastName
  {
    match role
    case AdminRole => if u.admin then u.(admin := false) else u.(admin := true, manager := true)
    case ManagerRole => if u.manager then u.(admin := false, manager := false) else u.(manager := true)
  }

  /** What each press does: granting admin grants manager too, revoking
      manager revokes admin too, and the other two touch one flag. */
  lemma ToggleEffects(u: User, role: Role)
    ensures role == AdminRole && !u.admin ==> Toggle(u, role).admin && Toggle(u, role).manager
    ensures role == AdminRole && u.admin ==> !Toggle(u, role).admin && Toggle(u, role).manager == u.manager
    ensures role == ManagerRole && u.manager ==> !Toggle(u, role).admin && !Toggle(u, role).manager
    ensures role == ManagerRole && !u.manager ==> Toggle(u, role).manager && Toggle(u, role).admin == u.admin
  {
  }

  /** Pressing the same button twice restores the user except in one case
      each: admin on-off-on on a user who was admin comes back as manager
      too, and manager off-on on an admin loses the admin right. */
  lemma ToggleTwice(u: User, role: Role)
    requires u.admin ==> u.manager
    ensures Toggle(Toggle(u, role), role) == u <==> (if role == AdminRole then u.manager else !u.admin)
  {
  }

  /** The alert a permission press answers with. */
  function RoleAlert(u: User, role: Role): TextKey {
    match role
    case AdminRole => if u.admin then AdminRevoked else AdminGranted
    case ManagerRole => if u.manager then PermissionsRevoked else ManagerGranted
  }

  /** An admin presses a permission button of `target`. The source's
      "not yourself" test compares a user object with an id and never
      holds, so it is not modelled; the keyboard rule is what keeps an admin
      from their own buttons. */
  function ChangePermission(data: UserData, work: Workspace, db: Db, env: Env, role: Role, target: UserId): (o: MOutcome)
    ensures !db.IsAdmin(env.user.id) ==> o == MDone(End, data, work, db, [Alert(NotAdmin)])
    ensures db.IsAdmin(env.user.id) && target !in db.users ==> o.raised && o.db == db
    ensures db.IsAdmin(env.user.id) && target in db.users ==>
      && !o.raised && o.next == Stay
      && o.db == db.(users := db.users[target := Toggle(db.users[target], role)])
      && o.effects == [Alert(RoleAlert(db.users[target], role)), EditButtons(UserKeyboard(o.db, target, env.user.id))]
    ensures db.AdminsAreManagers() ==> o.db.AdminsAreManagers()
    ensures forall id :: id in db.users && id != target ==> id in o.db.users && o.db.users[id] == db.users[id]
  {
    if !db.IsAdmin(env.user.id) then MDone(End, data, work, db, [Alert(NotAdmin)])
    else if target !in db.users then MRaise(data, work, db, [])
    else
      var u := db.users[target];
      var db' := db.(users := db.users[target := Toggle(u, role)]);
      MDone(Stay, data, work, db', [Alert(RoleAlert(u, role)), EditButtons(UserKeyboard(db', target, env.user.id))])
  }

  // ---------------------------------------------------------------------
  // Looking up a restaurant (lines 458-587)
  // ---------------------------------------------------------------------

  /** The categories of all of a restaurant's dishes, hidden ones included. */
  function DishCategoriesOf(db: Db, name: string): (cats: set<string>)
    ensures forall c :: c in cats <==>
              exists d :: d in db.dishes && db.dishes[d].restaurant == name && db.dishes[d].category == c
  {
    set d | d in db.dishes && db.dishes[d].restaurant == name :: db.dishes[d].category
  }

  /** The card of a restaurant `/restaurant` found, with the workspace
      naming it. The schedule is listed whether or not the restaurant is
      enabled; a stored day without a weekday name raises before anything
      is sent, with the session already cleared. */
  function ShowRestaurant(db: Db, r: string): (o: MOutcome)
    requires r in db.restaurants
    ensures o.db == db && o.data == Cleared
    ensures o.raised <==> ClosedNotice(db.restaurants[r].schedule).None?
    ensures o.raised ==> o.work == Blank && o.effects == []
    ensures !o.raised ==>
      && o.next == Goto(ManageRestaurant) && o.work == Managing(r)
      && Issued(o.effects) == {RestaurantStatusPress(r), SchedulePress(r)}
      && |o.effects| == 2
      && o.effects[0].RestaurantCard? && o.effects[0].restaurant == r
      && o.effects[0].enabled == db.restaurants[r].enabled
      && o.effects[0].days.Keys == db.restaurants[r].schedule.Keys
      && o.effects[1] == Choices(AskDishCategory, DishCategoriesOf(db, r))
  {
    match ClosedNotice(db.restaurants[r].schedule)
    case None => MRaise(Cleared, Blank, db, [])
    case Some(days) =>
      var buttons := [[RestaurantStatusPress(r)], [SchedulePress(r)]];
      assert buttons[0][0] in Flat(buttons) && buttons[1][0] in Flat(buttons);
      var effects := [RestaurantCard(r, db.restaurants[r].enabled, days, buttons),
                      Choices(AskDishCategory, DishCategoriesOf(db, r))];
      assert Issued(effects) == Flat(buttons) by {
        assert Shown(effects[1]) == {};
      }
      MDone(Goto(ManageRestaurant), Cleared, Managing(r), db, effects)
  }

  /** `/restaurant <name>`: the restaurant whose name equals the joined
      arguments ignoring case, shown by ShowRestaurant. Once a name is given
      `user_data` is cleared, whether or not it is found, so the customer's
      cart goes too. Only a restaurant that is shown fills the workspace the
      status and schedule handlers read. */
  function FindRestaurant(data: UserData, work: Workspace, db: Db, env: Env, args: seq<string>): (o: MOutcome)
    requires db.Valid()
    ensures o.db == db
    ensures !db.IsManager(env.user.id) ==> o == MDone(End, data, work, db, [Reply(NotManager)])
    ensures db.IsManager(env.user.id) && args == [] ==> o == MDone(Stay, data, work, db, [Reply(ArgumentError)])
    ensures db.IsManager(env.user.id) && args != [] ==> o.data == Cleared
    ensures db.IsManager(env.user.id) && args != [] &&
            (forall r :: r in db.restaurants ==> Lower(r) != Lower(Join(args, ' '))) ==>
      o == MDone(Stay, Cleared, Blank, db, [Reply(RestaurantNotFound)])
    ensures db.IsManager(env.user.id) && args != [] &&
            (exists r :: r in db.restaurants && Lower(r) == Lower(Join(args, ' '))) ==>
      exists r :: r in db.restaurants && Lower(r) == Lower(Join(args, ' ')) && o == ShowRestaurant(db, r)
  {
    if !db.IsManager(env.user.id) then MDone(End, data, work, db, [Reply(NotManager)])
    else if args == [] then MDone(Stay, data, work, db, [Reply(ArgumentError)])
    else
      var found := FirstMatch(db.listing, Join(args, ' '));
      if found.None? then
        assert forall r :: r in db.restaurants ==> Lower(r) != Lower(Join(args, ' ')) by {
          forall r | r in db.restaurants ensures Lower(r) != Lower(Join(args, ' ')) {
            var i :| 0 <= i < |db.listing| && db.listing[i] == r;
          }
        }
        MDone(Stay, Cleared, Blank, db, [Reply(RestaurantNotFound)])
      else
        ShowRestaurant(db, found.value)
  }

  /** A restaurant stored with day 8 can no longer be looked up: listing
      its schedule raises, after the session has been cleared. */
  lemma DayEightBreaksLookup(data: UserData, work: Workspace, db: Db, env: Env, name: string)
    requires db.Valid() && db.IsManager(env.user.id) && name in db.restaurants
    requires forall r :: r in db.restaurants && Lower(r) == Lower(name) ==> 8 in db.restaurants[r].schedule
    ensures var o := FindRestaurant(data, work, db, env, [name]);
      o.raised && o.data == Cleared && o.work == Blank && o.effects == []
  {
    assert Join([name], ' ') == name;
    var o := FindRestaurant(data, work, db, env, [name]);
    var r :| r in db.restaurants && Lower(r) == Lower(name) && o == ShowRestaurant(db, r);
    assert 8 in db.restaurants[r].schedule;
  }

  /** A restaurant found by `/restaurant` can have its schedule changed:
      the "Change schedule" button the card issues reaches the schedule
      prompt, because the lookup left the restaurant in the workspace. */
  lemma FoundRestaurantSchedulable(data: UserData, work: Workspace, db: Db, env: Env, args: seq<string>)
    requires db.Valid()
    requires FindRestaurant(data, work, db, env, args).next == Goto(ManageRestaurant)
    ensures var found := FindRestaurant(data, work, db, env, args);
      var ask := ChangeRestaurantSchedule(found.data, found.work, found.db);
      && SchedulePress(found.work.restaurant) in Issued(found.effects)
      && ask.next == Goto(ManageSchedule) && !ask.raised
      && ask.work == Managing(found.work.restaurant)
  {
  }

  /** A lookup that finds nothing still empties the session and the
      workspace: the schedule button of a card shown earlier then raises. */
  lemma MissedLookupForgetsRestaurant(data: UserData, work: Workspace, db: Db, env: Env, args: seq<string>)
    requires db.Valid() && db.IsManager(env.user.id) && args != []
    requires forall r :: r in db.restaurants ==> Lower(r) != Lower(Join(args, ' '))
    ensures var missed := FindRestaurant(data, work, db, env, args);
      && missed.next == Stay && missed.data == Cleared
      && ChangeRestaurantSchedule(missed.data, missed.work, missed.db).raised
  {
  }

  // ---------------------------------------------------------------------
  // Visibility of restaurants and dishes (lines 589-647, 805-850)
  // ---------------------------------------------------------------------

  /** A manager flips a restaurant between shown and hidden. */
  function ChangeRestaurantStatus(data: UserData, work: Workspace, db: Db, env: Env, name: string): (o: MOutcome)
    ensures !db.IsManager(env.user.id) ==> o == MDone(End, data, work, db, [Alert(NotManager)])
    ensures db.IsManager(env.user.id) && name !in db.restaurants ==> o.raised && o.db == db
    ensures db.IsManager(env.user.id) && name in db.restaurants ==>
      && !o.raised && o.next == Stay
      && o.db == db.(restaurants := db.restaurants[name := db.restaurants[name].(enabled := !db.restaurants[name].enabled)])
      && |o.effects| == 2
      && o.effects[0] == Alert(if o.db.restaurants[name].enabled then RestaurantVisible else RestaurantHidden)
      && Issued(o.effects) == {RestaurantStatusPress(name), SchedulePress(name)}
    ensures db.Valid() ==> o.db.Valid()
  {
    if !db.IsManager(env.user.id) then MDone(End, data, work, db, [Alert(NotManager)])
    else if name !in db.restaurants then MRaise(data, work, db, [])
    else
      var r := db.restaurants[name].(enabled := !db.restaurants[name].enabled);
      var buttons := [[RestaurantStatusPress(name)], [SchedulePress(name)]];
      assert buttons[0][0] in Flat(buttons) && buttons[1][0] in Flat(buttons);
      MDone(Stay, data, work, db.(restaurants := db.restaurants[name := r]),
            [Alert(if r.enabled then RestaurantVisible else RestaurantHidden), EditButtons(buttons)])
  }

  /** Flipping a restaurant twice restores the database. */
  lemma RestaurantFlipTwice(data: UserData, work: Workspace, db: Db, env: Env, name: string)
    ensures var o := ChangeRestaurantStatus(data, work, db, env, name);
      ChangeRestaurantStatus(o.data, o.work, o.db, env, name).db == db
  {
    var o := ChangeRestaurantStatus(data, work, db, env, name);
    if db.IsManager(env.user.id) && name in db.restaurants {
      assert o.db.restaurants[name := db.restaurants[name]] == db.restaurants;
    }
  }

  /** A manager flips a dish. The new button is computed from the state the
      pressed button showed, not from the stored one. */
  function ChangeDishState(data: UserData, work: Workspace, db: Db, env: Env, dish: DishId, shown: bool): (o: MOutcome)
    ensures !db.IsManager(env.user.id) ==> o == MDone(End, data, work, db, [Alert(NotManager)])
    ensures db.IsManager(env.user.id) && dish !in db.dishes ==> o.raised && o.db == db
    ensures db.IsManager(env.user.id) && dish in db.dishes ==>
      && !o.raised && o.next == Stay
      && o.db == db.(dishes := db.dishes[dish := db.dishes[dish].(enabled := !db.dishes[dish].enabled)])
      && Issued(o.effects) == {DishStatusPress(dish, !shown)}
    ensures db.Valid() ==> o.db.Valid()
  {
    if !db.IsManager(env.user.id) then MDone(End, data, work, db, [Alert(NotManager)])
    else if dish !in db.dishes then MRaise(data, work, db, [])
    else
      var d := db.dishes[dish].(enabled := !db.dishes[dish].enabled);
      var buttons := [[DishStatusPress(dish, !shown)]];
      assert Flat(buttons) == {DishStatusPress(dish, !shown)};
      MDone(Stay, data, work, db.(dishes := db.dishes[dish := d]), [EditButtons(buttons)])
  }

  /** The new button tells the truth exactly when the pressed one did: a
      second message about the same dish, pressed after the first, shows
      the opposite of the stored state. */
  lemma DishButtonShowsState(data: UserData, work: Workspace, db: Db, env: Env, dish: DishId, shown: bool)
    requires db.IsManager(env.user.id) && dish in db.dishes
    ensures var o := ChangeDishState(data, work, db, env, dish, shown);
      (DishStatusPress(dish, o.db.dishes[dish].enabled) in Issued(o.effects)) <==> shown == db.dishes[dish].enabled
  {
  }

  /** Flipping a dish twice restores the database. */
  lemma DishFlipTwice(data: UserData, work: Workspace, db: Db, env: Env, dish: DishId, shown: bool)
    ensures var o := ChangeDishState(data, work, db, env, dish, shown);
      ChangeDishState(o.data, o.work, o.db, env, dish, !shown).db == db
  {
    var o := ChangeDishState(data, work, db, env, dish, shown);
    if db.IsManager(env.user.id) && dish in db.dishes {
      assert o.db.dishes[dish := db.dishes[dish]] == db.dishes;
    }
  }

  // ---------------------------------------------------------------------
  // The weekly schedule (lines 649-758)
  // ---------------------------------------------------------------------

  /** "Change schedule": the prompt with a Cancel button. There is no
      manager check here; the name comes from the workspace. */
  function ChangeRestaurantSchedule(data: UserData, work: Workspace, db: Db): (o: MOutcome)
    ensures o.db == db
    ensures work.Managing? <==> o.next == Goto(ManageSchedule)
    ensures !work.Managing? ==> o.raised
    ensures work.Managing? ==> Issued(o.effects) == {CancelSchedulePress}
  {
    if !work.Managing? then MRaise(data, work, db, [])
    else
      var buttons := [[CancelSchedulePress]];
      assert Flat(buttons) == {CancelSchedulePress};
      MDone(Goto(ManageSchedule), data, work, db, [Buttons(ScheduleHint, buttons)])
  }

  /** "Cancel": back to the restaurant, nothing changed. */
  function CancelScheduleChange(data: UserData, work: Workspace, db: Db): (o: MOutcome)
    ensures o == MDone(Goto(ManageRestaurant), data, work, db, [Alert(ScheduleCancelled)])
  {
    MDone(Goto(ManageRestaurant), data, work, db, [Alert(ScheduleCancelled)])
  }

  /** Asking for a new schedule and then cancelling returns to the
      restaurant with the database, the session and the workspace as they
      were. */
  lemma CancelledScheduleChangesNothing(data: UserData, work: Workspace, db: Db)
    requires work.Managing?
    ensures var ask := ChangeRestaurantSchedule(data, work, db);
      var back := CancelScheduleChange(ask.data, ask.work, ask.db);
      && ask.next == Goto(ManageSchedule) && back.next == Goto(ManageRestaurant)
      && back.data == data && back.work == work && back.db == db
  {
  }

  /** The reconciliation of lines 730-752: rows for days in the new
      schedule are updated in place, days new to it are inserted, and the
      rows left over are deleted. The loop visits the new days in any order. */
  method MergeSchedule(stored: Schedule, parsed: Schedule)
    returns (merged: Schedule, updated: set<int>, inserted: set<int>, deleted: set<int>)
    ensures merged == parsed
    ensures updated == stored.Keys * parsed.Keys
    ensures inserted == parsed.Keys - stored.Keys
    ensures deleted == stored.Keys - parsed.Keys
  {
    var leftover := stored;  // existing_schdule
    merged := stored;        // the rows in the database
    updated, inserted := {}, {};
    var todo := parsed.Keys;
    while todo != {}
      invariant todo <= parsed.Keys
      invariant leftover.Keys == stored.Keys - (parsed.Keys - todo)
      invariant updated == stored.Keys * (parsed.Keys - todo)
      invariant inserted == (parsed.Keys - todo) - stored.Keys
      invariant merged.Keys == stored.Keys + (parsed.Keys - todo)
      invariant forall d :: d in merged && d !in parsed ==> d in leftover
      invariant forall d :: d in parsed && d !in todo ==> d in merged && merged[d] == parsed[d]
      decreases todo
    {
      if forall d :: d !in todo {
        assert false;
      }
      var day :| day in todo;
      if day in leftover {
        merged := merged[day := parsed[day]];
        leftover := leftover - {day};
        updated := updated + {day};
      } else {
        merged := merged[day := parsed[day]];
        inserted := inserted + {day};
      }
      todo := todo - {day};
    }
    deleted := leftover.Keys;
    var kept := merged - leftover.Keys;
    assert kept.Keys == parsed.Keys;
    assert forall d :: d in kept ==> kept[d] == parsed[d];
    merged := kept;
  }

  /** A manager sends a new schedule for the restaurant being managed. The
      day numbers are not checked (see ScheduleText.LaterLineEscapesDayCheck).
      A message that does not parse, or a workspace without a restaurant,
      gets the error reply and changes nothing. */
  method SetRestaurantSchedule(data: UserData, work: Workspace, db: Db, env: Env, text: string) returns (o: MOutcome)
    ensures o.data == data && o.work == work
    ensures (!work.Managing? || ParseSchedule(text).None?) ==>
      o == MDone(Stay, data, work, db, [Reply(ScheduleError)])
    ensures work.Managing? && ParseSchedule(text).Some? && !db.IsManager(env.user.id) ==>
      o == MDone(End, data, work, db, [Reply(NotManager)])
    ensures work.Managing? && ParseSchedule(text).Some? && db.IsManager(env.user.id) ==>
      var name := work.restaurant;
      && (name !in db.restaurants ==> o.raised && o.db == db)
      && (name in db.restaurants ==>
            && !o.raised && o.next == Goto(ManageRestaurant)
            && o.db == db.(restaurants := db.restaurants[name := db.restaurants[name].(schedule := ParseSchedule(text).value)])
            && o.effects == [ReplyKeyboard(ScheduleChanged, [["/restaurant " + name]])])
    ensures db.Valid() ==> o.db.Valid()
  {
    if !work.Managing? {
      return MDone(Stay, data, work, db, [Reply(ScheduleError)]);
    }
    var parsed := ParseSchedule(text);
    if parsed.None? {
      return MDone(Stay, data, work, db, [Reply(ScheduleError)]);
    }
    if !db.IsManager(env.user.id) {
      return MDone(End, data, work, db, [Reply(NotManager)]);
    }
    var name := work.restaurant;
    if name !in db.restaurants {
      // the new rows would reference a restaurant that is not there
      return MRaise(data, work, db, []);
    }
    var merged, _, _, _ := MergeSchedule(db.restaurants[name].schedule, parsed.value);
    var r := db.restaurants[name].(schedule := merged);
    o := MDone(Goto(ManageRestaurant), data, work, db.(restaurants := db.restaurants[name := r]),
               [ReplyKeyboard(ScheduleChanged, [["/restaurant " + name]])]);
  }

  // ---------------------------------------------------------------------
  // New restaurant: N_RESTAURANT -> C_RESTAURANT -> S_RESTAURANT -> END
  // (lines 852-1020)
  // ---------------------------------------------------------------------

  /** `/new_restaurant`: a manager starts the wizard with a cleared session. */
  function CreateNewRestaurant(data: UserData, work: Workspace, db: Db, env: Env): (o: MOutcome)
    ensures o.db == db && !o.raised
    ensures db.IsManager(env.user.id) ==> o == MDone(Goto(NewRestaurantName), Cleared, Blank, db, [Reply(AskName)])
    ensures !db.IsManager(env.user.id) ==> o == MDone(End, data, work, db, [Reply(NotManager)])
  {
    if !db.IsManager(env.user.id) then MDone(End, data, work, db, [Reply(NotManager)])
    else MDone(Goto(NewRestaurantName), Cleared, Blank, db, [Reply(AskName)])
  }

  /** A restaurant whose name equals `text` but for letter case. */
  predicate NameTaken(db: Db, text: string) {
    exists r :: r in db.restaurants && Lower(r) == Lower(text)
  }

  /** The name step: too long or taken (ignoring case) keeps the step. */
  function NameNewRestaurant(data: UserData, work: Workspace, db: Db, text: string): (o: MOutcome)
    ensures o.db == db && o.data == data && !o.raised
    ensures o.next == Goto(NewRestaurantCurrency) <==> |text| <= NameLength && !NameTaken(db, text)
    ensures o.next == Goto(NewRestaurantCurrency) ==> o.work == RestaurantDraft(text, None)
    ensures o.next != Goto(NewRestaurantCurrency) ==> o.next == Stay && o.work == work
    ensures |text| > NameLength ==> o.effects == [Reply(NameTooLong)]
    ensures |text| <= NameLength && NameTaken(db, text) ==> o.effects == [Reply(RestaurantExists)]
  {
    if |text| > NameLength then MDone(Stay, data, work, db, [Reply(NameTooLong)])
    else if NameTaken(db, text) then MDone(Stay, data, work, db, [Reply(RestaurantExists)])
    else MDone(Goto(NewRestaurantCurrency), data, RestaurantDraft(text, None), db, [Reply(AskCurrency)])
  }

  /** The currency step. */
  function CurrencyNewRestaurant(data: UserData, work: Workspace, db: Db, text: string): (o: MOutcome)
    ensures o.db == db && o.data == data
    ensures |text| > NameLength ==> o == MDone(Stay, data, work, db, [Reply(NameTooLong)])
    ensures |text| <= NameLength && !work.RestaurantDraft? ==> o.raised && o.work == work
    ensures |text| <= NameLength && work.RestaurantDraft? ==>
      o == MDone(Goto(NewRestaurantSchedule), data, work.(newCurrency := Some(text)), db, [Reply(AskSchedule)])
  {
    if |text| > NameLength then MDone(Stay, data, work, db, [Reply(NameTooLong)])
    else if !work.RestaurantDraft? then MRaise(data, work, db, [])
    else MDone(Goto(NewRestaurantSchedule), data, work.(newCurrency := Some(text)), db, [Reply(AskSchedule)])
  }

  /** The schedule step creates the restaurant, hidden from customers. A
      restaurant of the same name created meanwhile makes the insert fail. */
  function ScheduleNewRestaurant(data: UserData, work: Workspace, db: Db, env: Env, text: string): (o: MOutcome)
    ensures o.data == data && o.work == work
    ensures ParseSchedule(text).None? ==> o == MDone(Stay, data, work, db, [Reply(ScheduleError)])
    ensures ParseSchedule(text).Some? && !db.IsManager(env.user.id) ==>
      o == MDone(End, data, work, db, [Reply(NotManager)])
    ensures o.raised ==> o.db == db
    ensures ParseSchedule(text).Some? && db.IsManager(env.user.id) ==>
      (!o.raised <==> work.RestaurantDraft? && work.newCurrency.Some? && work.newName !in db.restaurants)
    ensures !o.raised && o.db != db ==>
      && work.RestaurantDraft? && work.newCurrency.Some? && o.next == End
      && o.db == db.(restaurants := db.restaurants[work.newName := Restaurant(false, work.newCurrency.value, ParseSchedule(text).value)],
                     listing := db.listing + [work.newName])
      && !o.db.restaurants[work.newName].enabled
    ensures db.Valid() ==> o.db.Valid()
  {
    match ParseSchedule(text)
    case None => MDone(Stay, data, work, db, [Reply(ScheduleError)])
    case Some(schedule) =>
      if !db.IsManager(env.user.id) then MDone(End, data, work, db, [Reply(NotManager)])
      else if !work.RestaurantDraft? || work.newCurrency.None? || work.newName in db.restaurants then MRaise(data, work, db, [])
      else
        var name := work.newName;
        var db' := db.(restaurants := db.restaurants[name := Restaurant(false, work.newCurrency.value, schedule)],
                       listing := db.listing + [name]);
        MDone(End, data, work, db', [ReplyKeyboard(RestaurantCreated, [["/restaurant " + name], ["/new_category"], ["/new_dish"]])])
  }

  /** The whole wizard: a manager who gives a free name, a currency and a
      schedule ends up with a new hidden restaurant carrying that schedule. */
  lemma RestaurantWizard(data: UserData, work: Workspace, db: Db, env: Env, name: string, currency: string, text: string)
    requires db.Valid() && db.IsManager(env.user.id)
    requires |name| <= NameLength && !NameTaken(db, name) && |currency| <= NameLength
    requires ParseSchedule(text).Some?
    ensures var o1 := CreateNewRestaurant(data, work, db, env);
      var o2 := NameNewRestaurant(o1.data, o1.work, o1.db, name);
      var o3 := CurrencyNewRestaurant(o2.data, o2.work, o2.db, currency);
      var o4 := ScheduleNewRestaurant(o3.data, o3.work, o3.db, env, text);
      && o1.next == Goto(NewRestaurantName) && o2.next == Goto(NewRestaurantCurrency)
      && o3.next == Goto(NewRestaurantSchedule) && o4.next == End && !o4.raised
      && name in o4.db.restaurants && !o4.db.restaurants[name].enabled
      && o4.db.restaurants[name].currency == currency
      && o4.db.restaurants[name].schedule == ParseSchedule(text).value
      && o4.db.Valid()
  {
  }

  /** As written, the wizard stores whatever day numbers the message
      parses to: a message with a line for day 8 (one that passes the
      filter is ScheduleText.LaterLineEscapesDayCheck's) creates a
      restaurant whose "closed now" notice cannot name its days. */
  lemma WizardStoresDayEight(data: UserData, work: Workspace, db: Db, env: Env, name: string, currency: string, text: string)
    requires db.Valid() && db.IsManager(env.user.id)
    requires |name| <= NameLength && !NameTaken(db, name) && |currency| <= NameLength
    requires ParseSchedule(text).Some? && 8 in ParseSchedule(text).value
    ensures var o1 := CreateNewRestaurant(data, work, db, env);
      var o2 := NameNewRestaurant(o1.data, o1.work, o1.db, name);
      var o3 := CurrencyNewRestaurant(o2.data, o2.work, o2.db, currency);
      var o4 := ScheduleNewRestaurant(o3.data, o3.work, o3.db, env, text);
      && o4.next == End && !o4.raised
      && 8 in o4.db.restaurants[name].schedule
      && ClosedNotice(o4.db.restaurants[name].schedule).None?
  {
    RestaurantWizard(data, work, db, env, name, currency, text);
  }

  // ---------------------------------------------------------------------
  // New dish category: N_CATEGORY -> END (lines 1022-1108)
  // ---------------------------------------------------------------------

  /** `/new_category` */
  function CreateNewDishCategory(data: UserData, work: Workspace, db: Db, env: Env): (o: MOutcome)
    ensures o.db == db && !o.raised
    ensures db.IsManager(env.user.id) ==> o == MDone(Goto(NewCategoryName), Cleared, Blank, db, [Reply(AskName)])
    ensures !db.IsManager(env.user.id) ==> o == MDone(End, data, work, db, [Reply(NotManager)])
  {
    if !db.IsManager(env.user.id) then MDone(End, data, work, db, [Reply(NotManager)])
    else MDone(Goto(NewCategoryName), Cleared, Blank, db, [Reply(AskName)])
  }

  /** The duplicate test as written: the stored names are lowered, the
      typed one is not. */
  predicate CategoryTakenAsWritten(db: Db, text: string) {
    exists i :: 0 <= i < |db.categories| && Lower(db.categories[i]) == text
  }

  /** The duplicate test as intended: both sides lowered, as for restaurants. */
  predicate CategoryTaken(db: Db, text: string) {
    exists i :: 0 <= i < |db.categories| && Lower(db.categories[i]) == Lower(text)
  }

  /** The category name step, parameterised by the duplicate test. */
  function NameCategoryWith(data: UserData, work: Workspace, db: Db, env: Env, text: string, taken: bool): (o: MOutcome)
    ensures o.data == data && o.work == work
    ensures |text| > NameLength ==> o == MDone(Stay, data, work, db, [Reply(NameTooLong)])
    ensures |text| <= NameLength && !db.IsManager(env.user.id) ==> o == MDone(End, data, work, db, [Reply(NotManager)])
    ensures |text| <= NameLength && db.IsManager(env.user.id) && taken ==>
      o == MDone(Stay, data, work, db, [Reply(CategoryExists)])
    ensures |text| <= NameLength && db.IsManager(env.user.id) && !taken ==>
      && (o.raised <==> text in db.categories)
      && (o.raised ==> o.db == db)
      && (!o.raised ==> o.next == End && o.db == db.(categories := db.categories + [text]))
    ensures db.Valid() ==> o.db.Valid()
  {
    if |text| > NameLength then MDone(Stay, data, work, db, [Reply(NameTooLong)])
    else if !db.IsManager(env.user.id) then MDone(End, data, work, db, [Reply(NotManager)])
    else if taken then MDone(Stay, data, work, db, [Reply(CategoryExists)])
    else if text in db.categories then MRaise(data, work, db, [])  // the unique constraint
    else MDone(End, data, work, db.(categories := db.categories + [text]), [ReplyKeyboard(CategoryCreated, [["/new_dish"]])])
  }

  /** nameNewDishCategory as written. */
  function NameNewDishCategoryAsWritten(data: UserData, work: Workspace, db: Db, env: Env, text: string): MOutcome {
    NameCategoryWith(data, work, db, env, text, CategoryTakenAsWritten(db, text))
  }

  /** nameNewDishCategory with the comparison the restaurant wizard uses. */
  function NameNewDishCategory(data: UserData, work: Workspace, db: Db, env: Env, text: string): MOutcome {
    NameCategoryWith(data, work, db, env, text, CategoryTaken(db, text))
  }

  /** No two category names differ only in letter case. */
  predicate CaseDistinct(names: seq<string>) {
    forall i, j :: 0 <= i < j < |names| ==> Lower(names[i]) != Lower(names[j])
  }

  /** As written, with "Burgers" stored: typing "Burgers" again is not
      recognised and fails on the unique constraint, and typing "BURGERS"
      creates a second category that differs only in case. */
  lemma CategoryCheckMissesCapitals(data: UserData, work: Workspace, db: Db, env: Env)
    requires db.IsManager(env.user.id) && db.categories == ["Burgers"]
    ensures NameNewDishCategoryAsWritten(data, work, db, env, "Burgers").raised
    ensures var o := NameNewDishCategoryAsWritten(data, work, db, env, "BURGERS");
      !o.raised && o.db.categories == ["Burgers", "BURGERS"] && !CaseDistinct(o.db.categories)
  {
    assert Lower("Burgers") == "burgers";
    assert Lower("BURGERS") == "burgers";
    assert !CategoryTakenAsWritten(db, "Burgers");
    assert !CategoryTakenAsWritten(db, "BURGERS");
    var o := NameNewDishCategoryAsWritten(data, work, db, env, "BURGERS");
    assert Lower(o.db.categories[0]) == Lower(o.db.categories[1]);
  }

  /** With both sides lowered, a manager's new category never hits the
      unique constraint and the names stay distinct ignoring case. */
  lemma CategoryNamesStayDistinct(data: UserData, work: Workspace, db: Db, env: Env, text: string)
    requires CaseDistinct(db.categories)
    ensures var o := NameNewDishCategory(data, work, db, env, text);
      !o.raised && CaseDistinct(o.db.categories)
  {
    var o := NameNewDishCategory(data, work, db, env, text);
    if text in db.categories {
      var i :| 0 <= i < |db.categories| && db.categories[i] == text;
      assert CategoryTaken(db, text);
    }
    if o.db != db {
      assert !CategoryTaken(db, text);
      var cats := o.db.categories;
      assert cats == db.categories + [text];
      forall i, j | 0 <= i < j < |cats| ensures Lower(cats[i]) != Lower(cats[j]) {
        if j == |cats| - 1 {
          assert cats[i] == db.categories[i];
        } else {
          assert cats[i] == db.categories[i] && cats[j] == db.categories[j];
        }
      }
    }
  }

  // ---------------------------------------------------------------------
  // New dish: R_DISH -> C_DISH -> N_DISH -> D_DISH -> PR_DISH -> PH_DISH -> END
  // (lines 1110-1350)
  // ---------------------------------------------------------------------

  /** The first of the names that equals `text` ignoring case, in row order. */
  function FirstMatch(names: seq<string>, text: string): (r: Option<string>)
    ensures r.None? <==> forall i :: 0 <= i < |names| ==> Lower(names[i]) != Lower(text)
    ensures r.Some? ==> exists i :: 0 <= i < |names| && names[i] == r.value && Lower(r.value) == Lower(text)
                                     && forall j :: 0 <= j < i ==> Lower(names[j]) != Lower(text)
  {
    if |names| == 0 then None
    else if Lower(names[0]) == Lower(text) then Some(names[0])
    else
      var r := FirstMatch(names[1..], text);
      assert forall i :: 1 <= i < |names| ==> names[i] == names[1..][i - 1];
      if r.Some? then
        var i :| 0 <= i < |names[1..]| && names[1..][i] == r.value && Lower(r.value) == Lower(text)
                 && forall j :: 0 <= j < i ==> Lower(names[1..][j]) != Lower(text);
        assert names[i + 1] == r.value;
        assert forall j :: 0 <= j < i + 1 ==> Lower(names[j]) != Lower(text) by {
          forall j | 0 <= j < i + 1 ensures Lower(names[j]) != Lower(text) {
            if j > 0 {
              assert names[j] == names[1..][j - 1];
            }
          }
        }
        r
      else r
  }

  /** `/new_dish`: the restaurant choice, all restaurants offered. */
  function CreateNewDish(data: UserData, work: Workspace, db: Db, env: Env): (o: MOutcome)
    ensures o.db == db && !o.raised
    ensures db.IsManager(env.user.id) ==>
      o == MDone(Goto(NewDishRestaurant), Cleared, Blank, db, [Choices(AskRestaurant, db.restaurants.Keys)])
    ensures !db.IsManager(env.user.id) ==> o == MDone(End, data, work, db, [Reply(NotManager)])
  {
    if !db.IsManager(env.user.id) then MDone(End, data, work, db, [Reply(NotManager)])
    else MDone(Goto(NewDishRestaurant), Cleared, Blank, db, [Choices(AskRestaurant, db.restaurants.Keys)])
  }

  /** The restaurant step: the name is matched ignoring case and the stored
      spelling and currency are kept. */
  function RestaurantNewDish(data: UserData, work: Workspace, db: Db, text: string): (o: MOutcome)
    requires db.Valid()
    ensures o.db == db && o.data == data && !o.raised
    ensures o.next == Goto(NewDishCategory) <==> NameTaken(db, text)
    ensures o.next != Goto(NewDishCategory) ==> o == MDone(Stay, data, work, db, [Reply(RestaurantNotFound)])
    ensures o.next == Goto(NewDishCategory) ==>
      && o.work.DishDraft? && o.work.restaurant in db.restaurants && Lower(o.work.restaurant) == Lower(text)
      && o.work.currency == db.restaurants[o.work.restaurant].currency
      && o.work == DishDraft(o.work.restaurant, o.work.currency, None, None, None, None)
  {
    match FirstMatch(db.listing, text)
    case None =>
      MDone(Stay, data, work, db, [Reply(RestaurantNotFound)])
    case Some(r) =>
      assert r in db.restaurants;
      MDone(Goto(NewDishCategory), data, DishDraft(r, db.restaurants[r].currency, None, None, None, None), db,
            [Choices(AskCategory, set c | c in db.categories)])
  }

  /** The category step: matched ignoring case, stored spelling kept. */
  function CategoryNewDish(data: UserData, work: Workspace, db: Db, text: string): (o: MOutcome)
    ensures o.db == db && o.data == data
    ensures FirstMatch(db.categories, text).None? ==> o == MDone(Stay, data, work, db, [Reply(CategoryNotFound)])
    ensures FirstMatch(db.categories, text).Some? && !work.DishDraft? ==> o.raised && o.work == work
    ensures FirstMatch(db.categories, text).Some? && work.DishDraft? ==>
      o == MDone(Goto(NewDishName), data, work.(category := FirstMatch(db.categories, text)), db, [Reply(AskName)])
  {
    match FirstMatch(db.categories, text)
    case None => MDone(Stay, data, work, db, [Reply(CategoryNotFound)])
    case Some(c) =>
      if !work.DishDraft? then MRaise(data, work, db, [])
      else MDone(Goto(NewDishName), data, work.(category := Some(c)), db, [Reply(AskName)])
  }

  /** The name step. The name is stored before the reply reads the
      category back, so a draft without category keeps the name and fails. */
  function NameNewDish(data: UserData, work: Workspace, db: Db, text: string): (o: MOutcome)
    ensures o.db == db && o.data == data
    ensures |text| > NameLength ==> o == MDone(Stay, data, work, db, [Reply(NameTooLong)])
    ensures |text| <= NameLength && !work.DishDraft? ==> o.raised && o.work == work
    ensures |text| <= NameLength && work.DishDraft? ==>
      && o.work == work.(name := Some(text))
      && (o.raised <==> work.category.None?)
      && (!o.raised ==> o.next == Goto(NewDishDescription) && o.effects == [Reply(AskDescription)])
  {
    if |text| > NameLength then MDone(Stay, data, work, db, [Reply(NameTooLong)])
    else if !work.DishDraft? then MRaise(data, work, db, [])
    else
      var w := work.(name := Some(text));
      if w.category.None? then MRaise(data, w, db, [])
      else MDone(Goto(NewDishDescription), data, w, db, [Reply(AskDescription)])
  }

  /** The draft holds everything the description and price prompts show. */
  predicate NamedDraft(w: Workspace) {
    w.DishDraft? && w.category.Some? && w.name.Some?
  }

  /** The description step. */
  function DescriptionNewDish(data: UserData, work: Workspace, db: Db, text: string): (o: MOutcome)
    ensures o.db == db && o.data == data
    ensures |text| > DescriptionLength ==> o == MDone(Stay, data, work, db, [Reply(DescriptionTooLong)])
    ensures |text| <= DescriptionLength && !work.DishDraft? ==> o.raised && o.work == work
    ensures |text| <= DescriptionLength && work.DishDraft? ==>
      && o.work == work.(description := Some(text))
      && (o.raised <==> !NamedDraft(work))
      && (!o.raised ==> o.next == Goto(NewDishPrice) && o.effects == [Reply(AskPrice)])
  {
    if |text| > DescriptionLength then MDone(Stay, data, work, db, [Reply(DescriptionTooLong)])
    else if !work.DishDraft? then MRaise(data, work, db, [])
    else
      var w := work.(description := Some(text));
      if !NamedDraft(w) then MRaise(data, w, db, [])
      else MDone(Goto(NewDishPrice), data, w, db, [Reply(AskPrice)])
  }

  /** The price filter `^[0-9]+\.?[0-9]*$`: digits, then optionally a dot
      and more digits. */
  predicate PriceText(text: string) {
    exists k :: 1 <= k <= |text| && AllDigits(text[..k])
      && (k == |text| || (text[k] == '.' && AllDigits(text[k + 1..])))
  }

  /** The price step. `float(text)` is not modelled: a text of the price
      filter is kept as the price, anything else gets the error reply. */
  function PriceNewDish(data: UserData, work: Workspace, db: Db, text: string): (o: MOutcome)
    ensures o.db == db && o.data == data
    ensures !PriceText(text) ==> o == MDone(Stay, data, work, db, [Reply(PriceError)])
    ensures PriceText(text) && !work.DishDraft? ==> o.raised && o.work == work
    ensures PriceText(text) && work.DishDraft? ==>
      && o.work == work.(price := Some(Price(text)))
      && (o.raised <==> !NamedDraft(work))
      && (!o.raised ==> o.next == Goto(NewDishPhoto) && o.effects == [ReplyKeyboard(AskPhoto, [["No"]])])
  {
    if !PriceText(text) then MDone(Stay, data, work, db, [Reply(PriceError)])
    else if !work.DishDraft? then MRaise(data, work, db, [])
    else
      var w := work.(price := Some(Price(text)));
      if !NamedDraft(w) then MRaise(data, w, db, [])
      else MDone(Goto(NewDishPhoto), data, w, db, [ReplyKeyboard(AskPhoto, [["No"]])])
  }

  /** A draft with every field filled in. */
  predicate CompleteDraft(w: Workspace) {
    NamedDraft(w) && w.description.Some? && w.price.Some?
  }

  /** The photo step creates the dish, visible by default, under the next
      dish id. `photo` is the file id of the photo sent, or None for "No".
      Restaurant and category are looked up by their exact stored names. */
  function PhotoNewDish(data: UserData, work: Workspace, db: Db, photo: Option<string>): (o: MOutcome)
    ensures o.data == data && o.work == work
    ensures o.raised <==> !CompleteDraft(work) || work.restaurant !in db.restaurants || work.category.value !in db.categories
    ensures o.raised ==> o.db == db
    ensures !o.raised ==>
      && o.next == End
      && o.db == db.(dishes := db.dishes[db.nextDish := Dish(work.name.value, work.restaurant, work.category.value,
                                                             work.description.value, work.price.value, true, photo)],
                     nextDish := db.nextDish + 1)
    ensures db.Valid() ==> o.db.Valid()
  {
    if !CompleteDraft(work) || work.restaurant !in db.restaurants || work.category.value !in db.categories then
      MRaise(data, work, db, [])
    else
      var dish := Dish(work.name.value, work.restaurant, work.category.value, work.description.value,
                       work.price.value, true, photo);
      MDone(End, data, work, db.(dishes := db.dishes[db.nextDish := dish], nextDish := db.nextDish + 1),
            [ReplyKeyboard(DishCreated, [["/new_dish"], ["/new_category"], ["/restaurant " + work.restaurant]])])
  }

  /** The manager's answer to one step of the dish wizard. */
  datatype DishAnswer =
    | RestaurantAnswer(text: string)
    | CategoryAnswer(text: string)
    | NameAnswer(text: string)
    | DescriptionAnswer(text: string)
    | PriceAnswer(text: string)
    | PhotoAnswer(photo: Option<string>)

  /** The handler of the answer's step, run on the session, workspace and
      database the previous step left. */
  function Answer(o: MOutcome, a: DishAnswer): MOutcome
    requires a.RestaurantAnswer? ==> o.db.Valid()
  {
    match a
    case RestaurantAnswer(text) => RestaurantNewDish(o.data, o.work, o.db, text)
    case CategoryAnswer(text) => CategoryNewDish(o.data, o.work, o.db, text)
    case NameAnswer(text) => NameNewDish(o.data, o.work, o.db, text)
    case DescriptionAnswer(text) => DescriptionNewDish(o.data, o.work, o.db, text)
    case PriceAnswer(text) => PriceNewDish(o.data, o.work, o.db, text)
    case PhotoAnswer(photo) => PhotoNewDish(o.data, o.work, o.db, photo)
  }

  /** The restaurant and category steps fill in the stored spellings of
      both. */
  lemma DraftStarted(data: UserData, work: Workspace, db: Db, env: Env, restaurant: string, category: string)
    requires db.Valid() && db.IsManager(env.user.id)
    requires NameTaken(db, restaurant) && FirstMatch(db.categories, category).Some?
    ensures var o1 := CreateNewDish(data, work, db, env);
            var o2 := Answer(o1, RestaurantAnswer(restaurant));
            var o3 := Answer(o2, CategoryAnswer(category));
      && o2.next == Goto(NewDishCategory) && o3.next == Goto(NewDishName) && o3.db == db
      && o3.work.DishDraft? && o3.work.category.Some?
      && o3.work.name.None? && o3.work.description.None? && o3.work.price.None?
      && o3.work.restaurant in db.restaurants && Lower(o3.work.restaurant) == Lower(restaurant)
      && o3.work.category.value in db.categories && Lower(o3.work.category.value) == Lower(category)
  {
    var c := FirstMatch(db.categories, category).value;
    var i :| 0 <= i < |db.categories| && db.categories[i] == c && Lower(c) == Lower(category)
             && forall j :: 0 <= j < i ==> Lower(db.categories[j]) != Lower(category);
    assert c in db.categories;
    var o1 := CreateNewDish(data, work, db, env);
    var o2 := Answer(o1, RestaurantAnswer(restaurant));
    assert o2 == RestaurantNewDish(o1.data, o1.work, o1.db, restaurant);
    assert o2.next == Goto(NewDishCategory) && o2.work.DishDraft? && o2.db == db;
    var o3 := Answer(o2, CategoryAnswer(category));
    assert o3 == CategoryNewDish(o2.data, o2.work, o2.db, category);
    assert o3.work == o2.work.(category := Some(c));
  }

  /** Valid name, description and price answers take a draft with a
      category to the photo step with all three stored. */
  lemma DraftFilled(data: UserData, w: Workspace, db: Db, name: string, description: string, price: string)
    requires w.DishDraft? && w.category.Some?
    requires |name| <= NameLength && |description| <= DescriptionLength && PriceText(price)
    ensures var o4 := NameNewDish(data, w, db, name);
            var o5 := Answer(o4, DescriptionAnswer(description));
            var o6 := Answer(o5, PriceAnswer(price));
      && o4.next == Goto(NewDishDescription) && o5.next == Goto(NewDishPrice) && o6.next == Goto(NewDishPhoto)
      && o6.db == db && o6.data == data
      && o6.work == w.(name := Some(name), description := Some(description), price := Some(Price(price)))
  {
    var o4 := NameNewDish(data, w, db, name);
    var o5 := Answer(o4, DescriptionAnswer(description));
    assert o5 == DescriptionNewDish(o4.data, o4.work, o4.db, description);
    var o6 := Answer(o5, PriceAnswer(price));
    assert o6 == PriceNewDish(o5.data, o5.work, o5.db, price);
  }

  /** The first six steps: a manager who picks an existing restaurant and
      category and gives a valid name, description and price reaches the
      photo step with a complete draft, in the stored spellings of
      restaurant and category. */
  lemma DishDraftComplete(data: UserData, work: Workspace, db: Db, env: Env, restaurant: string, category: string,
                          name: string, description: string, price: string)
    requires db.Valid() && db.IsManager(env.user.id)
    requires NameTaken(db, restaurant) && FirstMatch(db.categories, category).Some?
    requires |name| <= NameLength && |description| <= DescriptionLength && PriceText(price)
    ensures var o1 := CreateNewDish(data, work, db, env);
            var o2 := Answer(o1, RestaurantAnswer(restaurant));
            var o3 := Answer(o2, CategoryAnswer(category));
            var o4 := Answer(o3, NameAnswer(name));
            var o5 := Answer(o4, DescriptionAnswer(description));
            var o6 := Answer(o5, PriceAnswer(price));
      && o2.next == Goto(NewDishCategory) && o3.next == Goto(NewDishName)
      && o4.next == Goto(NewDishDescription) && o5.next == Goto(NewDishPrice)
      && o6.next == Goto(NewDishPhoto) && o6.db == db
      && CompleteDraft(o6.work)
      && o6.work.restaurant in db.restaurants && Lower(o6.work.restaurant) == Lower(restaurant)
      && o6.work.category.value in db.categories && Lower(o6.work.category.value) == Lower(category)
      && o6.work.name == Some(name) && o6.work.description == Some(description)
      && o6.work.price == Some(Price(price))
  {
    DraftStarted(data, work, db, env, restaurant, category);
    var o1 := CreateNewDish(data, work, db, env);
    var o2 := Answer(o1, RestaurantAnswer(restaurant));
    var o3 := Answer(o2, CategoryAnswer(category));
    DraftFilled(o3.data, o3.work, o3.db, name, description, price);
    var o4 := Answer(o3, NameAnswer(name));
    assert o4 == NameNewDish(o3.data, o3.work, o3.db, name);
  }

  /** The whole wizard ends with a new visible dish under the next id. */
  lemma DishWizard(data: UserData, work: Workspace, db: Db, env: Env, restaurant: string, category: string,
                   name: string, description: string, price: string, photo: Option<string>)
    requires db.Valid() && db.IsManager(env.user.id)
    requires NameTaken(db, restaurant) && FirstMatch(db.categories, category).Some?
    requires |name| <= NameLength && |description| <= DescriptionLength && PriceText(price)
    ensures var o1 := CreateNewDish(data, work, db, env);
            var o2 := Answer(o1, RestaurantAnswer(restaurant));
            var o3 := Answer(o2, CategoryAnswer(category));
            var o4 := Answer(o3, NameAnswer(name));
            var o5 := Answer(o4, DescriptionAnswer(description));
            var o6 := Answer(o5, PriceAnswer(price));
            var o7 := Answer(o6, PhotoAnswer(photo));
      && o7.next == End && !o7.raised && o7.db.Valid()
      && db.nextDish in o7.db.dishes && o7.db.nextDish == db.nextDish + 1
      && o7.db.dishes[db.nextDish].name == name
      && o7.db.dishes[db.nextDish].description == description
      && o7.db.dishes[db.nextDish].price == Price(price)
      && o7.db.dishes[db.nextDish].enabled
      && o7.db.dishes[db.nextDish].photo == photo
      && o7.db.dishes[db.nextDish].restaurant in db.restaurants
      && Lower(o7.db.dishes[db.nextDish].restaurant) == Lower(restaurant)
      && Lower(o7.db.dishes[db.nextDish].category) == Lower(category)
  {
    DishDraftComplete(data, work, db, env, restaurant, category, name, description, price);
    var o1 := CreateNewDish(data, work, db, env);
    var o2 := Answer(o1, RestaurantAnswer(restaurant));
    var o3 := Answer(o2, CategoryAnswer(category));
    var o4 := Answer(o3, NameAnswer(name));
    var o5 := Answer(o4, DescriptionAnswer(description));
    var o6 := Answer(o5, PriceAnswer(price));
    var o7 := Answer(o6, PhotoAnswer(photo));
    PhotoStep(o6, photo);
  }

  /** The photo answer runs the photo step. */
  lemma PhotoStep(o: MOutcome, photo: Option<string>)
    ensures Answer(o, PhotoAnswer(photo)) == PhotoNewDish(o.data, o.work, o.db, photo)
  {
  }
}
