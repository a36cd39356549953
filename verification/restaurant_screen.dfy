/** Choosing a restaurant (modules/bot/src/restaurant.py): the filter on the
    typed name, the opening-hours check with its optional notice, and the
    session updates of showDishCategories. */
module RestaurantScreen {
  import opened Wrappers
  import opened Constants
  import opened Config
  import opened Availability
  import opened Catalog
  import opened Session

  /** RestaurantFilter: the text names an enabled restaurant. */
  predicate RestaurantFilter(db: Db, text: string) {
    text in db.restaurants && db.restaurants[text].enabled
  }

  /** The result of isRestaurantWorking and what it sent on the way. */
  datatype Check = Check(works: bool, effects: seq<Effect>, raised: bool)

  /** isRestaurantWorking. With `alert`, a closed restaurant that has
      schedule rows sends the "closed now" notice, which raises when a stored
      day has no weekday name. */
  function IsRestaurantWorking(db: Db, name: string, clock: Clock, alert: bool): (c: Check)
    ensures c.works <==> db.Works(name, clock)
    ensures c.works ==> c.effects == [] && !c.raised
    ensures !alert ==> c.effects == [] && !c.raised
    ensures c.effects != [] <==> alert && !c.works && |db.ScheduleOf(name)| > 0 && !c.raised
    ensures c.raised <==> alert && !c.works && |db.ScheduleOf(name)| > 0 && ClosedNotice(db.ScheduleOf(name)).None?
    ensures c.effects != [] ==> c.effects == [ClosedHours(ClosedNotice(db.ScheduleOf(name)).value)]
  {
    var schedule := db.ScheduleOf(name);
    if |schedule| == 0 then Check(false, [], false)
    else
      var works := db.Works(name, clock);
      if works || !alert then Check(works, [], false)
      else
        match ClosedNotice(schedule)
        case None => Check(false, [], true)
        case Some(lines) => Check(false, [ClosedHours(lines)], false)
  }

  /** The categories of the enabled dishes a restaurant has. */
  function CategoriesOf(db: Db, name: string): (cats: set<string>)
    ensures forall c :: c in cats <==>
              exists d :: d in db.dishes && db.dishes[d].restaurant == name && db.dishes[d].enabled
                          && db.dishes[d].category == c
  {
    set d | d in db.dishes && db.dishes[d].restaurant == name && db.dishes[d].enabled :: db.dishes[d].category
  }

  /** showDishCategories: remembers the chosen restaurant and its
      categories, keeps an existing cart (creating an empty one only when
      there is none) and moves to DISH. The opening-hours notice comes first;
      when it raises, nothing of the session is changed. */
  function ShowDishCategories(data: UserData, db: Db, env: Env, text: string): (o: Outcome)
    ensures o.db == db
    ensures var check := IsRestaurantWorking(db, text, env.clock, true);
            && (check.raised ==> o.raised && o.data == data)
            && (!check.raised ==>
                  && !o.raised
                  && o.next == Goto(DishList)
                  && o.data.restaurantName == Some(text)
                  && o.data.dishCategories == Some(CategoriesOf(db, text))
                  && (data.cart.Some? ==> o.data.cart == data.cart)
                  && (data.cart.None? ==> o.data.cart == Some(EmptyCart))
                  && o.effects == check.effects + [CategoryMenu(text, CategoriesOf(db, text))])
  {
    var check := IsRestaurantWorking(db, text, env.clock, true);
    if check.raised then Raise(data, db, check.effects)
    else
      var cats := CategoriesOf(db, text);
      var cart := if data.cart.None? then Some(EmptyCart) else data.cart;
      Done(Goto(DishList), data.(restaurantName := Some(text), dishCategories := Some(cats), cart := cart),
           db, check.effects + [CategoryMenu(text, cats)])
  }
}
