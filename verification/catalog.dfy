/** The database of modules/database/config.py as abstract maps: users,
    restaurants with their weekly schedule, dishes, categories and orders. */
module Catalog {
  import opened Wrappers
  import opened Constants
  import opened Availability

  type UserId = int
  type DishId = int
  type OrderId = int

  /** A price as the source stores it (a float). Prices are carried around
      and displayed, never compared, so they stay opaque. */
  datatype Price = Price(repr: string)

  datatype User = User(username: Option<string>, firstName: string, lastName: Option<string>,
                       admin: bool, manager: bool)

  datatype Restaurant = Restaurant(enabled: bool, currency: string, schedule: Schedule)

  datatype Dish = Dish(name: string, restaurant: string, category: string, description: string,
                       price: Price, enabled: bool, photo: Option<string>)

  /** An order with its CartDish rows folded in as dish id -> quantity. */
  datatype Order = Order(user: UserId, manager: Option<UserId>, status: Status, location: string,
                         items: map<DishId, int>)

  /** `listing` and `categories` are the restaurant and dish category
      tables in row order: the order an unordered SELECT returns them in.
      Ids are handed out in increasing order, so a larger order id is a
      later order. */
  datatype Db = Db(users: map<UserId, User>, restaurants: map<string, Restaurant>, listing: seq<string>,
                   dishes: map<DishId, Dish>, categories: seq<string>, orders: map<OrderId, Order>,
                   nextOrder: OrderId, nextDish: DishId)
  {
    /** The row order lists every restaurant exactly once, category names
        are unique (the column is declared unique), and the next ids of the
        two id sequences lie above every id handed out. */
    predicate Valid() {
      && (forall i :: 0 <= i < |listing| ==> listing[i] in restaurants)
      && (forall r :: r in restaurants ==> r in listing)
      && (forall i, j :: 0 <= i < j < |listing| ==> listing[i] != listing[j])
      && (forall i, j :: 0 <= i < j < |categories| ==> categories[i] != categories[j])
      && (forall o :: o in orders ==> 0 <= o < nextOrder)
      && (forall d :: d in dishes ==> 0 <= d < nextDish)
      && 0 <= nextOrder && 0 <= nextDish
    }

    predicate IsManager(id: UserId) {
      id in users && users[id].manager
    }

    predicate IsAdmin(id: UserId) {
      id in users && users[id].admin
    }

    /** Nobody holds admin rights without manager rights. */
    predicate AdminsAreManagers() {
      forall id :: id in users && users[id].admin ==> users[id].manager
    }

    /** The schedule rows the source reads: those of the restaurant with
        this name, but only while it is enabled. */
    function ScheduleOf(name: string): (s: Schedule)
      ensures name !in restaurants || !restaurants[name].enabled ==> s == map[]
      ensures name in restaurants && restaurants[name].enabled ==> s == restaurants[name].schedule
    {
      if name in restaurants && restaurants[name].enabled then restaurants[name].schedule else map[]
    }

    /** Whether a restaurant takes orders at the given local clock. */
    predicate Works(name: string, clock: Clock) {
      WorksAt(ScheduleOf(name), DayOfWeek(clock.weekday), clock.time)
    }
  }

  /** An unknown or disabled restaurant never works. */
  lemma DisabledNeverWorks(db: Db, name: string, clock: Clock)
    requires name !in db.restaurants || !db.restaurants[name].enabled
    ensures !db.Works(name, clock)
  {
  }
}
