/** The lobby screens of modules/bot/src/lobby.py. */
module Lobby {
  import opened Utility
  import opened Constants
  import opened Config
  import opened Catalog
  import opened Session
  import opened RestaurantScreen

  /** The enabled restaurants, in table row order. */
  function EnabledNames(names: seq<string>, db: Db): (r: seq<string>)
    requires forall i :: 0 <= i < |names| ==> names[i] in db.restaurants
    ensures forall n :: n in r <==> n in names && db.restaurants[n].enabled
    ensures |r| <= |names|
  {
    if |names| == 0 then []
    else
      var rest := EnabledNames(names[1..], db);
      if db.restaurants[names[0]].enabled then [names[0]] + rest else rest
  }

  /** showRestaurants: the restaurant keyboard offers every enabled
      restaurant and nothing else, at most two per row, followed by the
      restaurant navigation rows; the next state is RESTAURANT. */
  function ShowRestaurants(data: UserData, db: Db, text: string): (o: Outcome)
    requires db.Valid()
    ensures o.next == Goto(RestaurantList) && o.data == data && o.db == db && !o.raised
    ensures |o.effects| == 1 && o.effects[0].NamedKeyboard? && o.effects[0].text == text
    ensures var rows := o.effects[0].rows;
            && |rows| >= |RestaurantKeyboard|
            && rows[|rows| - |RestaurantKeyboard|..] == RestaurantKeyboard
            && (forall n :: n in Flatten(rows[..|rows| - |RestaurantKeyboard|]) <==> RestaurantFilter(db, n))
            && (forall k :: 0 <= k < |rows| - |RestaurantKeyboard| ==> 0 < |rows[k]| <= 2)
  {
    var names := EnabledNames(db.listing, db);
    var grid := ListSplit(names, 2);
    ListSplitConcat(names, 2);
    ListSplitRows(names, 2);
    assert (grid + RestaurantKeyboard)[..|grid|] == grid;
    Done(Goto(RestaurantList), data, db, [NamedKeyboard(text, grid + RestaurantKeyboard)])
  }

  /** showAboutUs: the "about us" text; the state does not change. */
  function ShowAboutUs(data: UserData, db: Db): (o: Outcome)
    ensures o.next == Stay && o.data == data && o.db == db && !o.raised
    ensures o.effects == [Reply(AboutUsText)]
  {
    Done(Stay, data, db, [Reply(AboutUsText)])
  }
}
