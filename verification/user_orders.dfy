/** A customer's order list (modules/bot/src/user_orders.py): current and
    past orders, the zero-padded order-number buttons, and the lookup of one
    order by its number. */
module UserOrders {
  import opened Wrappers
  import opened Utility
  import opened Constants
  import opened Config
  import opened Catalog
  import opened Session
  import opened Strings

  /** The orders the list query returns for a user: their own orders with at
      least one line (the query joins the order lines). */
  predicate Listed(db: Db, user: UserId, id: OrderId) {
    id in db.orders && db.orders[id].user == user && db.orders[id].items != map[]
  }

  predicate Descending(ids: seq<OrderId>) {
    forall i, j :: 0 <= i < j < |ids| ==> ids[i] > ids[j]
  }

  /** The listed orders with id at most `top`, newest first. */
  function ListedFrom(db: Db, user: UserId, top: int): (ids: seq<OrderId>)
    ensures forall i :: 0 <= i < |ids| ==> 0 <= ids[i] <= top && Listed(db, user, ids[i])
    ensures forall id :: 0 <= id <= top && Listed(db, user, id) ==> id in ids
    ensures Descending(ids)
    decreases top
  {
    if top < 0 then []
    else (if Listed(db, user, top) then [top] else []) + ListedFrom(db, user, top - 1)
  }

  /** The query result, newest order first; ids grow with time. */
  function UserOrderIds(db: Db, user: UserId): seq<OrderId> {
    ListedFrom(db, user, db.nextOrder - 1)
  }

  /** In a valid database the list holds exactly the user's orders that
      have lines, each once, newest first. */
  lemma UserOrderIdsComplete(db: Db, user: UserId, id: OrderId)
    requires db.Valid()
    ensures id in UserOrderIds(db, user) <==> Listed(db, user, id)
    ensures Descending(UserOrderIds(db, user))
  {
  }

  /** The orders of the list whose status is past (`past`) or not, in
      list order. */
  function Partition(db: Db, ids: seq<OrderId>, past: bool): (part: seq<OrderId>)
    requires forall i :: 0 <= i < |ids| ==> ids[i] in db.orders
    ensures forall id :: id in part <==> id in ids && IsPast(db.orders[id].status) == past
    ensures |part| <= |ids|
  {
    if |ids| == 0 then []
    else
      var rest := Partition(db, ids[1..], past);
      if IsPast(db.orders[ids[0]].status) == past then [ids[0]] + rest else rest
  }

  /** Keeping a subsequence keeps a newest-first list newest first. */
  lemma {:induction false} PartitionDescending(db: Db, ids: seq<OrderId>, past: bool)
    requires forall i :: 0 <= i < |ids| ==> ids[i] in db.orders
    requires Descending(ids)
    ensures Descending(Partition(db, ids, past))
  {
    if |ids| > 0 {
      var tail := ids[1..];
      assert forall i :: 1 <= i < |ids| ==> ids[i] == tail[i - 1];
      PartitionDescending(db, tail, past);
      var rest := Partition(db, tail, past);
      forall i | 0 <= i < |rest|
        ensures rest[i] < ids[0]
      {
        assert rest[i] in tail;
        var k :| 0 <= k < |tail| && tail[k] == rest[i];
        assert ids[k + 1] == rest[i];
      }
      if IsPast(db.orders[ids[0]].status) == past {
        DescendingCons(ids[0], rest);
      }
    }
  }

  lemma DescendingCons(top: OrderId, rest: seq<OrderId>)
    requires Descending(rest)
    requires forall i :: 0 <= i < |rest| ==> rest[i] < top
    ensures Descending([top] + rest)
  {
    var part := [top] + rest;
    forall i, j | 0 <= i < j < |part|
      ensures part[i] > part[j]
    {
      assert part[j] == rest[j - 1];
      if i > 0 {
        assert part[i] == rest[i - 1];
      }
    }
  }

  /** The split is complete and disjoint, and both lists keep the query's
      newest-first order. */
  lemma PartitionSplits(db: Db, ids: seq<OrderId>, id: OrderId)
    requires forall i :: 0 <= i < |ids| ==> ids[i] in db.orders
    requires Descending(ids)
    ensures id in ids <==> id in Partition(db, ids, true) || id in Partition(db, ids, false)
    ensures !(id in Partition(db, ids, true) && id in Partition(db, ids, false))
    ensures Descending(Partition(db, ids, true)) && Descending(Partition(db, ids, false))
  {
    PartitionDescending(db, ids, true);
    PartitionDescending(db, ids, false);
  }

  /** The number buttons of a list of orders. */
  function Labels(ids: seq<OrderId>): (labels: seq<string>)
    requires forall i :: 0 <= i < |ids| ==> ids[i] >= 0
    ensures |labels| == |ids|
    ensures forall i :: 0 <= i < |ids| ==> labels[i] == Pad2(ids[i])
  {
    seq(|ids|, i requires 0 <= i < |ids| => Pad2(ids[i]))
  }

  /** More past orders than this go out as a document. */
  const MaxPastInImage: int := 10

  /** showOrders: a user without listed orders gets "no orders" and the
      state stays. Otherwise the past orders (as a document when more than
      ten, else as an image), then the current ones, then the keyboard of
      order numbers three per row under "back to menu"; the state becomes
      USER_ORDERS. */
  function ShowOrders(data: UserData, db: Db, env: Env): (o: Outcome)
    requires db.Valid()
    ensures o.data == data && o.db == db && !o.raised
    ensures UserOrderIds(db, env.user.id) == [] ==> o.next == Stay && o.effects == [Reply(NoPastOrders)]
    ensures UserOrderIds(db, env.user.id) != [] ==>
              var ids := UserOrderIds(db, env.user.id);
              var past := Partition(db, ids, true);
              var current := Partition(db, ids, false);
              && o.next == Goto(UserOrderList)
              && o.effects == (if past == [] then [] else [OrdersTable(true, |past| > MaxPastInImage, past)])
                              + (if current == [] then [] else [OrdersTable(false, false, current)])
                              + [ReplyKeyboard(EnterOrder, BackToMenuKeyboard + ListSplit(Labels(ids), 3))]
  {
    var ids := UserOrderIds(db, env.user.id);
    if ids == [] then Done(Stay, data, db, [Reply(NoPastOrders)])
    else
      var past := Partition(db, ids, true);
      var current := Partition(db, ids, false);
      Done(Goto(UserOrderList), data, db,
           (if past == [] then [] else [OrdersTable(true, |past| > MaxPastInImage, past)])
           + (if current == [] then [] else [OrdersTable(false, false, current)])
           + [ReplyKeyboard(EnterOrder, BackToMenuKeyboard + ListSplit(Labels(ids), 3))])
  }

  /** showSingleOrder: the order with that number, if it is the sender's,
      as a table; "not found" otherwise. An order without lines raises (its
      first line names the restaurant), and so does a text `int` rejects. */
  function ShowSingleOrder(data: UserData, db: Db, env: Env, text: string): (o: Outcome)
    ensures o.data == data && o.db == db && o.next == Stay
    ensures o.raised <==> o.effects == []
    ensures o.effects == [] || o.effects == [Reply(OrderNotFound)]
            || (AllDigits(text) && o.effects == [OrderDetails(Value(text))])
    ensures AllDigits(text) && text != "" ==>
              var id := Value(text);
              && (o.effects == [OrderDetails(id)] <==> Listed(db, env.user.id, id))
              && (o.effects == [Reply(OrderNotFound)] <==> id !in db.orders || db.orders[id].user != env.user.id)
  {
    if !AllDigits(text) || text == "" then Raise(data, db, [])
    else
      var id := Value(text);
      if id in db.orders && db.orders[id].user == env.user.id then
        if db.orders[id].items == map[] then Raise(data, db, [])
        else Done(Stay, data, db, [OrderDetails(id)])
      else Done(Stay, data, db, [Reply(OrderNotFound)])
  }

  /** Every order-number button showOrders offers opens that very order. */
  lemma ButtonsOpenTheirOrders(data: UserData, db: Db, env: Env, i: int)
    requires db.Valid()
    requires 0 <= i < |UserOrderIds(db, env.user.id)|
    ensures var ids := UserOrderIds(db, env.user.id);
            var button := Labels(ids)[i];
            button in Flatten(ListSplit(Labels(ids), 3))
            && ShowSingleOrder(data, db, env, button).effects == [OrderDetails(ids[i])]
  {
    var ids := UserOrderIds(db, env.user.id);
    ListSplitConcat(Labels(ids), 3);
    PaddedRoundTrip(ids[i]);
  }
}
