/** Order requests in the notification chat (modules/bot/src/notification.py):
    where a request is sent, and the confirm/cancel buttons managers press. */
module Notification {
  import opened Wrappers
  import opened Constants
  import opened Catalog
  import opened Session
  import opened Strings

  /** The chat an order request goes to: the notification chat when the bot
      is a member, the developer otherwise (also when the lookup fails). */
  function RequestChat(lookup: ChatLookup): (chat: Chat)
    ensures chat == NotificationChat <==> lookup == InChat
  {
    if lookup == InChat then NotificationChat else DeveloperChat
  }

  /** The buttons of an order request. */
  function RequestButtons(order: OrderId): seq<seq<Callback>> {
    [[OrderConfirm(order), OrderCancel(order)]]
  }

  /** One request row per order line: name, quantity and unit price. */
  function RequestLines(db: Db, items: map<DishId, int>): (lines: map<DishId, RequestLine>)
    ensures forall d :: d in lines <==> d in items && d in db.dishes
    ensures forall d :: d in lines ==> lines[d].quantity == items[d]
  {
    map d | d in items && d in db.dishes :: RequestLine(db.dishes[d].name, items[d], db.dishes[d].price)
  }

  /** The result of sendOrderRequest and what it sent on the way. */
  datatype Sent = Sent(effects: seq<Effect>, raised: bool)

  /** sendOrderRequest: reads the order back and splits its location, takes
      the restaurant from the order's first line, then sends the request to
      the chosen chat, after a diagnostic to the developer whenever that
      chat is not the notification chat, and finally the location pin. A
      missing order or one without lines raises before anything is sent; a
      location without a second part raises only at the pin, after the
      request went out. */
  function SendOrderRequest(db: Db, order: OrderId, lookup: ChatLookup): (s: Sent)
    ensures s.raised <==> (|| order !in db.orders
                           || db.orders[order].items == map[]
                           || |Split(db.orders[order].location, ',')| < 2)
    ensures order !in db.orders || db.orders[order].items == map[] ==> s.effects == []
    ensures order in db.orders && db.orders[order].items != map[] ==>
              var chat := RequestChat(lookup);
              var parts := Split(db.orders[order].location, ',');
              s.effects == (if chat == NotificationChat then [] else [Diagnostic(DeveloperChat)])
                           + [OrderRequest(chat, order, RequestLines(db, db.orders[order].items), RequestButtons(order))]
                           + (if |parts| < 2 then [] else [OrderLocation(chat, parts[0], parts[1])])
  {
    if order !in db.orders then Sent([], true)
    else
      var o := db.orders[order];
      var parts := Split(o.location, ',');
      if o.items == map[] then Sent([], true)
      else
        var chat := RequestChat(lookup);
        var diagnostic := if chat == NotificationChat then [] else [Diagnostic(DeveloperChat)];
        var request := diagnostic + [OrderRequest(chat, order, RequestLines(db, o.items), RequestButtons(order))];
        if |parts| < 2 then Sent(request, true)
        else Sent(request + [OrderLocation(chat, parts[0], parts[1])], false)
  }

  /** The status a request button sets: ORDER_STATUSES[1] to confirm,
      ORDER_STATUSES[-1] to cancel; any other payload has none. */
  function Decision(cb: Callback): (s: Option<Status>)
    ensures s.Some? <==> cb.OrderConfirm? || cb.OrderCancel?
    ensures cb.OrderConfirm? ==> s == Some(InProgress)
    ensures cb.OrderCancel? ==> s == Some(Cancelled)
  {
    match cb
    case OrderConfirm(_) => Some(ConfirmedStatus)
    case OrderCancel(_) => Some(CancelledStatus)
    case _ => None
  }

  /** requestButton: a non-manager gets an alert and nothing changes; a
      manager's press sets the status and makes the presser the order's
      manager, whatever the status was. A payload that is no request button
      raises, and so does a missing order. */
  function RequestButton(data: UserData, db: Db, env: Env, cb: Callback): (o: Outcome)
    ensures o.data == data && o.next == Stay
    ensures Decision(cb).None? ==> o.raised && o.db == db && o.effects == []
    ensures Decision(cb).Some? && !db.IsManager(env.user.id) ==>
              !o.raised && o.db == db && o.effects == [Alert(NotManager)]
    ensures Decision(cb).Some? && db.IsManager(env.user.id) && cb.order !in db.orders ==>
              o.raised && o.db == db
    ensures Decision(cb).Some? && db.IsManager(env.user.id) && cb.order in db.orders ==>
              && !o.raised
              && o.db == db.(orders := db.orders[cb.order := db.orders[cb.order].(status := Decision(cb).value,
                                                                                   manager := Some(env.user.id))])
              && o.effects == [EditButtons([])]
  {
    match Decision(cb)
    case None => Raise(data, db, [])
    case Some(status) =>
      if !db.IsManager(env.user.id) then Done(Stay, data, db, [Alert(NotManager)])
      else if cb.order !in db.orders then Raise(data, db, [])
      else
        var order := db.orders[cb.order].(status := status, manager := Some(env.user.id));
        Done(Stay, data, db.(orders := db.orders[cb.order := order]), [EditButtons([])])
  }

  /** Pressing the same request button again changes nothing further. */
  lemma RequestButtonIdempotent(data: UserData, db: Db, env: Env, cb: Callback)
    ensures var once := RequestButton(data, db, env, cb);
            RequestButton(once.data, once.db, env, cb).db == once.db
  {
    var once := RequestButton(data, db, env, cb);
    if Decision(cb).Some? && db.IsManager(env.user.id) && cb.order in db.orders {
      assert once.db.IsManager(env.user.id);
      assert once.db.orders[cb.order := once.db.orders[cb.order].(status := Decision(cb).value,
                                                                   manager := Some(env.user.id))]
             == once.db.orders;
    }
  }

  /** A press only ever touches the one order it names, and only its status
      and manager. */
  lemma RequestButtonTouchesOneOrder(data: UserData, db: Db, env: Env, cb: Callback, other: OrderId)
    requires Decision(cb).Some? && other != cb.order
    ensures var o := RequestButton(data, db, env, cb);
            && o.db.users == db.users && o.db.restaurants == db.restaurants && o.db.dishes == db.dishes
            && (other in o.db.orders <==> other in db.orders)
            && (other in db.orders ==> o.db.orders[other] == db.orders[other])
            && (cb.order in db.orders ==>
                  && o.db.orders[cb.order].user == db.orders[cb.order].user
                  && o.db.orders[cb.order].items == db.orders[cb.order].items
                  && o.db.orders[cb.order].location == db.orders[cb.order].location)
  {
  }

  /** The handshake keyboard holds exactly its two buttons. */
  lemma HandshakeButtons(id: OrderId)
    ensures Flat(RequestButtons(id)) == {OrderConfirm(id), OrderCancel(id)}
  {
    var rows := RequestButtons(id);
    assert rows[1..] == [];
  }

  /** The request and its location pin show the handshake buttons only. */
  lemma RequestAndPinIssueHandshake(chat: Chat, id: OrderId, lines: map<DishId, RequestLine>, latitude: string, longitude: string)
    ensures Issued([OrderRequest(chat, id, lines, RequestButtons(id))] + [OrderLocation(chat, latitude, longitude)])
            == {OrderConfirm(id), OrderCancel(id)}
  {
    var request := OrderRequest(chat, id, lines, RequestButtons(id));
    var location := OrderLocation(chat, latitude, longitude);
    IssuedOne(request);
    IssuedOne(location);
    HandshakeButtons(id);
    IssuedConcat([request], [location]);
  }

  /** A request without its pin still shows the handshake buttons. */
  lemma RequestIssuesHandshakeUnpinned(chat: Chat, id: OrderId, lines: map<DishId, RequestLine>)
    ensures var diagnostic: seq<Effect> := if chat == NotificationChat then [] else [Diagnostic(DeveloperChat)];
      Issued(diagnostic + [OrderRequest(chat, id, lines, RequestButtons(id))]) == {OrderConfirm(id), OrderCancel(id)}
  {
    var diagnostic: seq<Effect> := if chat == NotificationChat then [] else [Diagnostic(DeveloperChat)];
    var request := OrderRequest(chat, id, lines, RequestButtons(id));
    IssuedOne(request);
    HandshakeButtons(id);
    NothingIssued(diagnostic);
    IssuedConcat(diagnostic, [request]);
  }

  /** A request with its pin shows the handshake buttons only. */
  lemma RequestIssuesHandshakePinned(chat: Chat, id: OrderId, lines: map<DishId, RequestLine>, latitude: string, longitude: string)
    ensures var diagnostic: seq<Effect> := if chat == NotificationChat then [] else [Diagnostic(DeveloperChat)];
      Issued(diagnostic + [OrderRequest(chat, id, lines, RequestButtons(id))] + [OrderLocation(chat, latitude, longitude)])
      == {OrderConfirm(id), OrderCancel(id)}
  {
    var diagnostic: seq<Effect> := if chat == NotificationChat then [] else [Diagnostic(DeveloperChat)];
    var rest := [OrderRequest(chat, id, lines, RequestButtons(id))] + [OrderLocation(chat, latitude, longitude)];
    RequestAndPinIssueHandshake(chat, id, lines, latitude, longitude);
    NothingIssued(diagnostic);
    IssuedConcat(diagnostic, rest);
    assert diagnostic + [OrderRequest(chat, id, lines, RequestButtons(id))] + [OrderLocation(chat, latitude, longitude)]
           == diagnostic + rest;
  }

  /** An order request carries exactly the two handshake buttons of its
      order whenever the order exists and has lines, including when only
      the location pin fails; otherwise nothing is sent. */
  lemma RequestIssuesHandshake(db: Db, id: OrderId, lookup: ChatLookup)
    ensures var sent := SendOrderRequest(db, id, lookup);
      Issued(sent.effects) == if id in db.orders && db.orders[id].items != map[] then {OrderConfirm(id), OrderCancel(id)} else {}
  {
    var sent := SendOrderRequest(db, id, lookup);
    if id !in db.orders || db.orders[id].items == map[] {
      NothingIssued(sent.effects);
    } else {
      var chat := RequestChat(lookup);
      var parts := Split(db.orders[id].location, ',');
      var lines := RequestLines(db, db.orders[id].items);
      if |parts| < 2 {
        RequestIssuesHandshakeUnpinned(chat, id, lines);
      } else {
        RequestIssuesHandshakePinned(chat, id, lines, parts[0], parts[1]);
      }
    }
  }
}
