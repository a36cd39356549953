/** The generic handlers of modules/bot/src/default.py: /start, /cancel,
    any other command, and /help. */
module Default {
  import opened Wrappers
  import opened Constants
  import opened Config
  import opened Catalog
  import opened Session

  /** The user row after /start: a new user gets the Telegram fields and no
      permissions; a known user has the three name fields refreshed and keeps
      the permissions. */
  function Registered(db: Db, u: TgUser): (r: User)
    ensures r.username == u.username && r.firstName == u.firstName && r.lastName == u.lastName
    ensures u.id in db.users ==> r.admin == db.users[u.id].admin && r.manager == db.users[u.id].manager
    ensures u.id !in db.users ==> !r.admin && !r.manager
  {
    if u.id in db.users then
      db.users[u.id].(username := u.username, firstName := u.firstName, lastName := u.lastName)
    else User(u.username, u.firstName, u.lastName, false, false)
  }

  /** startHandler: a bot account is ignored. Otherwise the user row is
      created (with a welcome text) or refreshed, the lobby keyboard is
      sent and the state becomes LOBBY; the session data is left alone, so
      a cart survives going back to the menu. */
  function StartHandler(data: UserData, db: Db, env: Env): (o: Outcome)
    ensures o.data == data && !o.raised
    ensures env.user.isBot ==> o.next == Stay && o.db == db && o.effects == []
    ensures !env.user.isBot ==>
              && o.next == Goto(Lobby)
              && o.db == db.(users := db.users[env.user.id := Registered(db, env.user)])
              && o.effects == (if env.user.id in db.users then [] else [Reply(Welcome)])
                              + [ReplyKeyboard(InputValue, LobbyKeyboard)]
  {
    if env.user.isBot then Done(Stay, data, db, [])
    else
      var welcome := if env.user.id in db.users then [] else [Reply(Welcome)];
      Done(Goto(Lobby), data, db.(users := db.users[env.user.id := Registered(db, env.user)]),
           welcome + [ReplyKeyboard(InputValue, LobbyKeyboard)])
  }

  /** Running /start twice in a row changes nothing more than running it
      once, apart from the messages. */
  lemma StartIdempotent(data: UserData, db: Db, env: Env)
    ensures var once := StartHandler(data, db, env);
            StartHandler(once.data, once.db, env).db == once.db
  {
    var once := StartHandler(data, db, env);
    if !env.user.isBot {
      assert once.db.users[env.user.id] == Registered(db, env.user);
      assert once.db.users[env.user.id := Registered(once.db, env.user)] == once.db.users;
    }
  }

  /** cancelHandler: the session is cleared and the conversation ends. */
  function CancelHandler(data: UserData, db: Db): (o: Outcome)
    ensures o.data == Cleared && o.db == db && o.next == End && !o.raised
    ensures o.effects == [Reply(ComeAgain)]
  {
    Done(End, Cleared, db, [Reply(ComeAgain)])
  }

  /** endConversation: as /cancel, without a message. */
  function EndConversation(data: UserData, db: Db): (o: Outcome)
    ensures o.data == Cleared && o.db == db && o.next == End && !o.raised && o.effects == []
  {
    Done(End, Cleared, db, [])
  }

  /** helpMessage: the user help, then the manager help exactly when the
      sender is a manager; a bot account gets nothing. */
  function HelpMessage(data: UserData, db: Db, env: Env): (o: Outcome)
    ensures o.data == data && o.db == db && o.next == Stay && !o.raised
    ensures env.user.isBot ==> o.effects == []
    ensures !env.user.isBot ==> |o.effects| >= 1 && o.effects[0] == Reply(HelpUser)
    ensures Reply(HelpManager) in o.effects <==> !env.user.isBot && db.IsManager(env.user.id)
  {
    if env.user.isBot then Done(Stay, data, db, [])
    else if db.IsManager(env.user.id) then Done(Stay, data, db, [Reply(HelpUser), Reply(HelpManager)])
    else Done(Stay, data, db, [Reply(HelpUser)])
  }
}
