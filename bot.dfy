/** bot/bot.go: the Telegram bot. Commands are dispatched on the prefix of the message
    text; each handler consults the repository and answers with a list of messages to the
    chat. Once a day the bot greets the subscribers of every user whose birthday it is. */
module Bot {
  import opened Wrappers
  import opened Users
  import opened Repo
  import RepoFacts
  import opened Strings

  /** `update.Message.From`: the sender's Telegram id and username (without the `@`). */
  datatype Sender = Sender(id: int, userName: string)

  /** The parts of `tgbotapi.Message` the handlers read. */
  datatype Message = Message(chatID: int, text: string, from: Sender)

  /** `tgbotapi.Update`; `message` is `None` for updates that carry no message. */
  datatype Update = Update(message: Option<Message>)

  /** `tgbotapi.NewMessage(chatID, text)`. */
  datatype Reply = Reply(chatID: int, text: string)

  /** The keys of `commandHandlers`. */
  datatype Command = SubscribeCmd | UnsubscribeCmd | StartCmd | UsersCmd

  function Name(c: Command): string {
    match c
    case SubscribeCmd => "/subscribe"
    case UnsubscribeCmd => "/unsubscribe"
    case StartCmd => "/start"
    case UsersCmd => "/users"
  }

  /** An order in which `range commandHandlers` may visit the map: every command once. */
  predicate IsOrder(order: seq<Command>) {
    |order| == 4 && forall c: Command :: c in order
  }

  /** The first command, in visiting order, whose name prefixes `text`. */
  function Dispatch(order: seq<Command>, text: string): (r: Option<Command>)
    ensures r.None? <==> forall c <- order :: !HasPrefix(text, Name(c))
    ensures r.Some? ==> r.value in order && HasPrefix(text, Name(r.value))
  {
    if order == [] then None
    else if HasPrefix(text, Name(order[0])) then Some(order[0])
    else Dispatch(order[1..], text)
  }

  /** No command name is a prefix of another, so at most one command matches a text. */
  lemma AtMostOneCommand(text: string, c: Command, d: Command)
    requires HasPrefix(text, Name(c)) && HasPrefix(text, Name(d))
    ensures c == d
  {
    // Any two distinct names already differ in their second or third character.
    assert text[1] == Name(c)[1] && text[2] == Name(c)[2];
    assert text[1] == Name(d)[1] && text[2] == Name(d)[2];
  }

  /** Hence the command run does not depend on the map's iteration order. */
  lemma DispatchIgnoresOrder(o1: seq<Command>, o2: seq<Command>, text: string)
    requires IsOrder(o1) && IsOrder(o2)
    ensures Dispatch(o1, text) == Dispatch(o2, text)
  {
    var r1, r2 := Dispatch(o1, text), Dispatch(o2, text);
    if r1.Some? && r2.Some? {
      AtMostOneCommand(text, r1.value, r2.value);
    }
  }

  /** The text from byte `offset` on, as `update.Message.Text[offset:]` slices it; `None`
      where the slice is out of range, which panics in Go. */
  function ArgumentAsWritten(text: string, offset: nat): Option<string> {
    if offset <= |text| then Some(text[offset..]) else None
  }

  /** The argument read with a bounds check: a text too short to hold one is an empty,
      hence unparsable, argument. */
  function Argument(text: string, offset: nat): (arg: string)
    ensures ArgumentAsWritten(text, offset).Some? ==> arg == ArgumentAsWritten(text, offset).value
    ensures ArgumentAsWritten(text, offset).None? ==> arg == ""
  {
    if offset <= |text| then text[offset..] else ""
  }

  /** Where the id starts: one character past `/subscribe` and `/unsubscribe`. */
  function Offset(c: Command): nat {
    match c
    case SubscribeCmd => 11
    case UnsubscribeCmd => 13
    case _ => 0
  }

  /** What the handlers may be told by the repository beyond its tables: a driver error
      on a query or `UPDATE`, and a refused `INSERT` or `DELETE` on `subscribes`. */
  datatype Faults = Faults(query: Option<string>, rejected: bool)

  function Confirmation(typeOf: int): string {
    if typeOf == 1 then "Вы подписались на " else "Вы отписались от "
  }

  /** `subscribeHandler` (mode 1) and `unsubscribeHandler` (mode 0) once the argument has
      been cut from the text: parse it, find the sender by `"@" + UserName`, then
      `Subscribe(id, sender.ID, mode)`; the first failing step answers with its error. */
  function SubscriptionStep(t: Tables, msg: Message, typeOf: int, arg: string, rejected: bool): (s: Step<seq<Reply>>)
    ensures |s.result| == 1 && s.result[0].chatID == msg.chatID
  {
    match Atoi(arg)
    case Err(e) => Step([Reply(msg.chatID, e)], t)
    case Ok(id) =>
      match GetUserByTelegram(t, "@" + msg.from.userName)
      case Err(e) => Step([Reply(msg.chatID, ErrorText(e))], t)
      case Ok(sender) =>
        var sub := SubscribeStep(t, id, sender.id, typeOf, rejected);
        match sub.result
        case Err(e) => Step([Reply(msg.chatID, ErrorText(e))], sub.after)
        case Ok(target) => Step([Reply(msg.chatID, Confirmation(typeOf) + target.telegram)], sub.after)
  }

  const Welcome: string :=
    "Добро пожаловать. Напишите /users, чтобы увидеть всех пользователей.\n" +
    "Напишите /subscribe или /unsubscribe, а после id для подписки отписки на пользователя.\n" +
    "Например, /subscribe 1"

  /** `startHandler`: bind the sender's chat to the account with the sender's handle,
      then answer with the error or the welcome text. */
  function StartStep(t: Tables, msg: Message, fault: Option<string>): (s: Step<seq<Reply>>)
    ensures |s.result| == 1 && s.result[0].chatID == msg.chatID
  {
    var u := UpdateUserStep(t, msg.from.id, msg.from.userName, fault);
    match u.result
    case Some(e) => Step([Reply(msg.chatID, ErrorText(e))], u.after)
    case None => Step([Reply(msg.chatID, Welcome)], u.after)
  }

  /** One line of the `/users` answer. */
  function UserLine(u: User): string {
    "ID: " + FormatInt(u.id) + " ФИО: " + u.firstName + " " + u.middleName + " " + u.lastName
    + " " + u.birthday + " " + u.telegram
  }

  /** `usersListHandler`: one message per listed user, none at all when `GetUsers` fails. */
  function UsersReplies(t: Tables, msg: Message, fault: Option<string>): seq<Reply> {
    match UsersQuery(t, fault)
    case Err(_) => []
    case Ok(users) => seq(|users|, i requires 0 <= i < |users| => Reply(msg.chatID, UserLine(users[i])))
  }

  /** The handler of a command, given the argument cut from the text. */
  function Run(c: Command, msg: Message, t: Tables, faults: Faults, arg: string): Step<seq<Reply>> {
    match c
    case SubscribeCmd => SubscriptionStep(t, msg, 1, arg, faults.rejected)
    case UnsubscribeCmd => SubscriptionStep(t, msg, 0, arg, faults.rejected)
    case StartCmd => StartStep(t, msg, faults.query)
    case UsersCmd => Step(UsersReplies(t, msg, faults.query), t)
  }

  /** `updateHandler` with the bounds-checked argument. */
  function Handle(update: Update, order: seq<Command>, t: Tables, faults: Faults): Step<seq<Reply>> {
    match update.message
    case None => Step([], t)
    case Some(msg) =>
      match Dispatch(order, msg.text)
      case None => Step([], t)
      case Some(c) => Run(c, msg, t, faults, Argument(msg.text, Offset(c)))
  }

  /** `updateHandler` as written: `None` where slicing the argument panics. */
  function HandleAsWritten(update: Update, order: seq<Command>, t: Tables, faults: Faults): Option<Step<seq<Reply>>> {
    match update.message
    case None => Some(Step([], t))
    case Some(msg) =>
      match Dispatch(order, msg.text)
      case None => Some(Step([], t))
      case Some(c) =>
        if c == StartCmd || c == UsersCmd then Some(Run(c, msg, t, faults, ""))
        else match ArgumentAsWritten(msg.text, Offset(c))
          case None => None
          case Some(arg) => Some(Run(c, msg, t, faults, arg))
  }

  /** The handler panics exactly on a bare `/subscribe` or `/unsubscribe`; everywhere else
      it behaves as the bounds-checked handler. */
  lemma {:induction false} PanicsOnlyOnBareCommand(update: Update, order: seq<Command>, t: Tables, faults: Faults)
    requires IsOrder(order)
    ensures HandleAsWritten(update, order, t, faults).None? <==>
      update.message.Some? && update.message.value.text in {Name(SubscribeCmd), Name(UnsubscribeCmd)}
    ensures HandleAsWritten(update, order, t, faults).Some? ==>
      HandleAsWritten(update, order, t, faults).value == Handle(update, order, t, faults)
  {
    if update.message.Some? {
      var msg := update.message.value;
      var text := msg.text;
      var r := Dispatch(order, text);
      if r.Some? {
        var c := r.value;
        if text == Name(SubscribeCmd) {
          assert HasPrefix(text, Name(SubscribeCmd));
          AtMostOneCommand(text, c, SubscribeCmd);
        } else if text == Name(UnsubscribeCmd) {
          assert HasPrefix(text, Name(UnsubscribeCmd));
          AtMostOneCommand(text, c, UnsubscribeCmd);
        } else if c == SubscribeCmd || c == UnsubscribeCmd {
          assert |text| != |Name(c)|;
          assert ArgumentAsWritten(text, Offset(c)) == Some(Argument(text, Offset(c)));
        } else {
          assert Run(c, msg, t, faults, "") == Run(c, msg, t, faults, Argument(text, Offset(c)));
        }
      } else {
        assert SubscribeCmd in order && UnsubscribeCmd in order;
        assert !HasPrefix(text, Name(SubscribeCmd)) && !HasPrefix(text, Name(UnsubscribeCmd));
      }
    }
  }

  /** With the map's real contents, a bare `/subscribe` panics in the handler as written,
      while the bounds-checked handler answers with the parse error of an empty id. */
  lemma BareSubscribe(chatID: int, from: Sender, order: seq<Command>, t: Tables, faults: Faults)
    requires IsOrder(order)
    ensures var u := Update(Some(Message(chatID, "/subscribe", from)));
      && HandleAsWritten(u, order, t, faults).None?
      && Handle(u, order, t, faults) == Step([Reply(chatID, "strconv.Atoi: parsing \"\": invalid syntax")], t)
  {
    var msg := Message(chatID, "/subscribe", from);
    var u := Update(Some(msg));
    assert SubscribeCmd in order;
    var r := Dispatch(order, "/subscribe");
    AtMostOneCommand("/subscribe", r.value, SubscribeCmd);
    assert r == Some(SubscribeCmd);
    assert ArgumentAsWritten("/subscribe", 11).None?;
    assert Argument("/subscribe", 11) == "";
    var e := "strconv.Atoi: parsing \"\": invalid syntax";
    AtoiEmpty();
    assert SubscriptionStep(t, msg, 1, "", faults.rejected) == Step([Reply(chatID, e)], t);
  }

  /** An update without a message, or whose text starts with no command name, gets no
      answer and changes nothing. */
  lemma HandleNoCommand(update: Update, order: seq<Command>, t: Tables, faults: Faults)
    requires update.message.None? || forall c <- order :: !HasPrefix(update.message.value.text, Name(c))
    ensures Handle(update, order, t, faults) == Step([], t)
  {
  }

  /** What the handlers promise about one subscription command. */
  lemma {:induction false} SubscriptionSucceeds(t: Tables, msg: Message, typeOf: int, arg: string, sender: User, target: User)
    requires WellFormed(t) && sender in t.users && target in t.users
    requires sender.telegram == "@" + msg.from.userName
    requires Atoi(arg) == Ok(target.id)
    requires typeOf == 0 || typeOf == 1
    ensures var s := SubscriptionStep(t, msg, typeOf, arg, false);
      && s.result == [Reply(msg.chatID, Confirmation(typeOf) + target.telegram)]
      && s.after.users == t.users
      && (typeOf == 1 ==> s.after.subscribes == t.subscribes + [Edge(target.id, sender.id)])
      && (typeOf == 0 ==> multiset(s.after.subscribes) == multiset(t.subscribes)[Edge(target.id, sender.id) := 0])
  {
    var i :| 0 <= i < |t.users| && t.users[i] == sender;
    var j :| 0 <= j < |t.users| && t.users[j] == target;
    FindSelected(t, ByTelegram(sender.telegram), i);
    FindSelected(t, ById(target.id), j);
  }

  /** A failing step answers with its error and leaves the tables as they were: an
      unparsable id with the `strconv.Atoi` message, an unknown sender with `ErrNoUser`. */
  lemma SubscriptionFails(t: Tables, msg: Message, typeOf: int, arg: string, rejected: bool)
    ensures var s := SubscriptionStep(t, msg, typeOf, arg, rejected);
      && (Atoi(arg).Err? ==>
            s.after == t && HasPrefix(s.result[0].text, "strconv.Atoi: parsing " + Quote(arg) + ": "))
      && (Atoi(arg).Ok? && (forall u <- t.users :: u.telegram != "@" + msg.from.userName) ==>
            s == Step([Reply(msg.chatID, "no user found")], t))
      && (Atoi(arg).Ok? && (forall u <- t.users :: u.id != Atoi(arg).value) ==>
            s.after == t && s.result[0].text == "no user found")
      && (typeOf != 0 && typeOf != 1 ==> s.after == t)
  {
  }

  /** The id written after `/subscribe ` or `/unsubscribe ` is the id the handler reads. */
  lemma SubscriptionArgument(c: Command, id: int)
    requires c == SubscribeCmd || c == UnsubscribeCmd
    requires IsInt64(id)
    ensures Atoi(Argument(Name(c) + " " + FormatInt(id), Offset(c))) == Ok(id)
  {
    assert (Name(c) + " " + FormatInt(id))[Offset(c)..] == FormatInt(id);
    ParseFormatted(id);
  }

  /** `/start` binds the sender's chat id to the account with the sender's handle and
      welcomes them; without such an account the answer is `"no rows updated"`. */
  lemma {:induction false} StartOutcome(t: Tables, msg: Message)
    ensures var s := StartStep(t, msg, None);
      var handle := "@" + msg.from.userName;
      && ((exists u <- t.users :: u.telegram == handle) ==> s.result == [Reply(msg.chatID, Welcome)])
      && ((forall u <- t.users :: u.telegram != handle) ==>
            s.result == [Reply(msg.chatID, "no rows updated")] && s.after == t)
      && (forall i :: 0 <= i < |t.users| && t.users[i].telegram == handle ==>
            s.after.users[i].telegramID == msg.from.id)
  {
    RepoFacts.UpdateUserFrame(t, msg.from.id, msg.from.userName);
  }

  /** `/users` answers each user with one line in table order, and nothing when the table
      is empty or the query fails. */
  lemma {:induction false} UsersListOutcome(t: Tables, msg: Message, fault: Option<string>)
    ensures var r := UsersReplies(t, msg, fault);
      && (fault.Some? || t.users == [] ==> r == [])
      && (fault.None? ==> |r| == |t.users|)
      && (fault.None? ==> forall i :: 0 <= i < |t.users| ==>
            r[i] == Reply(msg.chatID, UserLine(Project(t.users[i], Listing))))
  {
  }

  /** A greeting to one subscriber. */
  datatype Send = Send(chatID: int, text: string)

  /** The text `sendTelegramNotification` sends about `u`. */
  function Greeting(u: User): string {
    "Сегодня день рождения у " + u.firstName + " " + u.middleName + " " + u.lastName + "! Поздравьте его!"
  }

  /** The driver error, if any, `GetSubscribedUsers(id)` fails with. */
  function SubscriberFault(failing: map<int, string>, id: int): Option<string> {
    if id in failing then Some(failing[id]) else None
  }

  /** The greetings about `u` to each of `subs`, in order. */
  function Greetings(u: User, subs: seq<User>): (r: seq<Send>)
    ensures |r| == |subs|
    ensures forall i :: 0 <= i < |subs| ==> r[i] == Send(subs[i].telegramID, Greeting(u))
  {
    if subs == [] then [] else Greetings(u, subs[..|subs| - 1]) + [Send(subs[|subs| - 1].telegramID, Greeting(u))]
  }

  /** The sends the inner loop makes for one birthday user: none when the subscriber query
      fails or finds nobody. */
  function UserSends(t: Tables, u: User, failing: map<int, string>): seq<Send> {
    match SubscribersQuery(t, u.id, SubscriberFault(failing, u.id))
    case Err(_) => []
    case Ok(subs) => Greetings(u, subs)
  }

  /** The sends `each` makes for every element of `users`, in order. */
  function Concat(users: seq<User>, each: User -> seq<Send>): seq<Send>
    decreases |users|
  {
    if users == [] then [] else Concat(users[..|users| - 1], each) + each(users[|users| - 1])
  }

  lemma {:induction false} ConcatMembers(users: seq<User>, each: User -> seq<Send>, x: Send)
    ensures x in Concat(users, each) <==> exists u <- users :: x in each(u)
    decreases |users|
  {
    if users != [] {
      var init, last := users[..|users| - 1], users[|users| - 1];
      ConcatMembers(init, each, x);
      assert users == init + [last];
      assert forall u <- init :: u in users;
    }
  }

  /** The sends of the outer loop over the birthday users, in order. */
  function FanOut(t: Tables, users: seq<User>, failing: map<int, string>): seq<Send> {
    Concat(users, u => UserSends(t, u, failing))
  }

  /** `CheckAndSendNotifications` on the given date: `failing` maps the ids whose
      subscriber query fails to the driver's message. */
  function Notifications(t: Tables, month: int, day: int, birthdayFault: Option<string>,
                         failing: map<int, string>): (r: seq<Send>)
    ensures birthdayFault.Some? ==> r == []
  {
    match BirthdayQuery(t, month, day, birthdayFault)
    case Err(_) => []
    case Ok(users) => FanOut(t, users, failing)
  }

  /** Some subscriber of `id` has the chat id `chat`. */
  predicate SubscriberChat(t: Tables, id: int, chat: int) {
    exists s <- t.users :: Edge(id, s.id) in t.subscribes && chat == s.telegramID
  }

  lemma {:induction false} UserSendsMembers(t: Tables, u: User, failing: map<int, string>, x: Send)
    ensures x in UserSends(t, u, failing) <==>
      u.id !in failing && x.text == Greeting(u) && SubscriberChat(t, u.id, x.chatID)
  {
    if x in UserSends(t, u, failing) {
      UserSendsSound(t, u, failing, x);
    }
    if u.id !in failing && x.text == Greeting(u) && SubscriberChat(t, u.id, x.chatID) {
      UserSendsComplete(t, u, failing, x);
    }
  }

  lemma {:induction false} UserSendsSound(t: Tables, u: User, failing: map<int, string>, x: Send)
    requires x in UserSends(t, u, failing)
    ensures u.id !in failing && x.text == Greeting(u) && SubscriberChat(t, u.id, x.chatID)
  {
    var rows := JoinRows(t.users, t.subscribes, u.id);
    var q := SubscribersQuery(t, u.id, SubscriberFault(failing, u.id));
    var k :| 0 <= k < |q.value| && Greetings(u, q.value)[k] == x;
    assert rows[k] in rows;
  }

  lemma {:induction false} UserSendsComplete(t: Tables, u: User, failing: map<int, string>, x: Send)
    requires u.id !in failing && x.text == Greeting(u) && SubscriberChat(t, u.id, x.chatID)
    ensures x in UserSends(t, u, failing)
  {
    var rows := JoinRows(t.users, t.subscribes, u.id);
    var q := SubscribersQuery(t, u.id, SubscriberFault(failing, u.id));
    var s :| s in t.users && Edge(u.id, s.id) in t.subscribes && x.chatID == s.telegramID;
    assert s in rows;
    var k :| 0 <= k < |rows| && rows[k] == s;
    assert Greetings(u, q.value)[k] == x;
  }

  /** `x` greets a subscriber of a user born on that day whose subscriber query does not
      fail, at the subscriber's chat. */
  predicate Greeted(t: Tables, month: int, day: int, failing: map<int, string>, x: Send) {
    exists b <- t.users ::
      BornOn(b.birthday, month, day) && b.id !in failing && x.text == Greeting(b) && SubscriberChat(t, b.id, x.chatID)
  }

  lemma {:induction false} NotificationsSound(t: Tables, month: int, day: int, failing: map<int, string>, x: Send)
    requires x in Notifications(t, month, day, None, failing)
    ensures Greeted(t, month, day, failing, x)
  {
    var rows := BirthdayRows(t.users, month, day);
    var q := BirthdayQuery(t, month, day, None);
    ConcatMembers(q.value, u => UserSends(t, u, failing), x);
    var v :| v in q.value && x in UserSends(t, v, failing);
    var k :| 0 <= k < |q.value| && q.value[k] == v;
    var b := rows[k];
    assert b in rows;
    UserSendsMembers(t, v, failing, x);
    assert v.id == b.id && Greeting(v) == Greeting(b);
  }

  lemma {:induction false} NotificationsComplete(t: Tables, month: int, day: int, failing: map<int, string>, x: Send)
    requires Greeted(t, month, day, failing, x)
    ensures x in Notifications(t, month, day, None, failing)
  {
    var rows := BirthdayRows(t.users, month, day);
    var b :| b in t.users
      && BornOn(b.birthday, month, day) && b.id !in failing && x.text == Greeting(b) && SubscriberChat(t, b.id, x.chatID);
    assert b in rows;
    var k :| 0 <= k < |rows| && rows[k] == b;
    var q := BirthdayQuery(t, month, day, None);
    assert q.Ok?;
    var v := q.value[k];
    assert v == Project(b, Listing);
    assert v in q.value;
    UserSendsMembers(t, v, failing, x);
    assert x in UserSends(t, v, failing);
    var each := u => UserSends(t, u, failing);
    assert x in each(v);
    ConcatMembers(q.value, each, x);
    assert Notifications(t, month, day, None, failing) == Concat(q.value, each);
  }

  /** The cycle greets exactly the pairs (birthday user whose subscriber query does not
      fail, subscriber of that user), addressed to the subscriber's chat. */
  lemma NotificationsExact(t: Tables, month: int, day: int, failing: map<int, string>, x: Send)
    ensures x in Notifications(t, month, day, None, failing) <==> Greeted(t, month, day, failing, x)
  {
    if x in Notifications(t, month, day, None, failing) {
      NotificationsSound(t, month, day, failing, x);
    }
    if Greeted(t, month, day, failing, x) {
      NotificationsComplete(t, month, day, failing, x);
    }
  }

  /** `usersListHandler`: the `for _, u := range users` loop appending one message each. */
  method UsersListHandler(msg: Message, store: UserStore, fault: Option<string>) returns (replies: seq<Reply>)
    ensures replies == UsersReplies(store.State(), msg, fault)
  {
    var users := store.GetUsers(fault);
    if users.Err? {
      return [];
    }
    replies := [];
    var i := 0;
    while i < |users.value|
      invariant 0 <= i <= |users.value|
      invariant |replies| == i
      invariant forall k :: 0 <= k < i ==> replies[k] == Reply(msg.chatID, UserLine(users.value[k]))
    {
      replies := replies + [Reply(msg.chatID, UserLine(users.value[i]))];
      i := i + 1;
    }
  }

  /** The body shared by `subscribeHandler` and `unsubscribeHandler`. */
  method SubscriptionHandler(msg: Message, store: UserStore, typeOf: int, arg: string, rejected: bool)
    returns (replies: seq<Reply>)
    requires store.Valid()
    modifies store
    ensures store.Valid()
    ensures Step(replies, store.State()) == SubscriptionStep(old(store.State()), msg, typeOf, arg, rejected)
  {
    var id := Atoi(arg);
    if id.Err? {
      return [Reply(msg.chatID, id.error)];
    }
    var sender := GetUserByTelegram(store.State(), "@" + msg.from.userName);
    if sender.Err? {
      return [Reply(msg.chatID, ErrorText(sender.error))];
    }
    var target := store.Subscribe(id.value, sender.value.id, typeOf, rejected);
    if target.Err? {
      return [Reply(msg.chatID, ErrorText(target.error))];
    }
    replies := [Reply(msg.chatID, Confirmation(typeOf) + target.value.telegram)];
  }

  method SubscribeHandler(msg: Message, store: UserStore, faults: Faults) returns (replies: seq<Reply>)
    requires store.Valid()
    modifies store
    ensures store.Valid()
    ensures Step(replies, store.State()) ==
      Run(SubscribeCmd, msg, old(store.State()), faults, Argument(msg.text, Offset(SubscribeCmd)))
  {
    replies := SubscriptionHandler(msg, store, 1, Argument(msg.text, 11), faults.rejected);
  }

  method UnsubscribeHandler(msg: Message, store: UserStore, faults: Faults) returns (replies: seq<Reply>)
    requires store.Valid()
    modifies store
    ensures store.Valid()
    ensures Step(replies, store.State()) ==
      Run(UnsubscribeCmd, msg, old(store.State()), faults, Argument(msg.text, Offset(UnsubscribeCmd)))
  {
    replies := SubscriptionHandler(msg, store, 0, Argument(msg.text, 13), faults.rejected);
  }

  /** `startHandler`. */
  method StartHandler(msg: Message, store: UserStore, fault: Option<string>) returns (replies: seq<Reply>)
    requires store.Valid()
    modifies store
    ensures store.Valid()
    ensures Step(replies, store.State()) == StartStep(old(store.State()), msg, fault)
  {
    var err := store.UpdateUser(msg.from.id, msg.from.userName, fault);
    if err.Some? {
      return [Reply(msg.chatID, ErrorText(err.value))];
    }
    replies := [Reply(msg.chatID, Welcome)];
  }

  /** `handler(update, userRepo)` for the handler `commandHandlers` maps `c` to. */
  method RunCommand(c: Command, msg: Message, store: UserStore, faults: Faults) returns (replies: seq<Reply>)
    requires store.Valid()
    modifies store
    ensures store.Valid()
    ensures Step(replies, store.State()) == Run(c, msg, old(store.State()), faults, Argument(msg.text, Offset(c)))
  {
    match c
    case SubscribeCmd => replies := SubscribeHandler(msg, store, faults);
    case UnsubscribeCmd => replies := UnsubscribeHandler(msg, store, faults);
    case StartCmd => replies := StartHandler(msg, store, faults.query);
    case UsersCmd => replies := UsersListHandler(msg, store, faults.query);
  }

  /** `updateHandler`: the `range commandHandlers` loop, visiting the commands in `order`,
      runs the first whose name prefixes the text. */
  method UpdateHandler(update: Update, order: seq<Command>, store: UserStore, faults: Faults)
    returns (replies: seq<Reply>)
    requires store.Valid()
    modifies store
    ensures store.Valid()
    ensures Step(replies, store.State()) == Handle(update, order, old(store.State()), faults)
  {
    if update.message.None? {
      return [];
    }
    var msg := update.message.value;
    var i := 0;
    while i < |order|
      invariant 0 <= i <= |order|
      invariant Dispatch(order, msg.text) == Dispatch(order[i..], msg.text)
    {
      var c := order[i];
      if HasPrefix(msg.text, Name(c)) {
        assert Dispatch(order, msg.text) == Some(c);
        replies := RunCommand(c, msg, store, faults);
        return;
      }
      assert order[i..][1..] == order[i + 1..];
      i := i + 1;
    }
    replies := [];
  }

  lemma FanOutStep(t: Tables, users: seq<User>, i: nat, failing: map<int, string>)
    requires i < |users|
    ensures FanOut(t, users[..i + 1], failing) == FanOut(t, users[..i], failing) + UserSends(t, users[i], failing)
  {
    assert users[..i + 1][..i] == users[..i];
  }

  /** The inner loop of `CheckAndSendNotifications`: one `sendTelegramNotification` per
      subscriber. */
  method GreetSubscribers(u: User, subs: seq<User>) returns (sends: seq<Send>)
    ensures sends == Greetings(u, subs)
  {
    sends := [];
    var j := 0;
    while j < |subs|
      invariant 0 <= j <= |subs|
      invariant sends == Greetings(u, subs[..j])
    {
      assert subs[..j + 1][..j] == subs[..j];
      sends := sends + [Send(subs[j].telegramID, Greeting(u))];
      j := j + 1;
    }
    assert subs[..j] == subs;
  }

  /** `CheckAndSendNotifications`: for each birthday user, one greeting to each of its
      subscribers; a user whose subscriber query fails is skipped. */
  method CheckAndSendNotifications(store: UserStore, month: int, day: int, birthdayFault: Option<string>,
                                   failing: map<int, string>) returns (sends: seq<Send>)
    ensures sends == Notifications(store.State(), month, day, birthdayFault, failing)
  {
    var users := store.GetUserByBirthday(month, day, birthdayFault);
    if users.Err? {
      return [];
    }
    var birthdays := users.value;
    ghost var t := store.State();
    sends := [];
    var i := 0;
    while i < |birthdays|
      invariant 0 <= i <= |birthdays|
      invariant sends == FanOut(t, birthdays[..i], failing)
    {
      var u := birthdays[i];
      FanOutStep(t, birthdays, i, failing);
      var subscribers := store.GetSubscribedUsers(u.id, SubscriberFault(failing, u.id));
      if subscribers.Ok? {
        var greetings := GreetSubscribers(u, subscribers.value);
        sends := sends + greetings;
      }
      i := i + 1;
    }
    assert birthdays[..i] == birthdays;
  }
}
