/** pkg/user/repo.go: the user repository over two tables, `users` and the edge table
    `subscribes`. The SQL each method sends is modelled by what it selects or changes:
    the pure functions below give the result and the tables afterwards, and the class
    `UserStore` keeps the tables as fields that its methods update in place. */
module Repo {
  import opened Wrappers
  import opened Users
  import Strings
  import Crypt

  /** The errors the repository returns: `ErrNoUser`, `ErrBadPass`, `ErrExists`,
      `errors.New("not valid type")`, `fmt.Errorf("no rows updated")`, and an error
      passed through from the database driver. */
  datatype Error = NoUser | BadPass | Exists | NotValidType | NoRowsUpdated | Driver(message: string)

  /** `err.Error()`. */
  function ErrorText(e: Error): string {
    match e
    case NoUser => "no user found"
    case BadPass => "invalid password"
    case Exists => "already exists"
    case NotValidType => "not valid type"
    case NoRowsUpdated => "no rows updated"
    case Driver(m) => m
  }

  /** A row of `subscribes`: `subscriberID` is notified of `userID`'s birthday. */
  datatype Edge = Edge(userID: int, subscriberID: int)

  /** Both tables and the next auto-increment id of `users`. Rows are kept in insertion
      order, which is the order the queries return them in. */
  datatype Tables = Tables(users: seq<User>, subscribes: seq<Edge>, nextID: int)

  /** The result of a statement and the tables after it. */
  datatype Step<R> = Step(result: R, after: Tables)

  /** The table constraints: ids, usernames and telegram handles are unique, and every id
      was handed out by the auto-increment counter. */
  ghost predicate WellFormed(t: Tables) {
    && 1 <= t.nextID
    && (forall i :: 0 <= i < |t.users| ==> 1 <= t.users[i].id < t.nextID)
    && (forall i, j :: 0 <= i < j < |t.users| ==>
          && t.users[i].id != t.users[j].id
          && t.users[i].username != t.users[j].username
          && t.users[i].telegram != t.users[j].telegram)
  }

  /** The column a single-row `WHERE` clause compares. */
  datatype Key = ByUsername(username: string) | ByTelegram(telegram: string) | ById(id: int)

  predicate Matches(u: User, k: Key) {
    match k
    case ByUsername(name) => u.username == name
    case ByTelegram(handle) => u.telegram == handle
    case ById(id) => u.id == id
  }

  /** `QueryRow(...).Scan(...)`: the position of the first row the key selects. */
  function Find(users: seq<User>, k: Key): (r: Option<nat>)
    ensures r.None? <==> forall u <- users :: !Matches(u, k)
    ensures r.Some? ==> r.value < |users| && Matches(users[r.value], k)
  {
    if users == [] then None
    else if Matches(users[0], k) then Some(0)
    else match Find(users[1..], k)
      case None => None
      case Some(i) => Some(i + 1)
  }

  /** In well-formed tables a key selects at most one row, so it is the one found. */
  lemma FindSelected(t: Tables, k: Key, i: nat)
    requires WellFormed(t) && i < |t.users| && Matches(t.users[i], k)
    ensures Find(t.users, k) == Some(i)
  {
    assert t.users[i] in t.users;
  }

  /** What `SELECT id, username, password` fills in. */
  function Credentials(u: User): User {
    User(u.id, u.username, "", "", "", u.password, "", "", 0)
  }

  /** What `SELECT id, username, telegram` fills in. */
  function Contact(u: User): User {
    User(u.id, u.username, "", "", "", "", "", u.telegram, 0)
  }

  /** `Authorize(username, pass)`: the user's id, username and stored hash when the hash
      verifies the password; `ErrNoUser` when no row has the username; `ErrBadPass`
      otherwise. */
  function Authorize(t: Tables, username: string, pass: string): (r: Result<User, Error>)
    ensures r == Err(NoUser) <==> forall u <- t.users :: u.username != username
    ensures r.Ok? ==>
      exists u <- t.users :: u.username == username && Crypt.Verifies(u.password, pass) && r.value == Credentials(u)
    ensures r.Err? ==>
      (r.error == NoUser ||
       (r.error == BadPass && exists u <- t.users :: u.username == username && !Crypt.Verifies(u.password, pass)))
  {
    match Find(t.users, ByUsername(username))
    case None => Err(NoUser)
    case Some(i) =>
      if Crypt.Verifies(t.users[i].password, pass) then Ok(Credentials(t.users[i])) else Err(BadPass)
  }

  /** `GetUserByTelegram(handle)`: id, username and handle of the row with that handle,
      `ErrNoUser` when there is none. */
  function GetUserByTelegram(t: Tables, telegram: string): (r: Result<User, Error>)
    ensures r.Err? <==> forall u <- t.users :: u.telegram != telegram
    ensures r.Err? ==> r.error == NoUser
    ensures r.Ok? ==> exists u <- t.users :: u.telegram == telegram && r.value == Contact(u)
  {
    match Find(t.users, ByTelegram(telegram))
    case None => Err(NoUser)
    case Some(i) => Ok(Contact(t.users[i]))
  }

  /** The arguments of `MakeUser`, in its parameter order. */
  datatype Registration = Registration(
    username: string,
    password: string,
    firstName: string,
    middleName: string,
    lastName: string,
    birthday: string,
    telegram: string)

  /** The unique indexes on `username` and `telegram` reject the row. */
  predicate Taken(users: seq<User>, reg: Registration) {
    exists u <- users :: u.username == reg.username || u.telegram == reg.telegram
  }

  /** The row the `INSERT` writes: the hash of the password, never the password itself,
      and no `telegramID`. */
  function NewRow(t: Tables, reg: Registration, salt: string): User {
    User(t.nextID, reg.username, reg.firstName, reg.middleName, reg.lastName,
         Crypt.Hash(salt, reg.password), reg.birthday, reg.telegram, 0)
  }

  /** `MakeUser`: a rejected `INSERT` (a taken username or handle, or `rejected`, any other
      driver refusal) is `ErrExists`; otherwise the new id and the username, nothing else. */
  function MakeUserStep(t: Tables, reg: Registration, salt: string, rejected: bool): Step<Result<User, Error>> {
    if rejected || Taken(t.users, reg) then Step(Err(Exists), t)
    else Step(Ok(User(t.nextID, reg.username, "", "", "", "", "", "", 0)),
              Tables(t.users + [NewRow(t, reg, salt)], t.subscribes, t.nextID + 1))
  }

  /** The edges left by `DELETE ... WHERE userID = ? and subscriberID = ?`. */
  function Unlinked(edges: seq<Edge>, e: Edge): (r: seq<Edge>)
    ensures multiset(r) == multiset(edges)[e := 0]
  {
    if edges == [] then []
    else
      assert edges == [edges[0]] + edges[1..];
      if edges[0] == e then Unlinked(edges[1..], e) else [edges[0]] + Unlinked(edges[1..], e)
  }

  /** `Subscribe(userID, subscriberID, typeOf)`: the target row must exist; mode 1 inserts
      the edge, mode 0 deletes it, any other mode is refused. The result is the target. */
  function SubscribeStep(t: Tables, userID: int, subscriberID: int, typeOf: int, rejected: bool)
    : Step<Result<User, Error>>
  {
    match Find(t.users, ById(userID))
    case None => Step(Err(NoUser), t)
    case Some(i) =>
      if typeOf == 1 then
        if rejected then Step(Err(Exists), t)
        else Step(Ok(Contact(t.users[i])), t.(subscribes := t.subscribes + [Edge(userID, subscriberID)]))
      else if typeOf == 0 then
        if rejected then Step(Err(Exists), t)
        else Step(Ok(Contact(t.users[i])), t.(subscribes := Unlinked(t.subscribes, Edge(userID, subscriberID))))
      else Step(Err(NotValidType), t)
  }

  /** The number of rows whose `telegram` is `handle`. */
  function CountHandle(users: seq<User>, handle: string): (n: nat)
    ensures n == 0 <==> forall u <- users :: u.telegram != handle
    ensures n <= |users|
  {
    if users == [] then 0
    else (if users[0].telegram == handle then 1 else 0) + CountHandle(users[1..], handle)
  }

  /** The rows after `UPDATE users SET telegramID = ? WHERE telegram = ?`. */
  function Bound(users: seq<User>, handle: string, telegramID: int): (r: seq<User>)
    ensures |r| == |users|
    ensures forall i :: 0 <= i < |users| ==>
      r[i] == if users[i].telegram == handle then users[i].(telegramID := telegramID) else users[i]
  {
    seq(|users|, i requires 0 <= i < |users| =>
      if users[i].telegram == handle then users[i].(telegramID := telegramID) else users[i])
  }

  /** `UpdateUser(telegramID, name)` binds `telegramID` to the rows whose handle is `"@" + name`;
      a driver error passes through, and no such row is `"no rows updated"`. */
  function UpdateUserStep(t: Tables, telegramID: int, name: string, fault: Option<string>): Step<Option<Error>> {
    if fault.Some? then Step(Some(Driver(fault.value)), t)
    else
      var handle := "@" + name;
      var after := t.(users := Bound(t.users, handle, telegramID));
      if CountHandle(t.users, handle) == 0 then Step(Some(NoRowsUpdated), after) else Step(None, after)
  }

  /** `MONTH(d)` and `DAY(d)` of a `YYYY-MM-DD` date; the year is read past, not used. */
  function MonthDay(date: string): Option<(int, int)> {
    if |date| == 10 && date[4] == '-' && date[7] == '-'
       && (forall i :: 0 <= i < 10 && i != 4 && i != 7 ==> Strings.IsDigit(date[i]))
    then Some((10 * Strings.DigitValue(date[5]) + Strings.DigitValue(date[6]),
               10 * Strings.DigitValue(date[8]) + Strings.DigitValue(date[9])))
    else None
  }

  predicate BornOn(birthday: string, month: int, day: int) {
    MonthDay(birthday) == Some((month, day))
  }

  /** A four-digit year: two birthdays on the same month and day match the same query. */
  lemma YearIgnored(y1: string, y2: string, rest: string, month: int, day: int)
    requires |y1| == 4 && |y2| == 4
    requires forall i :: 0 <= i < 4 ==> Strings.IsDigit(y1[i]) && Strings.IsDigit(y2[i])
    ensures BornOn(y1 + rest, month, day) <==> BornOn(y2 + rest, month, day)
  {
    assert forall i :: 4 <= i < |y1 + rest| ==> (y1 + rest)[i] == (y2 + rest)[i];
  }

  /** Which columns a list query selects: every one but `password`, with or without `telegramID`. */
  datatype Columns = Listing | WithChatID

  /** One scanned row. */
  function Project(u: User, cols: Columns): User {
    User(u.id, u.username, u.firstName, u.middleName, u.lastName, "", u.birthday, u.telegram,
         if cols == WithChatID then u.telegramID else 0)
  }

  /** `WHERE MONTH(birthday) = ? AND DAY(birthday) = ?`. */
  function BirthdayRows(users: seq<User>, month: int, day: int): (rows: seq<User>)
    ensures forall u :: u in rows <==> u in users && BornOn(u.birthday, month, day)
    ensures |rows| <= |users|
  {
    if users == [] then []
    else
      assert users == [users[0]] + users[1..];
      (if BornOn(users[0].birthday, month, day) then [users[0]] else []) + BirthdayRows(users[1..], month, day)
  }

  /** The rows whose id is `id`. */
  function WithId(users: seq<User>, id: int): (rows: seq<User>)
    ensures forall u :: u in rows <==> u in users && u.id == id
  {
    if users == [] then []
    else
      assert users == [users[0]] + users[1..];
      (if users[0].id == id then [users[0]] else []) + WithId(users[1..], id)
  }

  /** `FROM users u JOIN subscribes s ON u.id = s.subscriberID WHERE s.userID = ?`:
      one row per matching edge and user, in edge order. */
  function JoinRows(users: seq<User>, edges: seq<Edge>, userID: int): (rows: seq<User>)
    ensures forall u :: u in rows <==> u in users && Edge(userID, u.id) in edges
  {
    if edges == [] then []
    else
      assert edges == [edges[0]] + edges[1..];
      (if edges[0].userID == userID then WithId(users, edges[0].subscriberID) else [])
      + JoinRows(users, edges[1..], userID)
  }

  /** The `for rows.Next()` loop of a list query and its epilogue: a driver error passes
      through, no rows is `ErrNoUser`, otherwise every row scanned, in order. */
  function Collect(rows: seq<User>, cols: Columns, fault: Option<string>): (r: Result<seq<User>, Error>)
    ensures r.Err? <==> fault.Some? || rows == []
    ensures r.Err? ==> r.error == if fault.Some? then Driver(fault.value) else NoUser
    ensures r.Ok? ==> |r.value| == |rows| > 0
    ensures r.Ok? ==> forall i :: 0 <= i < |rows| ==>
      r.value[i] == Project(rows[i], cols) && r.value[i].password == ""
  {
    if fault.Some? then Err(Driver(fault.value))
    else if rows == [] then Err(NoUser)
    else Ok(seq(|rows|, i requires 0 <= i < |rows| => Project(rows[i], cols)))
  }

  /** `GetUsers()`: every user, without the password column. */
  function UsersQuery(t: Tables, fault: Option<string>): Result<seq<User>, Error> {
    Collect(t.users, Listing, fault)
  }

  /** `GetSubscribedUsers(userID)`: the subscribers of `userID`, with their `telegramID`. */
  function SubscribersQuery(t: Tables, userID: int, fault: Option<string>): Result<seq<User>, Error> {
    Collect(JoinRows(t.users, t.subscribes, userID), WithChatID, fault)
  }

  /** `GetUserByBirthday(month, day)`: the users born on that month and day of any year. */
  function BirthdayQuery(t: Tables, month: int, day: int, fault: Option<string>): Result<seq<User>, Error> {
    Collect(BirthdayRows(t.users, month, day), Listing, fault)
  }

  /** The `for rows.Next() { rows.Scan(...); users = append(users, user) }` loop. */
  method ScanRows(rows: seq<User>, cols: Columns) returns (users: seq<User>)
    ensures |users| == |rows|
    ensures forall i :: 0 <= i < |rows| ==> users[i] == Project(rows[i], cols)
  {
    users := [];
    var i := 0;
    while i < |rows|
      invariant 0 <= i <= |rows|
      invariant |users| == i
      invariant forall k :: 0 <= k < i ==> users[k] == Project(rows[k], cols)
    {
      users := users + [Project(rows[i], cols)];
      i := i + 1;
    }
  }

  /** The repository with its two tables held in place. */
  class UserStore {
    var users: seq<User>
    var subscribes: seq<Edge>
    var nextID: int

    function State(): Tables
      reads this
    {
      Tables(users, subscribes, nextID)
    }

    ghost predicate Valid()
      reads this
    {
      WellFormed(State())
    }

    /** Empty tables; the auto-increment counter starts at 1. */
    constructor ()
      ensures Valid() && State() == Tables([], [], 1)
    {
      users, subscribes, nextID := [], [], 1;
    }

    method MakeUser(username: string, pass: string, firstname: string, middlename: string,
                    lastname: string, birthday: string, telegram: string,
                    salt: string, rejected: bool) returns (r: Result<User, Error>)
      requires Valid()
      modifies this
      ensures Valid()
      ensures Step(r, State()) ==
        MakeUserStep(old(State()), Registration(username, pass, firstname, middlename, lastname, birthday, telegram),
                     salt, rejected)
    {
      var reg := Registration(username, pass, firstname, middlename, lastname, birthday, telegram);
      MakeUserKeepsWellFormed(State(), reg, salt, rejected);
      var hashed := Crypt.Hash(salt, pass);
      if rejected || Taken(users, reg) {
        return Err(Exists);
      }
      users := users + [User(nextID, username, firstname, middlename, lastname, hashed, birthday, telegram, 0)];
      r := Ok(User(nextID, username, "", "", "", "", "", "", 0));
      nextID := nextID + 1;
    }

    method GetUsers(fault: Option<string>) returns (r: Result<seq<User>, Error>)
      ensures r == UsersQuery(State(), fault)
    {
      if fault.Some? {
        return Err(Driver(fault.value));
      }
      var rows := users;
      var scanned := ScanRows(rows, Listing);
      if |scanned| == 0 {
        return Err(NoUser);
      }
      r := Ok(scanned);
      assert r.value == Collect(rows, Listing, fault).value;
    }

    method Subscribe(userID: int, subscriberID: int, typeOf: int, rejected: bool) returns (r: Result<User, Error>)
      requires Valid()
      modifies this
      ensures Valid()
      ensures Step(r, State()) == SubscribeStep(old(State()), userID, subscriberID, typeOf, rejected)
    {
      var target := Find(users, ById(userID));
      if target.None? {
        return Err(NoUser);
      }
      var user := Contact(users[target.value]);
      if typeOf == 1 {
        if rejected {
          return Err(Exists);
        }
        subscribes := subscribes + [Edge(userID, subscriberID)];
      } else if typeOf == 0 {
        if rejected {
          return Err(Exists);
        }
        subscribes := Unlinked(subscribes, Edge(userID, subscriberID));
      } else {
        return Err(NotValidType);
      }
      r := Ok(user);
    }

    method GetSubscribedUsers(userID: int, fault: Option<string>) returns (r: Result<seq<User>, Error>)
      ensures r == SubscribersQuery(State(), userID, fault)
    {
      if fault.Some? {
        return Err(Driver(fault.value));
      }
      var rows := JoinRows(users, subscribes, userID);
      var scanned := ScanRows(rows, WithChatID);
      if |scanned| == 0 {
        return Err(NoUser);
      }
      r := Ok(scanned);
      assert r.value == Collect(rows, WithChatID, fault).value;
    }

    method GetUserByBirthday(month: int, day: int, fault: Option<string>) returns (r: Result<seq<User>, Error>)
      ensures r == BirthdayQuery(State(), month, day, fault)
    {
      if fault.Some? {
        return Err(Driver(fault.value));
      }
      var rows := BirthdayRows(users, month, day);
      var scanned := ScanRows(rows, Listing);
      if |scanned| == 0 {
        return Err(NoUser);
      }
      r := Ok(scanned);
      assert r.value == Collect(rows, Listing, fault).value;
    }

    method UpdateUser(telegramID: int, telegram: string, fault: Option<string>) returns (err: Option<Error>)
      requires Valid()
      modifies this
      ensures Valid()
      ensures Step(err, State()) == UpdateUserStep(old(State()), telegramID, telegram, fault)
    {
      if fault.Some? {
        return Some(Driver(fault.value));
      }
      var handle := "@" + telegram;
      var affected := CountHandle(users, handle);
      users := Bound(users, handle, telegramID);
      if affected == 0 {
        return Some(NoRowsUpdated);
      }
      err := None;
    }
  }

  /** `MakeUser` keeps the table constraints. */
  lemma MakeUserKeepsWellFormed(t: Tables, reg: Registration, salt: string, rejected: bool)
    requires WellFormed(t)
    ensures WellFormed(MakeUserStep(t, reg, salt, rejected).after)
  {
    if !(rejected || Taken(t.users, reg)) {
      var users' := t.users + [NewRow(t, reg, salt)];
      forall i, j | 0 <= i < j < |users'|
        ensures users'[i].id != users'[j].id && users'[i].username != users'[j].username
          && users'[i].telegram != users'[j].telegram
      {
        if j == |t.users| {
          assert users'[i] in t.users;
        }
      }
    }
  }
}
