/** What the repository's operations promise when taken together: a registered user can
    log in, a second registration under a taken name changes nothing, `Subscribe` adds or
    removes exactly one kind of edge and the subscribers query follows it, `UpdateUser`
    touches only the rows with the caller's handle, and list results never carry a
    password. */
module RepoFacts {
  import opened Wrappers
  import opened Users
  import opened Repo
  import Crypt
  import Strings

  /** `MakeUser` stores the bcrypt hash of the password, which verifies it, and answers
      with the new id and the username only. */
  lemma MakeUserStoresHash(t: Tables, reg: Registration, salt: string)
    requires !Taken(t.users, reg)
    ensures var s := MakeUserStep(t, reg, salt, false);
      && s.result == Ok(User(t.nextID, reg.username, "", "", "", "", "", "", 0))
      && |s.after.users| == |t.users| + 1
      && s.after.users[..|t.users|] == t.users
      && var row := s.after.users[|t.users|];
         row.password == Crypt.Hash(salt, reg.password) && Crypt.Verifies(row.password, reg.password)
         && row.telegramID == 0 && row.id == t.nextID
  {
    var row := NewRow(t, reg, salt);
    assert (t.users + [row])[..|t.users|] == t.users;
  }

  /** A user who has just registered logs in with the same password and gets the id
      registration returned. */
  lemma {:induction false} RegisterThenAuthorize(t: Tables, reg: Registration, salt: string)
    requires WellFormed(t) && !Taken(t.users, reg)
    ensures var s := MakeUserStep(t, reg, salt, false);
      && s.result.Ok?
      && Authorize(s.after, reg.username, reg.password).Ok?
      && Authorize(s.after, reg.username, reg.password).value.id == s.result.value.id
  {
    var s := MakeUserStep(t, reg, salt, false);
    MakeUserKeepsWellFormed(t, reg, salt, false);
    var i := |t.users|;
    assert s.after.users[i] == NewRow(t, reg, salt);
    FindSelected(s.after, ByUsername(reg.username), i);
  }

  /** A user who has just registered is refused with any other password: the stored hash
      verifies only the password it was made from. */
  lemma WrongPasswordRefused(t: Tables, reg: Registration, salt: string, other: string)
    requires WellFormed(t) && !Taken(t.users, reg)
    requires other != reg.password
    ensures Authorize(MakeUserStep(t, reg, salt, false).after, reg.username, other) == Err(BadPass)
  {
    var s := MakeUserStep(t, reg, salt, false);
    MakeUserKeepsWellFormed(t, reg, salt, false);
    var i := |t.users|;
    assert s.after.users[i] == NewRow(t, reg, salt);
    FindSelected(s.after, ByUsername(reg.username), i);
  }

  /** Registering a username (or handle) that is already in the table is `ErrExists`
      and leaves both tables as they were. */
  lemma RegisterTwice(t: Tables, reg: Registration, again: Registration, salt: string, salt': string)
    requires !Taken(t.users, reg)
    requires again.username == reg.username || again.telegram == reg.telegram
    ensures var s := MakeUserStep(t, reg, salt, false);
      var s' := MakeUserStep(s.after, again, salt', false);
      s'.result == Err(Exists) && s'.after == s.after
  {
    var s := MakeUserStep(t, reg, salt, false);
    var row := NewRow(t, reg, salt);
    assert row in s.after.users;
  }

  /** `Subscribe` never changes `users`; on success the edge multiset gains the edge
      (mode 1) or loses every copy of it (mode 0); on failure nothing changes. */
  lemma SubscribeFrame(t: Tables, userID: int, subscriberID: int, typeOf: int, rejected: bool)
    ensures var s := SubscribeStep(t, userID, subscriberID, typeOf, rejected);
      var e := Edge(userID, subscriberID);
      && s.after.users == t.users && s.after.nextID == t.nextID
      && (s.result.Err? ==> s.after == t)
      && (s.result.Err? <==> rejected || (typeOf != 0 && typeOf != 1) || forall u <- t.users :: u.id != userID)
      && (s.result.Ok? ==> exists u <- t.users :: u.id == userID && s.result.value == Contact(u))
      && (s.result.Ok? && typeOf == 1 ==> multiset(s.after.subscribes) == multiset(t.subscribes) + multiset{e})
      && (s.result.Ok? && typeOf == 0 ==> multiset(s.after.subscribes) == multiset(t.subscribes)[e := 0])
  {
    var s := SubscribeStep(t, userID, subscriberID, typeOf, rejected);
    if s.result.Ok? {
      var i := Find(t.users, ById(userID)).value;
      assert t.users[i] in t.users;
    }
  }

  /** The error `Subscribe` reports: no target row is `ErrNoUser` whatever the mode; with
      a target, a mode other than 0 and 1 is `"not valid type"` and a refused statement is
      `ErrExists`. */
  lemma SubscribeErrors(t: Tables, userID: int, subscriberID: int, typeOf: int, rejected: bool)
    ensures var r := SubscribeStep(t, userID, subscriberID, typeOf, rejected).result;
      && ((forall u <- t.users :: u.id != userID) ==> r == Err(NoUser))
      && ((exists u <- t.users :: u.id == userID) && typeOf != 0 && typeOf != 1 ==> r == Err(NotValidType))
      && ((exists u <- t.users :: u.id == userID) && (typeOf == 0 || typeOf == 1) && rejected ==> r == Err(Exists))
  {
  }

  /** After subscribing, the subscriber is among the target's subscribers, with its
      `telegramID`. */
  lemma {:induction false} SubscribedIsListed(t: Tables, userID: int, sub: User, fault: Option<string>)
    requires sub in t.users && fault.None?
    requires SubscribeStep(t, userID, sub.id, 1, false).result.Ok?
    ensures var after := SubscribeStep(t, userID, sub.id, 1, false).after;
      var q := SubscribersQuery(after, userID, fault);
      q.Ok? && Project(sub, WithChatID) in q.value
  {
    var after := SubscribeStep(t, userID, sub.id, 1, false).after;
    assert Edge(userID, sub.id) in after.subscribes;
    var rows := JoinRows(after.users, after.subscribes, userID);
    assert sub in rows;
    var k :| 0 <= k < |rows| && rows[k] == sub;
    var q := SubscribersQuery(after, userID, fault);
    assert q.value[k] == Project(sub, WithChatID);
  }

  /** After unsubscribing, no row with the subscriber's id is among the target's
      subscribers. */
  lemma {:induction false} UnsubscribedIsNotListed(t: Tables, userID: int, subscriberID: int)
    requires SubscribeStep(t, userID, subscriberID, 0, false).result.Ok?
    ensures var after := SubscribeStep(t, userID, subscriberID, 0, false).after;
      forall u <- JoinRows(after.users, after.subscribes, userID) :: u.id != subscriberID
  {
    var after := SubscribeStep(t, userID, subscriberID, 0, false).after;
    var e := Edge(userID, subscriberID);
    assert multiset(after.subscribes)[e] == 0;
    assert e !in after.subscribes;
  }

  /** `UpdateUser` sets `telegramID` on exactly the rows whose handle is `"@" + name`,
      changes nothing else, and reports `"no rows updated"` exactly when there is no
      such row (in which case the tables are unchanged). */
  lemma {:induction false} UpdateUserFrame(t: Tables, telegramID: int, name: string)
    ensures var s := UpdateUserStep(t, telegramID, name, None);
      && s.after.subscribes == t.subscribes && s.after.nextID == t.nextID
      && |s.after.users| == |t.users|
      && (forall i :: 0 <= i < |t.users| && t.users[i].telegram != "@" + name ==> s.after.users[i] == t.users[i])
      && (forall i :: 0 <= i < |t.users| && t.users[i].telegram == "@" + name ==>
            s.after.users[i] == t.users[i].(telegramID := telegramID))
      && (s.result == Some(NoRowsUpdated) <==> forall u <- t.users :: u.telegram != "@" + name)
      && (s.result == Some(NoRowsUpdated) ==> s.after == t)
      && (s.result != Some(NoRowsUpdated) ==> s.result == None)
  {
    var s := UpdateUserStep(t, telegramID, name, None);
    if s.result == Some(NoRowsUpdated) {
      assert forall i :: 0 <= i < |t.users| ==> t.users[i] in t.users;
      assert s.after.users == t.users;
    }
  }

  /** `UpdateUser` keeps the table constraints: ids, usernames and handles do not move. */
  lemma UpdateUserKeepsWellFormed(t: Tables, telegramID: int, name: string, fault: Option<string>)
    requires WellFormed(t)
    ensures WellFormed(UpdateUserStep(t, telegramID, name, fault).after)
  {
    var after := UpdateUserStep(t, telegramID, name, fault).after;
    assert after.nextID == t.nextID && |after.users| == |t.users|;
    forall i | 0 <= i < |t.users|
      ensures && after.users[i].id == t.users[i].id && after.users[i].username == t.users[i].username
              && after.users[i].telegram == t.users[i].telegram
    {
    }
  }

  /** `Subscribe` keeps the table constraints. */
  lemma SubscribeKeepsWellFormed(t: Tables, userID: int, subscriberID: int, typeOf: int, rejected: bool)
    requires WellFormed(t)
    ensures WellFormed(SubscribeStep(t, userID, subscriberID, typeOf, rejected).after)
  {
  }

  /** No list query's rows marshal a `password` member. */
  lemma {:induction false} ListingsHidePasswords(t: Tables, userID: int, month: int, day: int, fault: Option<string>)
    ensures forall r <- [UsersQuery(t, fault), SubscribersQuery(t, userID, fault), BirthdayQuery(t, month, day, fault)] ::
      r.Ok? ==> forall u <- r.value :: Keys(Encode(u)) == KeysWithoutPassword
  {
    forall r <- [UsersQuery(t, fault), SubscribersQuery(t, userID, fault), BirthdayQuery(t, month, day, fault)] | r.Ok?
      ensures forall u <- r.value :: Keys(Encode(u)) == KeysWithoutPassword
    {
      forall u <- r.value
        ensures Keys(Encode(u)) == KeysWithoutPassword
      {
        var k :| 0 <= k < |r.value| && r.value[k] == u;
        assert u.password == "";
      }
    }
  }

  /** Every user of the table is listed by `GetUsers`, and every listed row is a user of
      the table with its password column left out. */
  lemma {:induction false} UsersQueryListsEveryone(t: Tables)
    requires t.users != []
    ensures var q := UsersQuery(t, None);
      && q.Ok? && |q.value| == |t.users|
      && (forall u <- t.users :: Project(u, Listing) in q.value)
      && (forall v <- q.value :: exists u <- t.users :: v == Project(u, Listing))
  {
    var q := UsersQuery(t, None);
    forall u <- t.users
      ensures Project(u, Listing) in q.value
    {
      var k :| 0 <= k < |t.users| && t.users[k] == u;
      assert q.value[k] == Project(u, Listing);
    }
    forall v <- q.value
      ensures exists u <- t.users :: v == Project(u, Listing)
    {
      var k :| 0 <= k < |q.value| && q.value[k] == v;
      assert t.users[k] in t.users;
    }
  }

  /** The birthday query returns exactly the users born on that month and day. */
  lemma {:induction false} BirthdayQueryExact(t: Tables, month: int, day: int)
    ensures var q := BirthdayQuery(t, month, day, None);
      && (q.Err? <==> forall u <- t.users :: !BornOn(u.birthday, month, day))
      && (q.Ok? ==> forall u <- t.users :: BornOn(u.birthday, month, day) ==> Project(u, Listing) in q.value)
      && (q.Ok? ==> forall v <- q.value :: exists u <- t.users :: BornOn(u.birthday, month, day) && v == Project(u, Listing))
  {
    var rows := BirthdayRows(t.users, month, day);
    var q := BirthdayQuery(t, month, day, None);
    if rows == [] {
      assert forall u <- t.users :: !BornOn(u.birthday, month, day) by {
        forall u <- t.users ensures !BornOn(u.birthday, month, day) {
          assert u !in rows;
        }
      }
    } else {
      assert rows[0] in rows;
      forall u <- t.users | BornOn(u.birthday, month, day)
        ensures Project(u, Listing) in q.value
      {
        assert u in rows;
        var k :| 0 <= k < |rows| && rows[k] == u;
        assert q.value[k] == Project(u, Listing);
      }
      forall v <- q.value
        ensures exists u <- t.users :: BornOn(u.birthday, month, day) && v == Project(u, Listing)
      {
        var k :| 0 <= k < |q.value| && q.value[k] == v;
        assert rows[k] in rows;
      }
    }
  }

  /** A `YYYY-MM-DD` date with zero-padded fields. */
  function IsoDate(year: nat, month: nat, day: nat): string
    requires year < 10000 && month < 100 && day < 100
  {
    [Strings.DigitChar(year / 1000), Strings.DigitChar(year / 100 % 10),
     Strings.DigitChar(year / 10 % 10), Strings.DigitChar(year % 10), '-',
     Strings.DigitChar(month / 10), Strings.DigitChar(month % 10), '-',
     Strings.DigitChar(day / 10), Strings.DigitChar(day % 10)]
  }

  /** `MONTH` and `DAY` read back the fields of a date, whatever its year. */
  lemma MonthDayOfIsoDate(year: nat, month: nat, day: nat)
    requires year < 10000 && month < 100 && day < 100
    ensures BornOn(IsoDate(year, month, day), month, day)
  {
    var d := IsoDate(year, month, day);
    assert Strings.DigitValue(d[5]) == month / 10 && Strings.DigitValue(d[6]) == month % 10;
    assert Strings.DigitValue(d[8]) == day / 10 && Strings.DigitValue(d[9]) == day % 10;
  }

  /** A date that is not `YYYY-MM-DD` matches no birthday query. */
  lemma MalformedDateNeverMatches(date: string, month: int, day: int)
    requires |date| != 10
    ensures !BornOn(date, month, day)
  {
  }
}
