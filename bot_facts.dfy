/** How many greetings the daily cycle of bot/bot.go sends. The cycle is compared with
    an independent enumeration: the (birthday row, subscriber row) pairs, birthday row by
    birthday row, each subscriber row coming from the join of `GetSubscribedUsers`.
    For each pair the cycle sends exactly one greeting, in the order of the pairs. */
module BotFacts {
  import opened Wrappers
  import opened Users
  import opened Repo
  import opened Bot

  /** No element occurs twice. */
  predicate Distinct<T(==)>(s: seq<T>) {
    forall i, j :: 0 <= i < j < |s| ==> s[i] != s[j]
  }

  /** No two rows share an id. */
  predicate UniqueIds(users: seq<User>) {
    forall i, j :: 0 <= i < j < |users| ==> users[i].id != users[j].id
  }

  /** A birthday row and one row of its subscribers, as the cycle visits them. */
  datatype Pair = Pair(birthday: User, subscriber: User)

  /** The greeting a pair calls for: the birthday user's name, to the subscriber's chat. */
  function Announcement(p: Pair): Send {
    Send(p.subscriber.telegramID, Greeting(p.birthday))
  }

  function Announcements(ps: seq<Pair>): (r: seq<Send>)
    ensures |r| == |ps|
  {
    seq(|ps|, k requires 0 <= k < |ps| => Announcement(ps[k]))
  }

  /** The pairs of one birthday row: one per row of its subscriber join, none when its
      subscriber query fails. */
  function PairsFor(t: Tables, b: User, failing: map<int, string>): seq<Pair> {
    if b.id in failing then []
    else
      var subs := JoinRows(t.users, t.subscribes, b.id);
      seq(|subs|, j requires 0 <= j < |subs| => Pair(b, subs[j]))
  }

  /** The pairs of all birthday rows, front to back. */
  function Pairs(t: Tables, birthdays: seq<User>, failing: map<int, string>): seq<Pair> {
    if birthdays == [] then []
    else PairsFor(t, birthdays[0], failing) + Pairs(t, birthdays[1..], failing)
  }

  /** The number of subscriber rows, summed over the birthday rows whose subscriber query
      does not fail. */
  function SubscriberTotal(t: Tables, birthdays: seq<User>, failing: map<int, string>): nat {
    if birthdays == [] then 0
    else
      (if birthdays[0].id in failing then 0 else |JoinRows(t.users, t.subscribes, birthdays[0].id)|)
      + SubscriberTotal(t, birthdays[1..], failing)
  }

  lemma {:induction false} PairsCount(t: Tables, birthdays: seq<User>, failing: map<int, string>)
    ensures |Pairs(t, birthdays, failing)| == SubscriberTotal(t, birthdays, failing)
  {
    if birthdays != [] {
      PairsCount(t, birthdays[1..], failing);
    }
  }

  lemma {:induction false} PairsMembers(t: Tables, birthdays: seq<User>, failing: map<int, string>, p: Pair)
    ensures p in Pairs(t, birthdays, failing) <==>
      p.birthday in birthdays && p.birthday.id !in failing
      && p.subscriber in JoinRows(t.users, t.subscribes, p.birthday.id)
  {
    if birthdays != [] {
      PairsMembers(t, birthdays[1..], failing, p);
      var b := birthdays[0];
      assert birthdays == [b] + birthdays[1..];
      if p in PairsFor(t, b, failing) {
        var subs := JoinRows(t.users, t.subscribes, b.id);
        var j :| 0 <= j < |subs| && PairsFor(t, b, failing)[j] == p;
        assert subs[j] in subs;
      }
      if p.birthday == b && b.id !in failing && p.subscriber in JoinRows(t.users, t.subscribes, b.id) {
        var subs := JoinRows(t.users, t.subscribes, b.id);
        var j :| 0 <= j < |subs| && subs[j] == p.subscriber;
        assert PairsFor(t, b, failing)[j] == p;
      }
    }
  }

  lemma {:induction false} PairsSnoc(t: Tables, birthdays: seq<User>, b: User, failing: map<int, string>)
    ensures Pairs(t, birthdays + [b], failing) == Pairs(t, birthdays, failing) + PairsFor(t, b, failing)
  {
    if birthdays == [] {
      assert [b][1..] == [];
    } else {
      assert (birthdays + [b])[1..] == birthdays[1..] + [b];
      PairsSnoc(t, birthdays[1..], b, failing);
    }
  }

  lemma AnnouncementsAppend(a: seq<Pair>, b: seq<Pair>)
    ensures Announcements(a + b) == Announcements(a) + Announcements(b)
  {
  }

  /** The inner loop over one birthday user sends the greetings of its pairs. */
  lemma UserSendsPairs(t: Tables, b: User, failing: map<int, string>)
    ensures UserSends(t, Project(b, Listing), failing) == Announcements(PairsFor(t, b, failing))
  {
    var subs := JoinRows(t.users, t.subscribes, b.id);
    var q := SubscribersQuery(t, b.id, SubscriberFault(failing, b.id));
    if q.Ok? {
      var r := UserSends(t, Project(b, Listing), failing);
      assert r == Greetings(Project(b, Listing), q.value);
      assert Greeting(Project(b, Listing)) == Greeting(b);
      forall k | 0 <= k < |r|
        ensures r[k] == Announcements(PairsFor(t, b, failing))[k]
      {
        assert q.value[k] == Project(subs[k], WithChatID);
      }
    }
  }

  /** The rows `GetUserByBirthday` scans. */
  function Listed(rows: seq<User>): seq<User> {
    seq(|rows|, i requires 0 <= i < |rows| => Project(rows[i], Listing))
  }

  lemma FanOutSnoc(t: Tables, users: seq<User>, u: User, failing: map<int, string>)
    ensures FanOut(t, users + [u], failing) == FanOut(t, users, failing) + UserSends(t, u, failing)
  {
    assert (users + [u])[..|users|] == users;
  }

  lemma ListedSnoc(rows: seq<User>, last: User)
    ensures Listed(rows + [last]) == Listed(rows) + [Project(last, Listing)]
  {
  }

  lemma {:induction false} FanOutPairs(t: Tables, rows: seq<User>, failing: map<int, string>)
    ensures FanOut(t, Listed(rows), failing) == Announcements(Pairs(t, rows, failing))
    decreases |rows|
  {
    if rows != [] {
      var init, last := rows[..|rows| - 1], rows[|rows| - 1];
      assert rows == init + [last];
      ListedSnoc(init, last);
      FanOutSnoc(t, Listed(init), Project(last, Listing), failing);
      FanOutPairs(t, init, failing);
      PairsSnoc(t, init, last, failing);
      AnnouncementsAppend(Pairs(t, init, failing), PairsFor(t, last, failing));
      UserSendsPairs(t, last, failing);
    }
  }

  /** The cycle sends, in order, the greeting of each (birthday row, subscriber row) pair:
      as many greetings as there are pairs, the k-th for the k-th pair. */
  lemma NotificationsArePairs(t: Tables, month: int, day: int, failing: map<int, string>)
    ensures var pairs := Pairs(t, BirthdayRows(t.users, month, day), failing);
      && |Notifications(t, month, day, None, failing)| == |pairs|
              == SubscriberTotal(t, BirthdayRows(t.users, month, day), failing)
      && forall k :: 0 <= k < |pairs| ==> Notifications(t, month, day, None, failing)[k] == Announcement(pairs[k])
  {
    var rows := BirthdayRows(t.users, month, day);
    PairsCount(t, rows, failing);
    if rows != [] {
      assert BirthdayQuery(t, month, day, None).value == Listed(rows);
      FanOutPairs(t, rows, failing);
    }
  }

  lemma DistinctAppend<T>(a: seq<T>, b: seq<T>)
    requires Distinct(a) && Distinct(b)
    requires forall x :: x in a ==> x !in b
    ensures Distinct(a + b)
  {
    forall i, j | 0 <= i < j < |a + b|
      ensures (a + b)[i] != (a + b)[j]
    {
      if i < |a| && |a| <= j {
        assert (a + b)[i] in a && (a + b)[j] in b;
      }
    }
  }

  lemma {:induction false} WithIdAtMostOne(users: seq<User>, id: int)
    requires UniqueIds(users)
    ensures |WithId(users, id)| <= 1
  {
    if users != [] {
      var rest := WithId(users[1..], id);
      WithIdAtMostOne(users[1..], id);
      if users[0].id == id {
        forall k | 0 <= k < |users[1..]|
          ensures users[1..][k].id != id
        {
          assert users[1..][k] == users[k + 1];
        }
        WithIdNone(users[1..], id);
      }
    }
  }

  lemma {:induction false} WithIdNone(users: seq<User>, id: int)
    requires forall k :: 0 <= k < |users| ==> users[k].id != id
    ensures WithId(users, id) == []
  {
    if users != [] {
      WithIdNone(users[1..], id);
    }
  }

  /** Without repeated edges, no subscriber row is joined twice. */
  lemma {:induction false} JoinRowsDistinct(users: seq<User>, edges: seq<Edge>, id: int)
    requires UniqueIds(users) && Distinct(edges)
    ensures Distinct(JoinRows(users, edges, id))
  {
    if edges != [] {
      var e := edges[0];
      var head := if e.userID == id then WithId(users, e.subscriberID) else [];
      var rest := JoinRows(users, edges[1..], id);
      assert JoinRows(users, edges, id) == head + rest;
      WithIdAtMostOne(users, e.subscriberID);
      JoinRowsDistinct(users, edges[1..], id);
      forall u | u in head
        ensures u !in rest
      {
      }
      DistinctAppend(head, rest);
    }
  }

  lemma {:induction false} BirthdayRowsDistinct(users: seq<User>, month: int, day: int)
    requires Distinct(users)
    ensures Distinct(BirthdayRows(users, month, day))
  {
    if users != [] {
      var head := if BornOn(users[0].birthday, month, day) then [users[0]] else [];
      var rest := BirthdayRows(users[1..], month, day);
      assert BirthdayRows(users, month, day) == head + rest;
      BirthdayRowsDistinct(users[1..], month, day);
      forall u | u in head
        ensures u !in rest
      {
      }
      DistinctAppend(head, rest);
    }
  }

  lemma {:induction false} PairsDistinct(t: Tables, birthdays: seq<User>, failing: map<int, string>)
    requires Distinct(birthdays) && UniqueIds(t.users) && Distinct(t.subscribes)
    ensures Distinct(Pairs(t, birthdays, failing))
  {
    if birthdays != [] {
      var b := birthdays[0];
      var head := PairsFor(t, b, failing);
      var rest := Pairs(t, birthdays[1..], failing);
      assert Distinct(birthdays[1..]) by {
        forall i, j | 0 <= i < j < |birthdays[1..]|
          ensures birthdays[1..][i] != birthdays[1..][j]
        {
          assert birthdays[1..][i] == birthdays[i + 1] && birthdays[1..][j] == birthdays[j + 1];
        }
      }
      PairsDistinct(t, birthdays[1..], failing);
      JoinRowsDistinct(t.users, t.subscribes, b.id);
      forall p | p in head
        ensures p !in rest
      {
        PairsMembers(t, birthdays[1..], failing, p);
      }
      DistinctAppend(head, rest);
    }
  }

  /** With well-formed tables and no repeated edge, the cycle sends exactly one greeting
      per pair (user born that day whose subscriber query does not fail, subscriber of
      that user), and no two greetings come from the same pair. */
  lemma OnePerPair(t: Tables, month: int, day: int, failing: map<int, string>)
    requires WellFormed(t) && Distinct(t.subscribes)
    ensures var pairs := Pairs(t, BirthdayRows(t.users, month, day), failing);
      var sends := Notifications(t, month, day, None, failing);
      && Distinct(pairs)
      && |sends| == |pairs|
      && (forall k :: 0 <= k < |pairs| ==> sends[k] == Announcement(pairs[k]))
      && (forall p :: p in pairs <==>
            && p.birthday in t.users && BornOn(p.birthday.birthday, month, day) && p.birthday.id !in failing
            && p.subscriber in t.users && Edge(p.birthday.id, p.subscriber.id) in t.subscribes)
  {
    var rows := BirthdayRows(t.users, month, day);
    NotificationsArePairs(t, month, day, failing);
    assert Distinct(t.users);
    BirthdayRowsDistinct(t.users, month, day);
    PairsDistinct(t, rows, failing);
    forall p
      ensures p in Pairs(t, rows, failing) <==>
        && p.birthday in t.users && BornOn(p.birthday.birthday, month, day) && p.birthday.id !in failing
        && p.subscriber in t.users && Edge(p.birthday.id, p.subscriber.id) in t.subscribes
    {
      PairsMembers(t, rows, failing, p);
    }
  }
}
