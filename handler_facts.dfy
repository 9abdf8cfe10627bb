/** What the HTTP handlers promise: who is refused before anything is consulted, which
    fields each form requires, which status each outcome gets, and that a session is
    only opened for the user the repository returned. */
module HandlerFacts {
  import opened Wrappers
  import opened Users
  import opened Strings
  import opened Handlers
  import Repo
  import RepoFacts

  /** `dataValidation` reports nothing exactly when every required field is set, and
      otherwise one `{body, lower-cased name, is required}` entry per unset required field. */
  lemma {:induction false} ValidationExact(fields: seq<Field>)
    ensures ValidationErrors(fields).None? <==> forall f <- fields :: f.required ==> f.present
    ensures ValidationErrors(fields).Some? ==>
      var errors := ValidationErrors(fields).value;
      && |errors| == |Violations(fields)| > 0
      && (forall e <- errors :: e.location == "body" && e.msg == "is required"
            && exists f <- fields :: f.required && !f.present && e.param == ToLower(f.name))
      && (forall f <- fields :: f.required && !f.present ==> Entry(f) in errors)
  {
    var v := Violations(fields);
    if v == [] {
      forall f <- fields | f.required
        ensures f.present
      {
        assert f !in v;
      }
    } else {
      assert v[0] in v;
      ValidationEntries(fields);
    }
  }

  /** The entries of a failed validation, one per failing field. */
  lemma ValidationEntries(fields: seq<Field>)
    requires Violations(fields) != []
    ensures var errors := ValidationErrors(fields).value;
      && (forall e <- errors :: e.location == "body" && e.msg == "is required"
            && exists f <- fields :: f.required && !f.present && e.param == ToLower(f.name))
      && (forall f <- fields :: f.required && !f.present ==> Entry(f) in errors)
  {
    var v := Violations(fields);
    var errors := ValidationErrors(fields).value;
    assert errors == seq(|v|, i requires 0 <= i < |v| => Entry(v[i]));
    forall e <- errors
      ensures e.location == "body" && e.msg == "is required"
      ensures exists f <- fields :: f.required && !f.present && e.param == ToLower(f.name)
    {
      var k :| 0 <= k < |errors| && errors[k] == e;
      assert v[k] in v;
    }
    forall f <- fields | f.required && !f.present
      ensures Entry(f) in errors
    {
      assert f in v;
      var k :| 0 <= k < |v| && v[k] == f;
      assert errors[k] == Entry(f);
    }
  }

  /** The report of a form is its first field's entry, when that field fails, followed by
      the report of the other fields: the entries keep the fields' declaration order. */
  lemma EntriesCons(f: Field, rest: seq<Field>)
    ensures Entries(Violations([f] + rest)) ==
      (if f.required && !f.present then [Entry(f)] else []) + Entries(Violations(rest))
  {
    var head := if f.required && !f.present then [f] else [];
    assert ([f] + rest)[1..] == rest;
    assert Violations([f] + rest) == head + Violations(rest);
    EntriesAppend(head, Violations(rest));
    assert Entries(head) == if f.required && !f.present then [Entry(f)] else [];
  }

  lemma EntriesAppend(a: seq<Field>, b: seq<Field>)
    ensures Entries(a + b) == Entries(a) + Entries(b)
  {
    assert forall i :: 0 <= i < |a + b| ==> Entries(a + b)[i] == (Entries(a) + Entries(b))[i] by {
      forall i | 0 <= i < |a + b| ensures Entries(a + b)[i] == (Entries(a) + Entries(b))[i] {
        if i < |a| { assert (a + b)[i] == a[i]; } else { assert (a + b)[i] == b[i - |a|]; }
      }
    }
  }

  /** The entry for a parameter when its field is unset. */
  function Missing(unset: bool, param: string): seq<FieldError> {
    if unset then [FieldError("body", param, "is required")] else []
  }

  /** The positions, from `i` on, of the fields that fail, in increasing order. */
  function FailingFrom(fields: seq<Field>, i: nat): seq<nat>
    requires i <= |fields|
    decreases |fields| - i
  {
    if i == |fields| then []
    else (if fields[i].required && !fields[i].present then [i] else []) + FailingFrom(fields, i + 1)
  }

  /** `v` lists the fields of `fields[i..]` at the positions `idx`, which increase and are
      exactly the positions from `i` on of the required fields that are unset. */
  predicate ListsFailing(fields: seq<Field>, i: nat, v: seq<Field>, idx: seq<nat>) {
    && |idx| == |v|
    && (forall k :: 0 <= k < |idx| ==> i <= idx[k] < |fields| && v[k] == fields[idx[k]])
    && (forall k, l :: 0 <= k < l < |idx| ==> idx[k] < idx[l])
    && (forall j :: i <= j < |fields| ==> (j in idx <==> fields[j].required && !fields[j].present))
  }

  lemma {:induction false} ViolationsFrom(fields: seq<Field>, i: nat)
    requires i <= |fields|
    ensures ListsFailing(fields, i, Violations(fields[i..]), FailingFrom(fields, i))
    decreases |fields| - i
  {
    if i < |fields| {
      var v, idx := Violations(fields[i + 1..]), FailingFrom(fields, i + 1);
      ViolationsFrom(fields, i + 1);
      ViolationsAt(fields, i);
      if fields[i].required && !fields[i].present {
        assert FailingFrom(fields, i) == [i] + idx;
        FailingStep(fields, i, v, idx);
      } else {
        assert FailingFrom(fields, i) == [] + idx;
        assert [] + v == v && [] + idx == idx;
        PassingStep(fields, i, v, idx);
      }
    }
  }

  /** A failing field at position `i` goes in front. */
  lemma FailingStep(fields: seq<Field>, i: nat, v: seq<Field>, idx: seq<nat>)
    requires i < |fields| && fields[i].required && !fields[i].present
    requires ListsFailing(fields, i + 1, v, idx)
    ensures ListsFailing(fields, i, [fields[i]] + v, [i] + idx)
  {
    var v', idx' := [fields[i]] + v, [i] + idx;
    forall k | 0 <= k < |idx'| ensures i <= idx'[k] < |fields| && v'[k] == fields[idx'[k]] {
      if k > 0 { assert idx'[k] == idx[k - 1] && v'[k] == v[k - 1]; }
    }
    forall k, l | 0 <= k < l < |idx'| ensures idx'[k] < idx'[l] {
      if k > 0 { assert idx'[k] == idx[k - 1]; }
      assert idx'[l] == idx[l - 1];
    }
  }

  /** A field at position `i` that passes adds nothing. */
  lemma PassingStep(fields: seq<Field>, i: nat, v: seq<Field>, idx: seq<nat>)
    requires i < |fields| && !(fields[i].required && !fields[i].present)
    requires ListsFailing(fields, i + 1, v, idx)
    ensures ListsFailing(fields, i, v, idx)
  {
  }

  lemma ViolationsAt(fields: seq<Field>, i: nat)
    requires i < |fields|
    ensures Violations(fields[i..]) ==
      (if fields[i].required && !fields[i].present then [fields[i]] else []) + Violations(fields[i + 1..])
  {
    assert fields[i..] == [fields[i]] + fields[i + 1..];
    ViolationsCons(fields[i], fields[i + 1..]);
  }

  lemma ViolationsCons(f: Field, rest: seq<Field>)
    ensures Violations([f] + rest) == (if f.required && !f.present then [f] else []) + Violations(rest)
  {
    assert ([f] + rest)[1..] == rest;
  }

  /** `dataValidation` reports the failing fields in their declaration order: the k-th
      entry is for the field at the k-th failing position, the positions increase, and
      they are exactly the positions of the required fields that are unset. */
  lemma InDeclarationOrder(fields: seq<Field>)
    ensures var es, idx := Entries(Violations(fields)), FailingFrom(fields, 0);
      && |idx| == |es|
      && (forall k :: 0 <= k < |idx| ==> idx[k] < |fields| && es[k] == Entry(fields[idx[k]]))
      && (forall k, l :: 0 <= k < l < |idx| ==> idx[k] < idx[l])
      && (forall j :: 0 <= j < |fields| ==> (j in idx <==> fields[j].required && !fields[j].present))
  {
    assert fields[0..] == fields;
    ViolationsFrom(fields, 0);
  }

  /** The 422 list of the subscription handlers: `userid` before `subscriberid`. */
  lemma {:induction false} SubscribeEntries(sf: SubscribeForm)
    ensures ValidationErrors(SubscribeFields(sf)) ==
      if sf.userID != 0 && sf.subscriberID != 0 then None
      else Some(Missing(sf.userID == 0, "userid") + Missing(sf.subscriberID == 0, "subscriberid"))
  {
    LowerNames();
    var f0, f1 := Field("UserID", true, sf.userID != 0), Field("SubscriberID", true, sf.subscriberID != 0);
    var h0, h1 := if sf.userID == 0 then [f0] else [], if sf.subscriberID == 0 then [f1] else [];
    assert Violations(SubscribeFields(sf)) == h0 + h1 by {
      assert SubscribeFields(sf) == [f0] + [f1] && [f1] == [f1] + [];
      ViolationsCons(f1, []);
      ViolationsCons(f0, [f1]);
    }
    EntriesAppend(h0, h1);
    assert Entries(h0) == Missing(sf.userID == 0, "userid");
    assert Entries(h1) == Missing(sf.subscriberID == 0, "subscriberid");
  }

  /** `Login` requires only the password. */
  lemma LoginValidation(af: AuthForm)
    ensures ValidationErrors(AuthFields(af)) ==
      if af.password == "" then Some([FieldError("body", "password", "is required")]) else None
  {
    assert ToLower("Password") == "password";
    ValidationExact(AuthFields(af));
    if af.password == "" {
      var v := Violations(AuthFields(af));
      assert v == [Field("Password", true, false)];
      assert ValidationErrors(AuthFields(af)).value == [Entry(v[0])];
    }
  }

  /** `Register` requires every field but the middle name. */
  lemma {:induction false} RegisterValidation(rf: RegForm)
    ensures ValidationErrors(RegFields(rf)).None? <==>
      rf.username != "" && rf.firstName != "" && rf.lastName != "" && rf.password != ""
      && rf.birthday != "" && rf.telegram != ""
    ensures ValidationErrors(RegFields(rf)).Some? ==>
      forall e <- ValidationErrors(RegFields(rf)).value ::
        e.param in ["username", "firstname", "lastname", "password", "birthday", "telegram"]
  {
    ValidationExact(RegFields(rf));
    RegisterRequired(rf);
    RegisterParams(rf);
  }

  lemma RegisterRequired(rf: RegForm)
    ensures (forall f <- RegFields(rf) :: f.required ==> f.present) <==>
      rf.username != "" && rf.firstName != "" && rf.lastName != "" && rf.password != ""
      && rf.birthday != "" && rf.telegram != ""
  {
    var fields := RegFields(rf);
    assert fields[0] in fields && fields[1] in fields && fields[3] in fields;
    assert fields[4] in fields && fields[5] in fields && fields[6] in fields;
  }

  /** The lower-cased Go names of the form fields, as `strings.ToLower` gives them. */
  lemma LowerNames()
    ensures ToLower("Username") == "username" && ToLower("FirstName") == "firstname"
    ensures ToLower("LastName") == "lastname" && ToLower("Password") == "password"
    ensures ToLower("Birthday") == "birthday" && ToLower("Telegram") == "telegram"
    ensures ToLower("UserID") == "userid" && ToLower("SubscriberID") == "subscriberid"
  {
    assert ToLower("Username") == "username";
    assert ToLower("FirstName") == "firstname";
    assert ToLower("LastName") == "lastname";
    assert ToLower("Password") == "password";
    assert ToLower("Birthday") == "birthday";
    assert ToLower("Telegram") == "telegram";
    assert ToLower("UserID") == "userid";
    assert ToLower("SubscriberID") == "subscriberid";
  }

  /** The lower-cased names of `RegForm`'s required fields. */
  lemma RegisterParams(rf: RegForm)
    ensures forall f <- RegFields(rf) :: f.required ==>
      ToLower(f.name) in ["username", "firstname", "lastname", "password", "birthday", "telegram"]
  {
    LowerNames();
    var fields := RegFields(rf);
    forall f <- fields | f.required
      ensures ToLower(f.name) in ["username", "firstname", "lastname", "password", "birthday", "telegram"]
    {
      assert f.name in ["Username", "FirstName", "LastName", "Password", "Birthday", "Telegram"];
    }
  }

  /** The subscribe form requires two non-zero ids. */
  lemma {:induction false} SubscribeValidation(sf: SubscribeForm)
    ensures ValidationErrors(SubscribeFields(sf)).None? <==> sf.userID != 0 && sf.subscriberID != 0
    ensures sf.userID == 0 ==> FieldError("body", "userid", "is required") in ValidationErrors(SubscribeFields(sf)).value
    ensures sf.subscriberID == 0 ==>
      FieldError("body", "subscriberid", "is required") in ValidationErrors(SubscribeFields(sf)).value
  {
    var fields := SubscribeFields(sf);
    ValidationExact(fields);
    LowerNames();
    assert fields[0] in fields && fields[1] in fields;
    assert Entry(fields[0]).param == "userid" && Entry(fields[1]).param == "subscriberid";
  }

  /** A protected handler whose `Authorization` header lacks `Bearer ` answers 401 without
      consulting the session store, the body or the repository. */
  lemma WithoutBearer(authorization: string, check: string -> Option<Session>, read: BodyRead<SubscribeForm>,
                      subscribe: (int, int, int) -> Result<User, Repo.Error>, users: Result<seq<User>, Repo.Error>)
    requires !HasPrefix(authorization, "Bearer ")
    ensures GetUsers(authorization, check, users) == Exchange(Fail(401, ErrUserNotFound), [])
    ensures SubscribeToUser(authorization, check, read, subscribe) == Exchange(Fail(401, ErrUserNotFound), [])
    ensures UnsubscribeToUser(authorization, check, read, subscribe) == Exchange(Fail(401, ErrUserNotFound), [])
  {
  }

  /** A bearer token the session store does not know is answered 401, after one `Check`
      of the header with its first seven characters dropped. */
  lemma UnknownSession(authorization: string, check: string -> Option<Session>, read: BodyRead<SubscribeForm>,
                       subscribe: (int, int, int) -> Result<User, Repo.Error>, users: Result<seq<User>, Repo.Error>)
    requires HasPrefix(authorization, "Bearer ") && check(authorization[7..]).None?
    ensures var denied := Exchange(Fail(401, ErrUserNotFound), [CheckSession(authorization[7..])]);
      && GetUsers(authorization, check, users) == denied
      && SubscribeToUser(authorization, check, read, subscribe) == denied
      && UnsubscribeToUser(authorization, check, read, subscribe) == denied
  {
  }

  /** With a known session, `GetUsers` consults the session store and then the repository.
      A repository error is 400 with its text; otherwise 200 with every user marshalled,
      in order. */
  lemma GetUsersOutcome(authorization: string, check: string -> Option<Session>,
                        users: Result<seq<User>, Repo.Error>)
    requires HasPrefix(authorization, "Bearer ") && check(authorization[7..]).Some?
    ensures var ex := GetUsers(authorization, check, users);
      && ex.events == [CheckSession(authorization[7..]), CallGetUsers]
      && (users.Err? ==> ex.response == Fail(400, Repo.ErrorText(users.error)))
      && (users.Ok? ==>
            && ex.response.status == 200 && ex.response.body.Users?
            && |ex.response.body.users| == |users.value|
            && forall i :: 0 <= i < |users.value| ==> ex.response.body.users[i] == Encode(users.value[i]))
  {
  }

  /** `GetUsers` over the repository model: a driver error is 400 with the driver's
      message, an empty table is 400 `"no user found"`, and otherwise every user is listed
      without the password. */
  lemma {:induction false} GetUsersFromRepository(authorization: string, check: string -> Option<Session>,
                                                  t: Repo.Tables, fault: Option<string>)
    requires HasPrefix(authorization, "Bearer ") && check(authorization[7..]).Some?
    ensures var r := GetUsers(authorization, check, Repo.UsersQuery(t, fault)).response;
      && (fault.Some? ==> r == Fail(400, fault.value))
      && (fault.None? && t.users == [] ==> r == Fail(400, "no user found"))
      && (fault.None? && t.users != [] ==>
            && r.status == 200 && r.body.Users? && |r.body.users| == |t.users|
            && forall i :: 0 <= i < |t.users| ==> r.body.users[i] == Encode(Repo.Project(t.users[i], Repo.Listing)))
  {
    GetUsersOutcome(authorization, check, Repo.UsersQuery(t, fault));
  }

  /** A body that cannot be read is 400 `ErrReading`, one that does not decode is 400
      `ErrBadRequest`, in `Login`, `Register` and, past the session check, both
      subscription handlers; nothing after the body read is consulted. */
  lemma BodyFailures(authorize: (string, string) -> Result<User, Repo.Error>,
                     makeUser: Repo.Registration -> Result<User, Repo.Error>,
                     create: Session -> Option<string>, userAgent: string,
                     typeOf: int, authorization: string, check: string -> Option<Session>,
                     subscribe: (int, int, int) -> Result<User, Repo.Error>)
    requires HasPrefix(authorization, "Bearer ") && check(authorization[7..]).Some?
    ensures Login(ReadFailed, authorize, create, userAgent) == Exchange(Fail(400, ErrReading), [ReadBody])
    ensures Login(Malformed, authorize, create, userAgent) == Exchange(Fail(400, ErrBadRequest), [ReadBody])
    ensures Register(ReadFailed, makeUser, create, userAgent) == Exchange(Fail(400, ErrReading), [ReadBody])
    ensures Register(Malformed, makeUser, create, userAgent) == Exchange(Fail(400, ErrBadRequest), [ReadBody])
    ensures Subscription(typeOf, authorization, check, ReadFailed, subscribe)
      == Exchange(Fail(400, ErrReading), [CheckSession(authorization[7..]), ReadBody])
    ensures Subscription(typeOf, authorization, check, Malformed, subscribe)
      == Exchange(Fail(400, ErrBadRequest), [CheckSession(authorization[7..]), ReadBody])
  {
  }

  /** In `SubscribeToUser` and `UnsubscribeToUser` the session is checked before the body
      is read, and the repository is called only with the decoded, valid form and the
      handler's mode. The answer is 200 exactly when the repository call succeeds. */
  lemma {:induction false} SubscriptionOrder(typeOf: int, authorization: string, check: string -> Option<Session>,
                                              read: BodyRead<SubscribeForm>,
                                              subscribe: (int, int, int) -> Result<User, Repo.Error>)
    ensures var ex := Subscription(typeOf, authorization, check, read, subscribe);
      && (ReadBody in ex.events ==>
            BearerToken(authorization).Some? && ex.events[0] == CheckSession(BearerToken(authorization).value)
            && check(BearerToken(authorization).value).Some?)
      && (forall u, s, k :: CallSubscribe(u, s, k) in ex.events ==>
            && ReadBody in ex.events && read.Decoded? && u == read.form.userID && s == read.form.subscriberID
            && k == typeOf && ValidationErrors(SubscribeFields(read.form)).None?)
      && (ex.response.status == 200 <==>
            && ReadBody in ex.events && read.Decoded?
            && ValidationErrors(SubscribeFields(read.form)).None?
            && subscribe(read.form.userID, read.form.subscriberID, typeOf).Ok?)
      && (ex.response.status == 200 ==> ex.response.body == NoBody)
      && (read.Decoded? && ReadBody in ex.events && ValidationErrors(SubscribeFields(read.form)).None?
          && subscribe(read.form.userID, read.form.subscriberID, typeOf).Err? ==>
            ex.response == Fail(400, ErrBadRequest))
  {
    var ex := Subscription(typeOf, authorization, check, read, subscribe);
    if ReadBody in ex.events {
      assert ex.events[0] == CheckSession(BearerToken(authorization).value);
    }
  }

  /** `Login` never answers 401: an unknown user and a wrong password are both 400 with
      the repository's error text. */
  lemma LoginStatuses(read: BodyRead<AuthForm>, authorize: (string, string) -> Result<User, Repo.Error>,
                      create: Session -> Option<string>, userAgent: string)
    ensures Login(read, authorize, create, userAgent).response.status in {200, 400, 422, 500}
    ensures read.Decoded? && read.form.password != "" ==>
      match authorize(read.form.username, read.form.password)
      case Err(e) => Login(read, authorize, create, userAgent).response == Fail(400, Repo.ErrorText(e))
      case Ok(_) => Login(read, authorize, create, userAgent).response.status in {200, 500}
  {
    if read.Decoded? {
      LoginValidation(read.form);
    }
  }

  /** `Login` opens a session only for the user `Authorize` returned, with the request's
      user agent; it answers 200 with the session id, or 500 when the store refuses. */
  lemma {:induction false} LoginSession(read: BodyRead<AuthForm>, authorize: (string, string) -> Result<User, Repo.Error>,
                                         create: Session -> Option<string>, userAgent: string, sess: Session)
    ensures var ex := Login(read, authorize, create, userAgent);
      CreateSession(sess) in ex.events ==>
        && read.Decoded? && authorize(read.form.username, read.form.password).Ok?
        && var u := authorize(read.form.username, read.form.password).value;
           sess == Session(u.id, u.username, userAgent)
           && ex.response == (if create(sess).Some? then Response(200, Token(create(sess).value)) else Response(500, NoBody))
    ensures var ex := Login(read, authorize, create, userAgent);
      ex.response.status in {200, 500} ==> exists s :: CreateSession(s) in ex.events
  {
    var ex := Login(read, authorize, create, userAgent);
    if CreateSession(sess) in ex.events {
      assert ex.events == [ReadBody, CallAuthorize(read.form.username, read.form.password), CreateSession(sess)];
    }
    if ex.response.status in {200, 500} {
      assert CreateSession(ex.events[2].session) in ex.events;
    }
  }

  /** `Register` answers every `MakeUser` error with 400 and its text, so a taken username
      is `"already exists"` with status 400, and no session is opened. */
  lemma RegisterErrors(rf: RegForm, makeUser: Repo.Registration -> Result<User, Repo.Error>,
                       create: Session -> Option<string>, userAgent: string)
    requires ValidationErrors(RegFields(rf)).None?
    requires makeUser(Registration(rf)).Err?
    ensures var ex := Register(Decoded(rf), makeUser, create, userAgent);
      && ex.response == Fail(400, Repo.ErrorText(makeUser(Registration(rf)).error))
      && (makeUser(Registration(rf)) == Err(Repo.Exists) ==> ex.response == Fail(400, "already exists"))
      && forall s :: CreateSession(s) !in ex.events
  {
  }

  /** `Register` opens a session only for the user `MakeUser` returned. */
  lemma {:induction false} RegisterSession(read: BodyRead<RegForm>, makeUser: Repo.Registration -> Result<User, Repo.Error>,
                                            create: Session -> Option<string>, userAgent: string, sess: Session)
    ensures var ex := Register(read, makeUser, create, userAgent);
      CreateSession(sess) in ex.events ==>
        && read.Decoded? && ValidationErrors(RegFields(read.form)).None?
        && makeUser(Registration(read.form)).Ok?
        && var u := makeUser(Registration(read.form)).value;
           sess == Session(u.id, u.username, userAgent)
           && ex.response == (if create(sess).Some? then Response(200, Token(create(sess).value)) else Response(500, NoBody))
  {
    var ex := Register(read, makeUser, create, userAgent);
    if CreateSession(sess) in ex.events {
      assert ex.events == [ReadBody, CallMakeUser(Registration(read.form)), CreateSession(sess)];
    }
  }

  /** Served from the repository, `/api/users` never shows a password. */
  lemma {:induction false} GetUsersHidesPasswords(authorization: string, check: string -> Option<Session>,
                                                   t: Repo.Tables, fault: Option<string>)
    ensures var ex := GetUsers(authorization, check, Repo.UsersQuery(t, fault));
      ex.response.body.Users? ==> forall obj <- ex.response.body.users :: Keys(obj) == KeysWithoutPassword
  {
    var q := Repo.UsersQuery(t, fault);
    var ex := GetUsers(authorization, check, q);
    if ex.response.body.Users? {
      forall obj <- ex.response.body.users
        ensures Keys(obj) == KeysWithoutPassword
      {
        var k :| 0 <= k < |ex.response.body.users| && ex.response.body.users[k] == obj;
        assert obj == Encode(q.value[k]);
      }
    }
  }

  /** Over the repository model: a valid registration opens a session for the new id, and
      logging in with the same username and password then opens one for the same id. */
  lemma {:induction false} RegisterThenLogin(t: Repo.Tables, rf: RegForm, salt: string,
                                              create: Session -> Option<string>, userAgent: string)
    requires Repo.WellFormed(t) && !Repo.Taken(t.users, Registration(rf))
    requires ValidationErrors(RegFields(rf)).None?
    ensures var step := Repo.MakeUserStep(t, Registration(rf), salt, false);
      var reg := Register(Decoded(rf), r => Repo.MakeUserStep(t, r, salt, false).result, create, userAgent);
      var login := Login(Decoded(AuthForm(rf.username, rf.password)),
                         (n, p) => Repo.Authorize(step.after, n, p), create, userAgent);
      && CreateSession(Session(t.nextID, rf.username, userAgent)) in reg.events
      && CreateSession(Session(t.nextID, rf.username, userAgent)) in login.events
  {
    var r := Registration(rf);
    var step := Repo.MakeUserStep(t, r, salt, false);
    RepoFacts.MakeUserStoresHash(t, r, salt);
    var u := step.result.value;
    assert u.id == t.nextID && u.username == rf.username;
    var makeUser := r' => Repo.MakeUserStep(t, r', salt, false).result;
    assert makeUser(r) == Ok(u);
    assert Register(Decoded(rf), makeUser, create, userAgent) ==
      OpenSession(u, create, userAgent, [ReadBody, CallMakeUser(r)]);

    ValidationExact(RegFields(rf));
    RegisterRequired(rf);
    LoginValidation(AuthForm(rf.username, rf.password));
    RepoFacts.RegisterThenAuthorize(t, r, salt);
    var authorize := (n, p) => Repo.Authorize(step.after, n, p);
    var a := authorize(rf.username, rf.password);
    assert a.Ok? && a.value.id == t.nextID && a.value.username == rf.username;
    assert Login(Decoded(AuthForm(rf.username, rf.password)), authorize, create, userAgent) ==
      OpenSession(a.value, create, userAgent, [ReadBody, CallAuthorize(rf.username, rf.password)]);
  }

  /** Over the repository model: logging in as a user who has just registered, with any
      other password, opens no session. A non-empty password is answered 400 with
      `"invalid password"`, an empty one 422. */
  lemma WrongPasswordNoSession(t: Repo.Tables, rf: RegForm, salt: string, other: string,
                               create: Session -> Option<string>, userAgent: string)
    requires Repo.WellFormed(t) && !Repo.Taken(t.users, Registration(rf))
    requires other != rf.password
    ensures var after := Repo.MakeUserStep(t, Registration(rf), salt, false).after;
      var login := Login(Decoded(AuthForm(rf.username, other)),
                         (n, p) => Repo.Authorize(after, n, p), create, userAgent);
      && (forall s :: CreateSession(s) !in login.events)
      && login.response == (if other == "" then Response(422, Errors([FieldError("body", "password", "is required")]))
                            else Fail(400, "invalid password"))
  {
    RepoFacts.WrongPasswordRefused(t, Registration(rf), salt, other);
    LoginValidation(AuthForm(rf.username, other));
  }
}
