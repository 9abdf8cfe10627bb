/** pkg/handlers/user.go: the HTTP API. Each handler is an early-return chain that ends
    in one status and body. Its collaborators are inputs: the outcome of reading and
    decoding the body, the session store's `Check` and `Create`, and the repository
    calls. The `events` of an exchange record which collaborators were consulted, in
    order. */
module Handlers {
  import opened Wrappers
  import opened Users
  import opened Strings
  import Repo

  /** The bodies `http.Error` is given. `ErrInvalidPass` is only used by a branch of
      `Login` that cannot run. */
  const ErrReading: string := "{\"message\": \"error reading request\"}"
  const ErrUserNotFound: string := "{\"message\":\"user not found\"}"
  const ErrInvalidPass: string := "{\"message\":\"invalid password\"}"
  const ErrBadRequest: string := "{\"message\": \"bad request\"}"

  /** `AuthForm`, `RegForm` and `SubscribeForm` after `json.Unmarshal`. */
  datatype AuthForm = AuthForm(username: string, password: string)
  datatype RegForm = RegForm(
    username: string,
    firstName: string,
    middleName: string,
    lastName: string,
    password: string,
    birthday: string,
    telegram: string)
  datatype SubscribeForm = SubscribeForm(userID: int, subscriberID: int)

  /** `io.ReadAll` then `json.Unmarshal` into the form. */
  datatype BodyRead<F> = ReadFailed | Malformed | Decoded(form: F)

  /** A form field as the validator sees it: its Go name, whether it is tagged
      `validate:"required"`, and whether its value is non-zero. */
  datatype Field = Field(name: string, required: bool, present: bool)

  function AuthFields(f: AuthForm): seq<Field> {
    [Field("Username", false, f.username != ""), Field("Password", true, f.password != "")]
  }

  function RegFields(f: RegForm): seq<Field> {
    [Field("Username", true, f.username != ""),
     Field("FirstName", true, f.firstName != ""),
     Field("MiddleName", false, f.middleName != ""),
     Field("LastName", true, f.lastName != ""),
     Field("Password", true, f.password != ""),
     Field("Birthday", true, f.birthday != ""),
     Field("Telegram", true, f.telegram != "")]
  }

  function SubscribeFields(f: SubscribeForm): seq<Field> {
    [Field("UserID", true, f.userID != 0), Field("SubscriberID", true, f.subscriberID != 0)]
  }

  /** `validator.Struct(form)`: the failing fields, in declaration order. */
  function Violations(fields: seq<Field>): (v: seq<Field>)
    ensures forall f :: f in v <==> f in fields && f.required && !f.present
    ensures |v| <= |fields|
  {
    if fields == [] then []
    else
      assert fields == [fields[0]] + fields[1..];
      (if fields[0].required && !fields[0].present then [fields[0]] else []) + Violations(fields[1..])
  }

  /** One entry of the `"errors"` list. */
  datatype FieldError = FieldError(location: string, param: string, msg: string)

  function Entry(f: Field): FieldError {
    FieldError("body", ToLower(f.name), "is required")
  }

  /** One entry per failing field, in the fields' order. */
  function Entries(v: seq<Field>): (es: seq<FieldError>)
    ensures |es| == |v|
  {
    seq(|v|, i requires 0 <= i < |v| => Entry(v[i]))
  }

  /** What `dataValidation` returns: `nil` when every required field is set, otherwise
      one entry per failing field. */
  function ValidationErrors(fields: seq<Field>): Option<seq<FieldError>> {
    var v := Violations(fields);
    if v == [] then None else Some(Entries(v))
  }

  /** `dataValidation`: the loop appending one entry per validation error. */
  method DataValidation(fields: seq<Field>) returns (errors: Option<seq<FieldError>>)
    ensures errors == ValidationErrors(fields)
  {
    var violations := Violations(fields);
    if violations == [] {
      return None;
    }
    var newErrors: seq<FieldError> := [];
    var i := 0;
    while i < |violations|
      invariant 0 <= i <= |violations|
      invariant |newErrors| == i
      invariant forall k :: 0 <= k < i ==> newErrors[k] == Entry(violations[k])
    {
      newErrors := newErrors + [FieldError("body", ToLower(violations[i].name), "is required")];
      i := i + 1;
    }
    assert newErrors == ValidationErrors(fields).value;
    errors := Some(newErrors);
  }

  /** `sessions.Session`. */
  datatype Session = Session(id: int, login: string, userAgent: string)

  /** What a handler wrote: `NoBody` for a bare `WriteHeader` or no write at all, `Text`
      for `http.Error` (which ends the message with a newline), `Errors` for the
      `{"errors": [...]}` document, `Token` for `{"session": id}`, `Users` for the
      marshalled user list. */
  datatype Body = NoBody | Text(text: string) | Errors(errors: seq<FieldError>) | Token(session: string)
                | Users(users: seq<JsonObject>)

  datatype Response = Response(status: int, body: Body)

  /** A collaborator consulted by a handler. */
  datatype Event =
    | ReadBody
    | CheckSession(token: string)
    | CreateSession(session: Session)
    | CallAuthorize(username: string, password: string)
    | CallMakeUser(registration: Repo.Registration)
    | CallGetUsers
    | CallSubscribe(userID: int, subscriberID: int, typeOf: int)

  datatype Exchange = Exchange(response: Response, events: seq<Event>)

  /** `http.Error(w, message, status)`. */
  function Fail(status: int, message: string): Response {
    Response(status, Text(message + "\n"))
  }

  /** The token after `Bearer `, or `None` when the header does not start with it. */
  function BearerToken(header: string): (token: Option<string>)
    ensures token.Some? <==> HasPrefix(header, "Bearer ")
    ensures token.Some? ==> "Bearer " + token.value == header
  {
    if HasPrefix(header, "Bearer ") then
      assert header == header[..7] + header[7..];
      Some(header[7..])
    else None
  }

  /** The prefix is the only thing checked: any token written after it is read back. */
  lemma BearerRoundTrip(token: string)
    ensures BearerToken("Bearer " + token) == Some(token)
  {
    assert ("Bearer " + token)[..7] == "Bearer ";
  }

  /** The end shared by `Login` and `Register`: create the session of the user the
      repository returned, then answer with its id. */
  function OpenSession(u: User, create: Session -> Option<string>, userAgent: string, events: seq<Event>): Exchange {
    var sess := Session(u.id, u.username, userAgent);
    match create(sess)
    case None => Exchange(Response(500, NoBody), events + [CreateSession(sess)])
    case Some(id) => Exchange(Response(200, Token(id)), events + [CreateSession(sess)])
  }

  /** `Login`. Every `Authorize` error is answered with 400 and the error's text; the
      checks for `ErrNoUser` and `ErrBadPass` that follow never run. */
  function Login(read: BodyRead<AuthForm>, authorize: (string, string) -> Result<User, Repo.Error>,
                 create: Session -> Option<string>, userAgent: string): Exchange
  {
    match read
    case ReadFailed => Exchange(Fail(400, ErrReading), [ReadBody])
    case Malformed => Exchange(Fail(400, ErrBadRequest), [ReadBody])
    case Decoded(af) =>
      match ValidationErrors(AuthFields(af))
      case Some(errors) => Exchange(Response(422, Errors(errors)), [ReadBody])
      case None =>
        var events := [ReadBody, CallAuthorize(af.username, af.password)];
        match authorize(af.username, af.password)
        case Err(e) => Exchange(Fail(400, Repo.ErrorText(e)), events)
        case Ok(u) => OpenSession(u, create, userAgent, events)
  }

  function Registration(rf: RegForm): Repo.Registration {
    Repo.Registration(rf.username, rf.password, rf.firstName, rf.middleName, rf.lastName, rf.birthday, rf.telegram)
  }

  /** `Register`. Every `MakeUser` error is answered with 400 and the error's text; the
      `"already exists"` entry and its 422 that follow never run. */
  function Register(read: BodyRead<RegForm>, makeUser: Repo.Registration -> Result<User, Repo.Error>,
                    create: Session -> Option<string>, userAgent: string): Exchange
  {
    match read
    case ReadFailed => Exchange(Fail(400, ErrReading), [ReadBody])
    case Malformed => Exchange(Fail(400, ErrBadRequest), [ReadBody])
    case Decoded(rf) =>
      match ValidationErrors(RegFields(rf))
      case Some(errors) => Exchange(Response(422, Errors(errors)), [ReadBody])
      case None =>
        var events := [ReadBody, CallMakeUser(Registration(rf))];
        match makeUser(Registration(rf))
        case Err(e) => Exchange(Fail(400, Repo.ErrorText(e)), events)
        case Ok(u) => OpenSession(u, create, userAgent, events)
  }

  /** `GetUsers`: the bearer check, the session check, then the repository. */
  function GetUsers(authorization: string, check: string -> Option<Session>,
                    users: Result<seq<User>, Repo.Error>): Exchange
  {
    match BearerToken(authorization)
    case None => Exchange(Fail(401, ErrUserNotFound), [])
    case Some(token) =>
      if check(token).None? then Exchange(Fail(401, ErrUserNotFound), [CheckSession(token)])
      else
        var events := [CheckSession(token), CallGetUsers];
        match users
        case Err(e) => Exchange(Fail(400, Repo.ErrorText(e)), events)
        case Ok(us) => Exchange(Response(200, Users(seq(|us|, i requires 0 <= i < |us| => Encode(us[i])))), events)
  }

  /** `SubscribeToUser` (mode 1) and `UnsubscribeToUser` (mode 0). A repository error is
      answered with 400 and `ErrBadRequest`; success writes nothing, which is 200. */
  function Subscription(typeOf: int, authorization: string, check: string -> Option<Session>,
                        read: BodyRead<SubscribeForm>,
                        subscribe: (int, int, int) -> Result<User, Repo.Error>): Exchange
  {
    match BearerToken(authorization)
    case None => Exchange(Fail(401, ErrUserNotFound), [])
    case Some(token) =>
      if check(token).None? then Exchange(Fail(401, ErrUserNotFound), [CheckSession(token)])
      else
        var events := [CheckSession(token), ReadBody];
        match read
        case ReadFailed => Exchange(Fail(400, ErrReading), events)
        case Malformed => Exchange(Fail(400, ErrBadRequest), events)
        case Decoded(sf) =>
          match ValidationErrors(SubscribeFields(sf))
          case Some(errors) => Exchange(Response(422, Errors(errors)), events)
          case None =>
            var events' := events + [CallSubscribe(sf.userID, sf.subscriberID, typeOf)];
            match subscribe(sf.userID, sf.subscriberID, typeOf)
            case Err(_) => Exchange(Fail(400, ErrBadRequest), events')
            case Ok(_) => Exchange(Response(200, NoBody), events')
  }

  function SubscribeToUser(authorization: string, check: string -> Option<Session>, read: BodyRead<SubscribeForm>,
                           subscribe: (int, int, int) -> Result<User, Repo.Error>): Exchange
  {
    Subscription(1, authorization, check, read, subscribe)
  }

  function UnsubscribeToUser(authorization: string, check: string -> Option<Session>, read: BodyRead<SubscribeForm>,
                             subscribe: (int, int, int) -> Result<User, Repo.Error>): Exchange
  {
    Subscription(0, authorization, check, read, subscribe)
  }
}
