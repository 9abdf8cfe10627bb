/** The `User` record of pkg/user/user.go and its JSON form. */
module Users {

  /** One user. As a table row `password` holds the stored hash; query results leave it
      empty when the query did not select it. `telegramID` is 0 until the account is bound. */
  datatype User = User(
    id: int,
    username: string,
    firstName: string,
    middleName: string,
    lastName: string,
    password: string,
    birthday: string,
    telegram: string,
    telegramID: int)

  /** A JSON scalar, as `encoding/json` writes an `int64` or a `string` field. */
  datatype Json = JNumber(n: int) | JString(s: string)

  /** A JSON object as the ordered list of its members. */
  type JsonObject = seq<(string, Json)>

  function Keys(obj: JsonObject): (ks: seq<string>)
    ensures |ks| == |obj|
    ensures forall i :: 0 <= i < |obj| ==> ks[i] == obj[i].0
  {
    if obj == [] then [] else [obj[0].0] + Keys(obj[1..])
  }

  /** The JSON tags of `User`, in declaration order. */
  const AllKeys: seq<string> :=
    ["id", "username", "firstname", "middlename", "lastname", "password", "birthday", "telegram", "telegramid"]

  /** `AllKeys` without `password` (the `omitempty` case). */
  const KeysWithoutPassword: seq<string> :=
    ["id", "username", "firstname", "middlename", "lastname", "birthday", "telegram", "telegramid"]

  /** The field of `u` whose JSON tag is `key`. */
  function Member(u: User, key: string): Json
    requires key in AllKeys
  {
    match key
    case "id" => JNumber(u.id)
    case "username" => JString(u.username)
    case "firstname" => JString(u.firstName)
    case "middlename" => JString(u.middleName)
    case "lastname" => JString(u.lastName)
    case "password" => JString(u.password)
    case "birthday" => JString(u.birthday)
    case "telegram" => JString(u.telegram)
    case _ => JNumber(u.telegramID)
  }

  /** `json.Marshal` of a `User`: every field in declaration order under its tag, except
      that `password` is left out when it is empty (`omitempty`). */
  function Encode(u: User): (obj: JsonObject)
    ensures Keys(obj) == if u.password == "" then KeysWithoutPassword else AllKeys
    ensures forall i :: 0 <= i < |obj| ==> obj[i].0 in AllKeys && obj[i].1 == Member(u, obj[i].0)
  {
    var keys := if u.password == "" then KeysWithoutPassword else AllKeys;
    seq(|keys|, i requires 0 <= i < |keys| => (keys[i], Member(u, keys[i])))
  }
}
