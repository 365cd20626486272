/** What every layer of the proxy shares: the HTTP request as the handlers see
    it, the records of the "users" and "meetings" collections, the response
    (status plus a tag for the JSON body), and the per-request behaviour of the
    two external services (identity service and document store). */
module Model {
  import opened Js

  /** A timestamp taken from `new Date()`; supplied by the caller. */
  type Time = int

  datatype Result<T> = Ok(value: T) | Err(error: string)

  datatype Verb = GET | POST | PUT | DELETE | PATCH

  /** An inbound request: method, path (without query string), the
      `Authorization` header, the JSON body and the parsed query string. */
  datatype Request = Request(
    verb: Verb,
    path: string,
    authorization: Option<string>,
    body: map<string, JsValue>,
    query: map<string, string>)

  /** `req.body.<key>`: a missing property reads as `undefined`. */
  function Field(body: map<string, JsValue>, key: string): JsValue
  {
    if key in body then body[key] else Undefined
  }

  /** A profile document of the "users" collection. */
  datatype Profile = Profile(
    uid: string,
    firstName: JsValue,
    lastName: JsValue,
    age: JsValue,
    email: JsValue,
    createdAt: Time)

  /** A document of the "meetings" collection. */
  datatype Meeting = Meeting(id: string, hostId: JsValue, hostName: JsValue, createdAt: Time)

  /** The shape of a JSON response body. */
  datatype Body =
    | Message(text: string)            // { message }
    | Failure(error: string)           // { error }: an upstream failure message passed through
    | InvalidToken(error: string)      // { message: "Invalid token", error }
    | Registered(uid: string)          // { message: "User registered", uid }
    | Session(token: JsValue, user: Profile)  // { token, user }
    | UserDoc(user: Profile)
    | Users(users: seq<Profile>)
    | MeetingDoc(meeting: Meeting)
    | Meetings(meetings: seq<Meeting>)
    | MeetingDeleted(id: string)       // { message: "Meeting deleted", id }
    | NoRoute                          // the framework's default reply to an unrouted request

  datatype Response = Response(status: nat, body: Body)

  /** The kinds of call a handler makes to an external service. */
  datatype Op =
    | Verify       // identity service: verifyIdToken
    | AuthUpdate   // identity service: updateUser
    | AuthDelete   // identity service: deleteUser
    | ResetLink    // identity service: generatePasswordResetLink
    | DocGet       // document store: get one document
    | DocSet       // document store: set one document
    | DocUpdate    // document store: update one document
    | DocDelete    // document store: delete one document
    | DocQuery     // document store: read a whole collection or an equality query

  /** The external services during one request: `tokens` is the token
      verification oracle (token to subject uid), and an operation in
      `faults` throws, with the given message, every time it is called. */
  /** A subject uid as the identity service issues it: never empty. */
  type Uid = s: string | s != "" witness "u"

  datatype Env = Env(tokens: map<string, Uid>, faults: map<Op, string>)
  {
    predicate Fails(op: Op)
    {
      op in faults
    }

    function ErrorText(op: Op): string
    {
      if op in faults then faults[op] else ""
    }

    /** `auth.verifyIdToken(token)`: succeeds with the subject uid for a
        string token the oracle knows, unless verification is made to fail. */
    function VerifyIdToken(token: JsValue): (r: Result<string>)
      ensures r.Ok? ==> r.value != "" && token.Str? && token.s in tokens && r.value == tokens[token.s]
      ensures token.Str? && token.s in tokens && !Fails(Verify) ==> r.Ok?
      ensures r.Err? ==> r.error == ErrorText(Verify)
    {
      if token.Str? && token.s in tokens && !Fails(Verify) then Ok(tokens[token.s])
      else Err(ErrorText(Verify))
    }
  }
}
