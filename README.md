# Users & meetings proxy: request-decision layer in Dafny

This project models the decision layer of a small Express backend. The backend
fronts two resources, users and meetings, and delegates storage and
authentication to Firebase (an identity service and the Firestore document
store). The model covers:

- the bearer-token middleware `requireAuth`;
- the eight user handlers;
- the four meeting handlers;
- the two route tables, mounted at `/api/users` and `/api/meetings`;
- the pipeline that joins them: mount, route, middleware chain, handler.

Files and modules:

- `js.dfy` (`Js`): the primitive JSON values a handler reads from a request body. Also JavaScript truthiness (`!v`), `??`, and the text a template literal inserts.
- `model.dfy` (`Model`): the request, the response (status plus a tag for the JSON body), the profile and meeting records, and `Env`. `Env` describes the external services during one request. `tokens` is the token-verification oracle, from token to the subject uid. `faults` holds the message with which each kind of external call throws, if it does.
- `auth_middleware.dfy` (`AuthMiddleware`): `split(" ")` and its inverse, the token extraction rule, and `requireAuth`.
- `user_controller.dfy` (`UserController`): the identity patch, provision-if-absent, the read-only handlers as functions, and class `Users`. That class holds the "users" collection (`docs`), the identity records (`identities`), and `accepted`. `accepted` lists the writes the services accepted whose effect the model does not compute: identity patches and profile updates. The state-changing handlers are methods of this class. Each handler's whole contract is a named predicate (`RegisterSpec`, `UpdateUserSpec` and so on). The method ensures it, and so does the pipeline whenever it runs that handler.
- `meeting_controller.dfy` (`MeetingController`): the meeting-id format produced by `Math.random().toString(36).substring(2, 10)`, and class `Meetings`, which holds the "meetings" collection.
- `routes.dfy` (`Routes`): the route tables as functions from verb and path to a middleware chain, the mount prefixes, and class `Server`. `Server.Handle` runs one request end to end.

Behaviour of the code that the model keeps as written:

- `register` answers `{message: "User registered", uid}`, not the stored profile.
- A verification failure inside the handlers `register`, `providerLogin` and `updateUser` is a 500, not a 401. Through PUT `/api/users/:uid` the middleware verifies first, so a bad token there gets its 401 "Invalid token", and the handler's 500 is never seen.
- `providerLogin`'s 500 answers carry the failure under `message`. The 500 answers of the other handlers carry it under `error`.
- A generated meeting id has at most 8 base-36 digits. It can be shorter.
- `deleteUser` checks no ownership: any caller can delete any user.
- A first provider login whose body has no `email` is answered 500 and writes nothing, because the document store's client refuses an `undefined` field in `set`.
- A header whose token field is present but empty (`"Bearer "`, `"Bearer  t"`) is rejected, just like a header with no field at all.

## Model

| member | source | states |
|---|---|---|
| `Js.Truthy` | server/src/controllers/user.controller.ts:18 | Defined as JavaScript truthiness: `undefined`, `null`, `false`, `0` and `""` are falsy, and every other value is truthy. Every presence check (user.controller.ts:18, 70, 115 and meeting.controller.ts:19, 78) is its negation. |
| `Model.Env.VerifyIdToken` | server/src/middlewares/auth.middleware.ts:32 | The verification oracle behind every `verifyIdToken` call (also user.controller.ts:23, 74, 156). A success gives the non-empty uid the oracle maps a string token to. A known token verifies unless verification is made to fail. A failure carries the injected message. |
| `Js.NatToDecimal` | server/src/controllers/user.controller.ts:169 | The text a number contributes to the display name is a decimal numeral with no leading zero that denotes the number again. |
| `AuthMiddleware.Split` | server/src/middlewares/auth.middleware.ts:24 | `split(" ")` yields at least one field, and no field contains a space. |
| `AuthMiddleware.JoinSplit` | server/src/middlewares/auth.middleware.ts:24 | Joining the fields with single spaces gives the header back. |
| `AuthMiddleware.SplitJoin` | server/src/middlewares/auth.middleware.ts:24 | Splitting a join of space-free fields gives those fields back. |
| `AuthMiddleware.NoSpaceNoToken` | server/src/middlewares/auth.middleware.ts:24-29 | `split(" ")[1]` is undefined exactly when the header has no space. |
| `AuthMiddleware.TokenAfterScheme` | server/src/middlewares/auth.middleware.ts:24 | For any space-free scheme word, the token is the field after the first space, up to the next space or the end. |
| `AuthMiddleware.TokenShape` | server/src/middlewares/auth.middleware.ts:24 | A token found is space-free, and the header is its scheme word, a space, the token, and either nothing or a space-led rest. |
| `AuthMiddleware.TokenExamples` | server/src/middlewares/auth.middleware.ts:24-29 | "Basic x" yields "x", since the scheme is not checked. "Bearer" yields no token. "Bearer " and "Bearer  t" both yield "". |
| `AuthMiddleware.HeaderPresent` | server/src/middlewares/auth.middleware.ts:19 | Defined as the negation of `!header`: the header is present and not the empty string. |
| `AuthMiddleware.SecondField` | server/src/middlewares/auth.middleware.ts:24 | `split(" ")[1]` exists exactly when the string holds a space, and is itself space-free. |
| `AuthMiddleware.BearerToken` | server/src/controllers/user.controller.ts:150 | `authorization?.split(" ")[1]` is a token exactly for a present header holding a space, and the token is space-free. |
| `AuthMiddleware.Credential` | server/src/middlewares/auth.middleware.ts:19-29 | A usable token is a non-empty, space-free second field. It requires a present, non-empty header holding a space, so passing the token check implies passing the header check. |
| `AuthMiddleware.RequireAuth` | server/src/middlewares/auth.middleware.ts:13-44 | Every rejection is a 401. The request is passed on exactly when it carries a non-empty token that verifies. The only change to the request is `authUid` in its body, set to the verified uid. |
| `AuthMiddleware.Rejections` | server/src/middlewares/auth.middleware.ts:19-43 | A missing or empty header gives "Authorization header missing". No usable token gives "Token missing". A failed verification gives "Invalid token" plus the failure message. |
| `AuthMiddleware.NoTokenNoVerification` | server/src/middlewares/auth.middleware.ts:19-32 | Without a token the outcome is a rejection and does not depend on the verification oracle at all, so the verifier is never consulted. |
| `UserController.DisplayName` | server/src/controllers/user.controller.ts:169 | Defined as the template literal `${firstName ?? ""} ${lastName ?? ""}`: each side is the text of the value, with null and undefined read as "". Its properties are the two lemmas below. |
| `UserController.DisplayNameOfStrings` | server/src/controllers/user.controller.ts:168-169 | Two names are joined by one space. A null or undefined name leaves its side empty. |
| `UserController.DisplayNameKeepsFalsyValues` | server/src/controllers/user.controller.ts:169 | `??` replaces only null and undefined, so `0` or `false` as a first name is written out as "0" or "false". |
| `UserController.IdentityPatch` | server/src/controllers/user.controller.ts:164-169 | The patch has `email` iff the email is truthy, `password` iff the password is truthy, and `displayName` iff either name is truthy. Each present field carries the body's value or the combined name. |
| `UserController.PatchSentIff` | server/src/controllers/user.controller.ts:171-173 | The patch has a key, and so is sent, exactly when one of email, password, firstName or lastName is truthy. |
| `UserController.ProfileUpdateOf` | server/src/controllers/user.controller.ts:176-182 | Defined as the object literal of lines 176-182: the four body fields as given, `undefined` when absent. Its contract states that `updatedAt` is always the current time, and that a missing `age` is sent as `undefined`. |
| `UserController.UpdateReadsOnlyItsFields` | server/src/controllers/user.controller.ts:146-182 | A body key other than email, password, firstName, lastName and age, such as the `authUid` the middleware adds, changes neither the identity patch nor the profile update. |
| `UserController.RegisterFieldsPresent` | server/src/controllers/user.controller.ts:18 | Defined as all five fields being truthy, so `age: 0`, `""` and `false` count as missing. `Users.Register` answers 400 exactly when it fails. |
| `UserController.RegisteredProfile` | server/src/controllers/user.controller.ts:27-34 | Defined as the object literal `register` stores: the verified uid, the body's four profile fields as given, and the current time as `createdAt`. |
| `UserController.FirstLoginProfile` | server/src/controllers/user.controller.ts:83-90 | The first-login profile has the subject's uid, the body's email, `""` as first and last name (both falsy), `null` as age (falsy, but not undefined), and the current time. |
| `UserController.Provision` | server/src/controllers/user.controller.ts:81-91 | Provision-if-absent adds exactly the key `uid`. Every existing profile, including one under `uid`, is kept. A new key gets the empty first-login profile. |
| `UserController.ProvisionIdempotent` | server/src/controllers/user.controller.ts:78-94 | A second provider login of the same subject leaves the collection as the first left it. |
| `UserController.Login` | server/src/controllers/user.controller.ts:54-59 | Whatever the request, the answer is 501 with the fixed notice. |
| `UserController.RecoverPassword` | server/src/controllers/user.controller.ts:111-123 | A falsy email gives 400 "Email is required". Otherwise the answer is 200 "Password reset email sent" exactly when the service call succeeds, and 500 with its message when it fails. |
| `UserController.RecoverPasswordAddressUnread` | server/src/controllers/user.controller.ts:115-119 | Two requests with a truthy email, under the same outcome of the service's call, get the same answer: the answer depends on the address only through that outcome. |
| `UserController.RecoverPasswordNeedsNoService` | server/src/controllers/user.controller.ts:115 | With a falsy email the answer does not depend on the identity service. |
| `UserController.Users.Register` | server/src/controllers/user.controller.ts:14-45 | A falsy field (so `age: 0` and `""` count) gives 400 with no write. A failed verification gives 500 with no write. Otherwise `docs[uid]` is set to the new profile, overwriting any existing one, with no other change, and the answer is 201 with that uid. |
| `UserController.Users.ProviderLogin` | server/src/controllers/user.controller.ts:66-105 | A missing token gives 400. A failure gives 500 with no write. A first login whose body has no `email` gives 500 with the store's refusal of an `undefined` field, and no write. On success the collection is `Provision` of the old one, and the answer holds the input token verbatim and the profile now stored. |
| `UserController.Users.GetUser` | server/src/controllers/user.controller.ts:129-138 | 200 with the stored profile iff the key is present. 404 "User not found" iff it is absent. 500 when the read fails. |
| `UserController.Users.UpdateUser` | server/src/controllers/user.controller.ts:144-190 | No token gives 401 and a failed verification gives 500. A verified uid other than `:uid` gives 403 whatever the body, with no write. For the owner, the identity patch is sent only when non-empty and always before the profile update, which always carries `updatedAt`. A failure leaves exactly the writes accepted before it. |
| `UserController.Users.AuthDeleteError` | server/src/controllers/user.controller.ts:201 | `auth.deleteUser(uid)` is refused exactly when a failure is injected or no identity record exists under `uid`. The refusal carries the injected message, or `NoUserRecord`. |
| `UserController.Users.DeleteUser` | server/src/controllers/user.controller.ts:197-208 | There is no ownership check. The identity goes first. If the identity service refuses, because of a failure or because no identity record exists under the uid, nothing changes and the answer is 500. If the profile delete fails, the identity is gone, the profile stays, and the answer is 500. Complete success removes both and answers 200. |
| `UserController.Users.ListUsers` | server/src/controllers/user.controller.ts:214-223 | 200 with every stored profile exactly once, each the document under its own uid. 500 when the read fails. |
| `MeetingController.MeetingId` | server/src/controllers/meeting.controller.ts:23 | The generated id is the first (at most) 8 fraction digits of the base-36 rendering, so it is at most 8 characters from `[0-9a-z]`. |
| `MeetingController.Meetings.CreateMeeting` | server/src/controllers/meeting.controller.ts:13-43 | A falsy `uid` or `hostName` gives 400 "uid & hostName required" with no write. An empty generated id, from a random draw of 0, is a document path the store refuses, so the answer is 500 with no write. Otherwise only key `id` is set, overwriting silently, with `hostId` taken from the body's `uid`, and the 201 body is exactly the stored record. |
| `MeetingController.Meetings.GetMeeting` | server/src/controllers/meeting.controller.ts:49-66 | 200 with the stored record iff present. 404 "Meeting not found" iff absent. 500 when the read fails. Nothing changes. |
| `MeetingController.QueryUid` | server/src/controllers/meeting.controller.ts:75 | Defined as `req.query.uid`: the query value when the key is present, otherwise none. |
| `MeetingController.Meetings.ListMeetings` | server/src/controllers/meeting.controller.ts:72-92 | A missing or empty `uid` query gives 400. Otherwise the list holds exactly the meetings whose `hostId` equals it, each once. No match gives 200 with an empty list, not 404. |
| `MeetingController.Meetings.DeleteMeeting` | server/src/controllers/meeting.controller.ts:98-112 | Only key `id` is removed, with no ownership check. The answer `{message: "Meeting deleted", id}` does not depend on whether the meeting existed. |
| `MeetingController.DeleteIdempotent` | server/src/controllers/meeting.controller.ts:101-107 | Deleting twice leaves the same collection as deleting once. Every other key keeps its record. |
| `Routes.Shape` | server/src/routes/user.ts:21-25 | A path is the router root, or one non-empty segment with no `/` and an optional trailing slash, which is what `/` and `/:uid` (or `/:id`) match. |
| `Routes.PostLiteralHandler` | server/src/routes/user.ts:16-19 | The four POST literals name `register`, `login`, `providerLogin` and `recoverPassword`: user handlers that take no parameter, none of them `updateUser`. |
| `Routes.UserRoute` | server/src/routes/user.ts:16-25 | Every user route ends in a user handler, and it runs `requireAuth` exactly when that handler is `updateUser`. |
| `Routes.UserPostRoutes` | server/src/routes/user.ts:16-21 | POST `/register`, `/login`, `/provider-login` and `/recover-password`, and GET `/`, each reach their handler with no gate. |
| `Routes.PostLiteralAnyCase` | server/src/routes/user.ts:16 | Route literals match regardless of case, so POST `/REGISTER` reaches `register`. |
| `Routes.UserSegmentRoutes` | server/src/routes/user.ts:22-25 | GET and DELETE `/:uid` reach `getUser` and `deleteUser` ungated. PUT `/:uid` runs `requireAuth` and then `updateUser`. |
| `Routes.GetRegisterIsLookup` | server/src/routes/user.ts:16-22 | GET `/register` is a profile lookup for the uid "register", because the literals are POST-only. |
| `Routes.MeetingRoute` | server/src/routes/meeting.routes.ts:7-10 | Every meeting route runs `requireAuth` first and ends in a meeting handler. |
| `Routes.MeetingSegmentRoutes` | server/src/routes/meeting.routes.ts:9-10 | GET and DELETE `/:id` run `requireAuth` and then `getMeeting` or `deleteMeeting`. |
| `Routes.Unmount` | server/src/app.ts:23-26 | A path under a mount starts with the prefix in any case, at a segment boundary. The router sees the rest, which begins with `/`. One slash that is followed by another is taken in with the prefix, so the path is the prefix plus the rest, with or without that slash. |
| `Routes.DoubledSlashAfterMount` | server/src/app.ts:23 | GET `/api/users//x` looks up uid "x", and GET `/api/users//` lists the users. |
| `Routes.MountsDisjoint` | server/src/app.ts:23-26 | No path lies under both `/api/users` and `/api/meetings`. |
| `Routes.Dispatch` | server/src/app.ts:23-26 | A path under a mount is routed by that mount's table. A path under neither mount has no route. |
| `Routes.MeetingRoutesGated` | server/src/routes/meeting.routes.ts:7-10 | Every routed request under `/api/meetings` has the chain `requireAuth`, then a meeting handler. |
| `Routes.ReachedIff` | server/src/app.ts:23-26 | A handler is reached exactly when the request is routed and, on a gated route, the middleware admits it. The handler reached is the route's own. |
| `Routes.UpdateNeedsValidToken` | server/src/routes/user.ts:23 | PUT `/api/users/:uid` reaches `updateUser` exactly when the request presents a token that verifies, and otherwise reaches no handler. |
| `Routes.MeetingHandlersNeedValidToken` | server/src/routes/meeting.routes.ts:7-10 | A request under `/api/meetings` that reaches a handler presents a token that verifies, and reaches a meeting handler. |
| `Routes.OpenUserRoutes` | server/src/routes/user.ts:16-25 | Every user route except PUT `/:uid` reaches its handler, whatever the token and the identity service say. |
| `Routes.Server.RunUser` | server/src/routes/user.ts:16-25 | A user handler answers and changes the user stores exactly as its own contract (`RegisterSpec`, `ProviderLoginSpec`, `UpdateUserSpec`, `DeleteUserSpec`, `ListUsersSpec`, or the read-only function) says, and leaves the meetings unchanged. |
| `Routes.Server.RunMeeting` | server/src/routes/meeting.routes.ts:7-10 | A meeting handler answers and changes the meetings exactly as its own contract (`CreateMeetingSpec`, `ListMeetingsSpec`, `DeleteMeetingSpec`, or `GetMeeting`) says, and leaves the user stores unchanged. |
| `Routes.Server.Handle` | server/src/app.ts:23-26 | A request that reaches no handler changes nothing and gets the 404 or the middleware's rejection. A request that reaches a handler gets the route's handler, run on the request the middleware handed on (it carries `authUid`) with the route's parameter. The answer and the new state are then exactly what that handler's whole contract says, in every branch, and only the handler's own store changes. A request under one mount leaves the other store unchanged. |

## Left out

- Credential loading and SDK initialisation (`server/src/config/firebase.ts`), CORS and JSON body parsing (`server/src/app.ts`) are configuration and framework plumbing. Only the two mount prefixes are taken from `app.ts`.
- Token cryptography is replaced by the oracle `Env.tokens`. A token that is not a string, or that the oracle does not know, fails verification.
- `Math.random()` and `new Date()` become parameters: the random fraction's base-36 digits, and a timestamp.
- The texts of the client libraries' refusals follow their wording and may differ between library versions: an `undefined` field (`UserController.UndefinedValueRejected`), an empty document path (`MeetingController.EmptyPathRejected`), and a uid with no identity record (`UserController.NoUserRecord`).
- The outcome of the Firestore `update` call is library behaviour, including its handling of `undefined` fields and missing documents. `UserController.Users.UpdateUser` therefore records the update it sends in `accepted` and leaves `docs` unchanged. A failure of the call is an injected fault.
- The effect of the identity service's `updateUser` on the identity record is not computed, only recorded in `accepted`. Its "user not found" error is covered only by an injected fault. `deleteUser` refuses a uid with no record in `identities`.
- `UserController.RecoverPasswordAddressUnread`: whether the reset-link call fails for a given address is not modelled, because faults are given per kind of call. In the source the call throws for an address with no account, so 200 versus 500 does reveal whether an account exists.
- Delivery of the password-reset link is not visible in the source and is not modelled.
- Async interleaving between concurrent requests is not modelled: each request runs to completion.
- `UserController.Users.ProviderLogin`: a failure of the second read alone, after the first-login profile is written, is not modelled. This is because faults are given per kind of call, so both reads fail or neither does.
- `console.error` logging and the exact JSON serialisation are left out. A response is a status plus a body tag.
- Numbers are integers, so NaN, fractions and exponent notation in `${}` are not modelled. Body fields that are objects or arrays, and query values that are arrays, are not modelled either.
- `Model.Env`: the oracle maps tokens only to non-empty uids (type `Uid`), as the identity service issues them. A handler is therefore never given an empty uid, which `doc("")` would refuse.
- Express path handling beyond literal case-insensitivity and an optional trailing slash is not modelled: percent-decoding of parameters, HEAD and OPTIONS handling, and the content of the default 404 page.
- `AuthMiddleware.RequireAuth` updates `req.body` in place in the source. Here it returns the updated request value, which the pipeline hands to the handler. It keeps no state, so every request is verified afresh.
