/** The two route tables, their mount prefixes, and the request pipeline that
    runs a request through mount, route, middleware chain and handler. */
module Routes {
  import opened Js
  import opened Model
  import AuthMiddleware
  import UserController
  import MeetingController

  datatype Handler =
    | Register | Login | ProviderLogin | RecoverPassword | ListUsers | GetUser | UpdateUser | DeleteUser
    | CreateMeeting | ListMeetings | GetMeeting | DeleteMeeting
  {
    predicate IsUserHandler()
    {
      Register? || Login? || ProviderLogin? || RecoverPassword? || ListUsers? || GetUser? || UpdateUser? || DeleteUser?
    }

    /** The handlers mounted on a `/:uid` or `/:id` path. */
    predicate TakesParam()
    {
      GetUser? || UpdateUser? || DeleteUser? || GetMeeting? || DeleteMeeting?
    }
  }

  /** One entry of a route's middleware chain. */
  datatype Stage = RequireAuth | Run(handler: Handler)

  /** A matched route: its chain, run in order, and the path parameter. */
  datatype Route = Route(chain: seq<Stage>, param: Option<string>)
  {
    /** A handler alone, or the middleware and then a handler; a parameter
        exactly for the parameterised handlers. */
    predicate WellFormed()
    {
      && (|chain| == 1 || (|chain| == 2 && chain[0] == RequireAuth))
      && chain[|chain| - 1].Run?
      && (param.Some? <==> chain[|chain| - 1].handler.TakesParam())
    }

    function Target(): Handler
      requires WellFormed()
    {
      chain[|chain| - 1].handler
    }

    predicate Gated()
    {
      RequireAuth in chain
    }
  }

  function LowerChar(c: char): char
  {
    if 'A' <= c <= 'Z' then (c as int + 32) as char else c
  }

  /** Route literals match without regard to ASCII case. */
  function Lower(s: string): (r: string)
    ensures |r| == |s|
    ensures forall i :: 0 <= i < |s| ==> r[i] == LowerChar(s[i])
  {
    seq(|s|, i requires 0 <= i < |s| => LowerChar(s[i]))
  }

  lemma LowerOfLowercase(s: string)
    requires forall i :: 0 <= i < |s| ==> !('A' <= s[i] <= 'Z')
    ensures Lower(s) == s
  {
  }

  /** A path relative to a router: its root, one segment (a trailing slash
      allowed), or anything else. */
  datatype PathShape = Root | Segment(name: string) | Unmatched

  function Shape(p: string): (r: PathShape)
    ensures r.Segment? ==> r.name != "" && '/' !in r.name
    ensures r.Segment? ==> p == "/" + r.name || p == "/" + r.name + "/"
  {
    if p == "" || p == "/" then Root
    else if p[0] != '/' then Unmatched
    else
      var s := if p[|p| - 1] == '/' then p[1..|p| - 1] else p[1..];
      if s == "" || '/' in s then Unmatched else Segment(s)
  }

  lemma ShapeOfSegment(s: string)
    requires s != "" && '/' !in s
    ensures Shape("/" + s) == Segment(s)
    ensures Shape("/" + s + "/") == Segment(s)
  {
    var p := "/" + s;
    assert p[1..] == s;
    assert p[|p| - 1] == s[|s| - 1];
    var q := "/" + s + "/";
    assert q[1..|q| - 1] == s;
  }

  /** The handler of a (lower-cased) POST literal of the user router. */
  function PostLiteralHandler(l: string): (h: Option<Handler>)
    ensures h.Some? ==> h.value.IsUserHandler() && !h.value.TakesParam() && h.value != UpdateUser
  {
    if l == "register" then Some(Register)
    else if l == "login" then Some(Login)
    else if l == "provider-login" then Some(ProviderLogin)
    else if l == "recover-password" then Some(RecoverPassword)
    else None
  }

  /** The user router: the four POST literals and GET `/` are open, GET and
      DELETE `/:uid` are open too, and only PUT `/:uid` runs `requireAuth`
      first. */
  function UserRoute(v: Verb, p: string): (r: Option<Route>)
    ensures r.Some? ==> r.value.WellFormed() && r.value.Target().IsUserHandler()
    ensures r.Some? ==> (r.value.Gated() <==> r.value.Target() == UpdateUser)
  {
    match Shape(p)
    case Root => if v == GET then Some(Route([Run(ListUsers)], None)) else None
    case Segment(s) =>
      if v == POST then
        var h := PostLiteralHandler(Lower(s));
        if h.Some? then Some(Route([Run(h.value)], None)) else None
      else if v == GET then Some(Route([Run(GetUser)], Some(s)))
      else if v == PUT then Some(Route([RequireAuth, Run(UpdateUser)], Some(s)))
      else if v == DELETE then Some(Route([Run(DeleteUser)], Some(s)))
      else None
    case Unmatched => None
  }

  /** The meeting router: every entry runs `requireAuth` first. */
  function MeetingRoute(v: Verb, p: string): (r: Option<Route>)
    ensures r.Some? ==> r.value.WellFormed() && !r.value.Target().IsUserHandler()
    ensures r.Some? ==> r.value.chain[0] == RequireAuth
  {
    match Shape(p)
    case Root =>
      if v == POST then Some(Route([RequireAuth, Run(CreateMeeting)], None))
      else if v == GET then Some(Route([RequireAuth, Run(ListMeetings)], None))
      else None
    case Segment(s) =>
      if v == GET then Some(Route([RequireAuth, Run(GetMeeting)], Some(s)))
      else if v == DELETE then Some(Route([RequireAuth, Run(DeleteMeeting)], Some(s)))
      else None
    case Unmatched => None
  }

  /** The literal POST entries of the user router, and GET `/`. */
  lemma UserPostRoutes()
    ensures UserRoute(POST, "/register") == Some(Route([Run(Register)], None))
    ensures UserRoute(POST, "/login") == Some(Route([Run(Login)], None))
    ensures UserRoute(POST, "/provider-login") == Some(Route([Run(ProviderLogin)], None))
    ensures UserRoute(POST, "/recover-password") == Some(Route([Run(RecoverPassword)], None))
    ensures UserRoute(GET, "/") == Some(Route([Run(ListUsers)], None))
  {
    RegisterRoute();
    LoginRoute();
    ProviderLoginRoute();
    RecoverPasswordRoute();
  }

  lemma RegisterRoute()
    ensures UserRoute(POST, "/register") == Some(Route([Run(Register)], None))
  {
    PostLiteral("/register", "register");
  }

  lemma LoginRoute()
    ensures UserRoute(POST, "/login") == Some(Route([Run(Login)], None))
  {
    PostLiteral("/login", "login");
  }

  lemma ProviderLoginRoute()
    ensures UserRoute(POST, "/provider-login") == Some(Route([Run(ProviderLogin)], None))
  {
    PostLiteral("/provider-login", "provider-login");
  }

  lemma RecoverPasswordRoute()
    ensures UserRoute(POST, "/recover-password") == Some(Route([Run(RecoverPassword)], None))
  {
    PostLiteral("/recover-password", "recover-password");
  }

  lemma PostLiteral(p: string, lit: string)
    requires p == "/" + lit && lit != "" && '/' !in lit
    requires forall i :: 0 <= i < |lit| ==> !('A' <= lit[i] <= 'Z')
    ensures Shape(p) == Segment(lit) && Lower(lit) == lit
  {
    ShapeOfSegment(lit);
    LowerOfLowercase(lit);
  }

  /** Literals match without regard to case. */
  lemma PostLiteralAnyCase()
    ensures UserRoute(POST, "/REGISTER") == Some(Route([Run(Register)], None))
  {
    ShapeOfSegment("REGISTER");
    assert "/" + "REGISTER" == "/REGISTER";
    assert forall i :: 0 <= i < 8 ==> Lower("REGISTER")[i] == "register"[i];
  }

  /** The user router's `/:uid` entries: which handler a single-segment
      path reaches, and whether it is gated. */
  lemma UserSegmentRoutes(s: string)
    requires s != "" && '/' !in s
    ensures UserRoute(GET, "/" + s) == Some(Route([Run(GetUser)], Some(s)))
    ensures UserRoute(PUT, "/" + s) == Some(Route([RequireAuth, Run(UpdateUser)], Some(s)))
    ensures UserRoute(DELETE, "/" + s) == Some(Route([Run(DeleteUser)], Some(s)))
  {
    ShapeOfSegment(s);
  }

  /** The meeting router's `/:id` entries, both gated. */
  lemma MeetingSegmentRoutes(s: string)
    requires s != "" && '/' !in s
    ensures MeetingRoute(GET, "/" + s) == Some(Route([RequireAuth, Run(GetMeeting)], Some(s)))
    ensures MeetingRoute(DELETE, "/" + s) == Some(Route([RequireAuth, Run(DeleteMeeting)], Some(s)))
  {
    ShapeOfSegment(s);
  }

  /** Since the literals are POST-only, GET `/register` is a profile lookup
      for the uid "register". */
  lemma GetRegisterIsLookup()
    ensures UserRoute(GET, "/register") == Some(Route([Run(GetUser)], Some("register")))
  {
    UserSegmentRoutes("register");
    assert "/" + "register" == "/register";
  }

  const UsersMount := "/api/users"
  const MeetingsMount := "/api/meetings"

  /** The path a router mounted at `mount` sees: the rest after the prefix
      (matched without regard to case, and only at a segment boundary). The
      mount pattern also takes in one slash that another slash follows, so
      `/api/users//x` leaves `/x`. */
  function Unmount(mount: string, path: string): (r: Option<string>)
    ensures r.Some? ==> |path| >= |mount| && Lower(path[..|mount|]) == mount
    ensures r.Some? ==> |r.value| >= 1 && r.value[0] == '/'
    ensures r.Some? && |path| > |mount| ==>
      path == path[..|mount|] + r.value || path == path[..|mount|] + "/" + r.value
  {
    if |path| >= |mount| && Lower(path[..|mount|]) == mount && (|path| == |mount| || path[|mount|] == '/')
    then
      var rest := path[|mount|..];
      Some(if rest == "" then "/" else if |rest| >= 2 && rest[1] == '/' then rest[1..] else rest)
    else None
  }

  /** One doubled slash after a mount is absorbed: GET `/api/users//x` is a
      lookup of uid "x", and GET `/api/users//` lists the users. */
  lemma DoubledSlashAfterMount()
    ensures Dispatch(GET, "/api/users//x") == Some(Route([Run(GetUser)], Some("x")))
    ensures Dispatch(GET, "/api/users//") == Some(Route([Run(ListUsers)], None))
  {
    LowerOfLowercase(UsersMount);
    var p := "/api/users//x";
    assert p[..|UsersMount|] == UsersMount;
    assert p[|UsersMount|..] == "//x";
    assert "//x"[1..] == "/x";
    ShapeOfSegment("x");
    var q := "/api/users//";
    assert q[..|UsersMount|] == UsersMount;
    assert q[|UsersMount|..] == "//";
    assert "//"[1..] == "/";
  }

  /** No path lies under both mounts. */
  lemma MountsDisjoint(path: string)
    ensures Unmount(UsersMount, path).None? || Unmount(MeetingsMount, path).None?
  {
    if Unmount(UsersMount, path).Some? {
      assert Lower(path[..|UsersMount|])[5] == LowerChar(path[5]) == 'u';
      if |path| >= |MeetingsMount| {
        assert Lower(path[..|MeetingsMount|])[5] == 'u';
      }
    }
  }

  /** The application: the route of whichever mount the path is under. */
  function Dispatch(v: Verb, path: string): (r: Option<Route>)
    ensures r.Some? ==> r.value.WellFormed()
    ensures Unmount(UsersMount, path).Some? ==> r == UserRoute(v, Unmount(UsersMount, path).value)
    ensures Unmount(MeetingsMount, path).Some? ==> r == MeetingRoute(v, Unmount(MeetingsMount, path).value)
    ensures Unmount(UsersMount, path).None? && Unmount(MeetingsMount, path).None? ==> r.None?
  {
    MountsDisjoint(path);
    var u := Unmount(UsersMount, path);
    if u.Some? then UserRoute(v, u.value)
    else
      var m := Unmount(MeetingsMount, path);
      if m.Some? then MeetingRoute(v, m.value) else None
  }

  /** Every route under the meetings mount runs `requireAuth` before its
      handler, and only a meeting handler. */
  lemma MeetingRoutesGated(v: Verb, path: string)
    requires Unmount(MeetingsMount, path).Some? && Dispatch(v, path).Some?
    ensures Dispatch(v, path).value.chain[0] == RequireAuth && |Dispatch(v, path).value.chain| == 2
    ensures !Dispatch(v, path).value.Target().IsUserHandler()
  {
  }

  /** The path parameter a route hands its handler (`""` for none). */
  function Param(rt: Route): string
  {
    if rt.param.Some? then rt.param.value else ""
  }

  /** The request a routed request's handler receives: the request itself on
      an open route, the one `requireAuth` hands on on a gated route, and none
      when the middleware answers instead. */
  function Admitted(rt: Route, req: Request, env: Env): Option<Request>
  {
    if !rt.Gated() then Some(req)
    else match AuthMiddleware.RequireAuth(req, env)
      case Next(next) => Some(next)
      case Reject(_) => None
  }

  /** The handler a request reaches, if any. */
  function Reached(req: Request, env: Env): Option<Handler>
  {
    var route := Dispatch(req.verb, req.path);
    if route.Some? && route.value.WellFormed() && Admitted(route.value, req, env).Some?
    then Some(route.value.Target())
    else None
  }

  /** A handler is reached exactly when the request is routed and, on a gated
      route, the middleware admits it; it is the route's own handler. */
  lemma ReachedIff(req: Request, env: Env)
    ensures Reached(req, env).Some? <==>
      Dispatch(req.verb, req.path).Some? &&
      (!Dispatch(req.verb, req.path).value.Gated() || AuthMiddleware.RequireAuth(req, env).Next?)
    ensures Reached(req, env).Some? ==> Reached(req, env).value == Dispatch(req.verb, req.path).value.Target()
  {
  }

  /** PUT `/api/users/:uid` reaches `updateUser` exactly when the request
      presents a token the identity service verifies. */
  lemma UpdateNeedsValidToken(req: Request, env: Env, uid: string)
    requires uid != "" && '/' !in uid
    requires req.verb == PUT && req.path == UsersMount + "/" + uid
    ensures Reached(req, env) == Some(UpdateUser) <==>
      AuthMiddleware.Credential(req).Some? && env.VerifyIdToken(Str(AuthMiddleware.Credential(req).value)).Ok?
    ensures Reached(req, env).None? <==>
      !(AuthMiddleware.Credential(req).Some? && env.VerifyIdToken(Str(AuthMiddleware.Credential(req).value)).Ok?)
  {
    UsersPrefix(uid);
    UserSegmentRoutes(uid);
  }

  /** The user mount strips to `/:uid`. */
  lemma UsersPrefix(uid: string)
    requires uid != "" && '/' !in uid
    ensures Unmount(UsersMount, UsersMount + "/" + uid) == Some("/" + uid)
  {
    var path := UsersMount + "/" + uid;
    assert path[..|UsersMount|] == UsersMount;
    LowerOfLowercase(UsersMount);
    assert path[|UsersMount|..] == "/" + uid;
  }

  /** No route under the meetings mount reaches a handler without a token
      the identity service verifies, and none reaches a user handler. */
  lemma MeetingHandlersNeedValidToken(req: Request, env: Env)
    requires Unmount(MeetingsMount, req.path).Some? && Reached(req, env).Some?
    ensures AuthMiddleware.Credential(req).Some?
    ensures env.VerifyIdToken(Str(AuthMiddleware.Credential(req).value)).Ok?
    ensures !Reached(req, env).value.IsUserHandler()
  {
    MeetingRoutesGated(req.verb, req.path);
  }

  /** Every user route but `updateUser` is reached whatever the token and the
      identity service say. */
  lemma OpenUserRoutes(req: Request, env1: Env, env2: Env)
    requires Unmount(UsersMount, req.path).Some? && Dispatch(req.verb, req.path).Some?
    requires Dispatch(req.verb, req.path).value.Target() != UpdateUser
    ensures Reached(req, env1) == Reached(req, env2) == Some(Dispatch(req.verb, req.path).value.Target())
  {
  }

  /** The server: the user stores and the meeting store behind the routes. */
  class Server {
    const users: UserController.Users
    const meetings: MeetingController.Meetings

    ghost predicate Valid()
      reads this, users, meetings
    {
      users.Valid() && meetings.Valid()
    }

    constructor (users: UserController.Users, meetings: MeetingController.Meetings)
      requires users.Valid() && meetings.Valid()
      ensures Valid() && this.users == users && this.meetings == meetings
    {
      this.users := users;
      this.meetings := meetings;
    }

    /** What user handler `h` answers and changes, on request `next` with
        path parameter `p`: its own whole contract, and the meetings
        untouched. */
    twostate predicate UserHandled(h: Handler, next: Request, p: string, env: Env, now: Time, r: Response)
      reads this, users, meetings
    {
      && unchanged(meetings)
      && match h
         case Login => r == UserController.Login(next) && unchanged(users)
         case RecoverPassword => r == UserController.RecoverPassword(next, env) && unchanged(users)
         case GetUser => r == users.GetUser(p, env) && unchanged(users)
         case ListUsers => users.ListUsersSpec(env, r) && unchanged(users)
         case Register =>
           users.RegisterSpec(next, env, now, r) &&
           users.identities == old(users.identities) && users.accepted == old(users.accepted)
         case ProviderLogin =>
           users.ProviderLoginSpec(next, env, now, r) &&
           users.identities == old(users.identities) && users.accepted == old(users.accepted)
         case UpdateUser =>
           users.UpdateUserSpec(next, p, env, now, r) &&
           users.docs == old(users.docs) && users.identities == old(users.identities)
         case DeleteUser => users.DeleteUserSpec(p, env, r) && users.accepted == old(users.accepted)
         case _ => false
    }

    /** What meeting handler `h` answers and changes, with the users
        untouched. */
    twostate predicate MeetingHandled(h: Handler, next: Request, p: string, env: Env, now: Time, digits: string, r: Response)
      requires MeetingController.IsBase36(digits)
      reads this, users, meetings
    {
      && unchanged(users)
      && match h
         case CreateMeeting => meetings.CreateMeetingSpec(next, digits, env, now, r)
         case ListMeetings => meetings.ListMeetingsSpec(next, env, r) && unchanged(meetings)
         case GetMeeting => r == meetings.GetMeeting(p, env) && unchanged(meetings)
         case DeleteMeeting => meetings.DeleteMeetingSpec(p, env, r)
         case _ => false
    }

    /** Run user handler `h`. */
    method RunUser(h: Handler, next: Request, p: string, env: Env, now: Time) returns (r: Response)
      requires Valid() && h.IsUserHandler()
      modifies users
      ensures Valid() && UserHandled(h, next, p, env, now, r)
    {
      match h {
        case Register => r := users.Register(next, env, now);
        case Login => r := UserController.Login(next);
        case ProviderLogin => r := users.ProviderLogin(next, env, now);
        case RecoverPassword => r := UserController.RecoverPassword(next, env);
        case ListUsers => r := users.ListUsers(env);
        case GetUser => r := users.GetUser(p, env);
        case UpdateUser => r := users.UpdateUser(next, p, env, now);
        case DeleteUser => r := users.DeleteUser(p, env);
      }
    }

    /** Run meeting handler `h`. */
    method RunMeeting(h: Handler, next: Request, p: string, env: Env, now: Time, digits: string) returns (r: Response)
      requires Valid() && !h.IsUserHandler() && MeetingController.IsBase36(digits)
      modifies meetings
      ensures Valid() && MeetingHandled(h, next, p, env, now, digits, r)
    {
      match h {
        case CreateMeeting => r := meetings.CreateMeeting(next, digits, env, now);
        case ListMeetings => r := meetings.ListMeetings(next, env);
        case GetMeeting => r := meetings.GetMeeting(p, env);
        case DeleteMeeting => r := meetings.DeleteMeeting(p, env);
      }
    }

    /** One request through mount, route, chain and handler. A request that
        reaches no handler changes nothing and gets the 404 or the
        middleware's rejection; one that does is answered by the route's
        handler, on the request the middleware handed on, exactly as that
        handler's own contract says, and only that handler's store changes. */
    method Handle(req: Request, env: Env, now: Time, digits: string) returns (r: Response)
      requires Valid() && MeetingController.IsBase36(digits)
      modifies users, meetings
      ensures Valid()
      ensures Dispatch(req.verb, req.path).None? ==> r == Response(404, NoRoute) && unchanged(users, meetings)
      ensures Dispatch(req.verb, req.path).Some? && Dispatch(req.verb, req.path).value.Gated() &&
              AuthMiddleware.RequireAuth(req, env).Reject? ==>
        r == AuthMiddleware.RequireAuth(req, env).response && unchanged(users, meetings)
      ensures Unmount(UsersMount, req.path).Some? ==> unchanged(meetings)
      ensures Unmount(MeetingsMount, req.path).Some? ==> unchanged(users)
      ensures Reached(req, env).None? ==> unchanged(users, meetings)
      ensures Reached(req, env).Some? ==>
        var rt := Dispatch(req.verb, req.path).value;
        var next := Admitted(rt, req, env).value;
        var h := Reached(req, env).value;
        if h.IsUserHandler() then UserHandled(h, next, Param(rt), env, now, r)
        else MeetingHandled(h, next, Param(rt), env, now, digits, r)
    {
      var route := Dispatch(req.verb, req.path);
      if route.None? {
        return Response(404, NoRoute);
      }
      var rt := route.value;
      var current := req;
      if rt.Gated() {
        var outcome := AuthMiddleware.RequireAuth(req, env);
        if outcome.Reject? {
          return outcome.response;
        }
        current := outcome.req;
      }
      if rt.Target().IsUserHandler() {
        r := RunUser(rt.Target(), current, Param(rt), env, now);
      } else {
        r := RunMeeting(rt.Target(), current, Param(rt), env, now, digits);
      }
    }
  }
}
