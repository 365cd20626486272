/** The bearer-token gate put in front of protected routes: read the
    `Authorization` header, take its second space-separated field as the token,
    verify it with the identity service and, on success, add the verified uid
    to the request body as `authUid` before handing the request on. */
module AuthMiddleware {
  import opened Js
  import opened Model

  /** `s.split(" ")`: the fields between single spaces, empty fields included. */
  function Split(s: string): (r: seq<string>)
    ensures |r| >= 1
    ensures forall i :: 0 <= i < |r| ==> ' ' !in r[i]
    decreases |s|
  {
    if s == [] then [""]
    else
      var rest := Split(s[1..]);
      if s[0] == ' ' then [""] + rest
      else [[s[0]] + rest[0]] + rest[1..]
  }

  /** `parts.join(" ")` */
  function Join(parts: seq<string>): string
    requires |parts| >= 1
    decreases |parts|
  {
    if |parts| == 1 then parts[0] else parts[0] + " " + Join(parts[1..])
  }

  lemma {:induction false} JoinCons(c: char, parts: seq<string>)
    requires |parts| >= 1
    ensures Join([[c] + parts[0]] + parts[1..]) == [c] + Join(parts)
  {
    var q := [[c] + parts[0]] + parts[1..];
    assert |q| == |parts| && q[0] == [c] + parts[0];
    if |parts| == 1 {
      assert Join(q) == q[0];
    } else {
      assert q[1..] == parts[1..];
      var rest := Join(parts[1..]);
      assert Join(q) == ([c] + parts[0]) + " " + rest;
      assert Join(parts) == parts[0] + " " + rest;
      assert ([c] + parts[0]) + " " + rest == [c] + (parts[0] + " " + rest);
    }
  }

  /** Joining the fields of a split gives the string back. */
  lemma {:induction false} JoinSplit(s: string)
    ensures Join(Split(s)) == s
    decreases |s|
  {
    if s != [] {
      var rest := Split(s[1..]);
      JoinSplit(s[1..]);
      assert s == [s[0]] + s[1..];
      if s[0] == ' ' {
        assert ([""] + rest)[1..] == rest;
      } else {
        JoinCons(s[0], rest);
      }
    }
  }

  /** A leading run without spaces stays in the first field. */
  lemma {:induction false} SplitPrefix(p: string, tail: string)
    requires ' ' !in p
    ensures Split(p + tail) == [p + Split(tail)[0]] + Split(tail)[1..]
    decreases |p|
  {
    if p == [] {
      assert p + tail == tail;
      assert p + Split(tail)[0] == Split(tail)[0];
      assert Split(tail) == [Split(tail)[0]] + Split(tail)[1..];
    } else {
      SplitPrefix(p[1..], tail);
      assert (p + tail)[1..] == p[1..] + tail;
      assert [p[0]] + (p[1..] + Split(tail)[0]) == p + Split(tail)[0];
    }
  }

  /** Splitting a join of space-free fields gives the fields back. */
  lemma {:induction false} SplitJoin(parts: seq<string>)
    requires |parts| >= 1
    requires forall i :: 0 <= i < |parts| ==> ' ' !in parts[i]
    ensures Split(Join(parts)) == parts
    decreases |parts|
  {
    if |parts| == 1 {
      SplitPrefix(parts[0], "");
      assert parts[0] + "" == parts[0];
    } else {
      SplitJoin(parts[1..]);
      var t := " " + Join(parts[1..]);
      SplitPrefix(parts[0], t);
      assert t[1..] == Join(parts[1..]);
      assert Split(t) == [""] + parts[1..];
      assert Join(parts) == parts[0] + t;
      assert parts[0] + "" == parts[0];
      assert [parts[0]] + parts[1..] == parts;
    }
  }

  /** A split has a second field exactly when the string holds a space. */
  lemma {:induction false} SplitHasSecondField(s: string)
    ensures |Split(s)| >= 2 <==> ' ' in s
    decreases |s|
  {
    if s != [] {
      SplitHasSecondField(s[1..]);
      assert s == [s[0]] + s[1..];
    }
  }

  /** `s.split(" ")[1]`: undefined when the string holds no space, and
      never a field with a space in it. */
  function SecondField(s: string): (r: Option<string>)
    ensures r.Some? <==> ' ' in s
    ensures r.Some? ==> ' ' !in r.value
  {
    SplitHasSecondField(s);
    var parts := Split(s);
    if |parts| >= 2 then Some(parts[1]) else None
  }

  /** `header?.split(" ")[1]`: a token exactly for a header with a space. */
  function BearerToken(header: Option<string>): (r: Option<string>)
    ensures r.Some? <==> header.Some? && ' ' in header.value
    ensures r.Some? ==> ' ' !in r.value
  {
    if header.None? then None else SecondField(header.value)
  }

  /** Whatever precedes the first space is skipped unread; the token runs
      from there to the next space or the end. */
  lemma TokenAfterScheme(scheme: string, token: string, rest: string)
    requires ' ' !in scheme && ' ' !in token
    requires rest == "" || rest[0] == ' '
    ensures SecondField(scheme + " " + token + rest) == Some(token)
  {
    var x := token + rest;
    SplitPrefix(scheme, " " + x);
    assert (" " + x)[1..] == x;
    assert Split(" " + x) == [""] + Split(x);
    SplitPrefix(token, rest);
    if rest != "" {
      assert Split(rest) == [""] + Split(rest[1..]);
    }
    assert Split(rest)[0] == "";
    assert Split(x)[0] == token;
    assert scheme + " " + token + rest == scheme + (" " + x);
    assert Split(scheme + (" " + x))[1] == token;
  }

  /** Conversely, a token found is a space-free field that follows the
      first space of the header. */
  lemma TokenShape(s: string, token: string)
    requires SecondField(s) == Some(token)
    ensures ' ' !in token
    ensures var p := Split(s);
      s == p[0] + " " + token + (if |p| == 2 then "" else " " + Join(p[2..]))
  {
    var p := Split(s);
    JoinSplit(s);
    assert p[1..][1..] == p[2..];
  }

  /** The token is undefined exactly when the header holds no space. */
  lemma NoSpaceNoToken(s: string)
    ensures SecondField(s).None? <==> ' ' !in s
  {
    SplitHasSecondField(s);
  }

  /** The scheme word is never checked, and a missing or doubled space
      leaves an absent or empty token. */
  lemma TokenExamples()
    ensures SecondField("Basic x") == Some("x")
    ensures SecondField("Bearer") == None
    ensures SecondField("Bearer ") == Some("")
    ensures SecondField("Bearer  t") == Some("")
  {
    TokenAfterScheme("Basic", "x", "");
    assert "Basic x" == "Basic" + " " + "x" + "";
    NoSpaceNoToken("Bearer");
    TokenAfterScheme("Bearer", "", "");
    assert "Bearer " == "Bearer" + " " + "" + "";
    TokenAfterScheme("Bearer", "", " t");
    assert "Bearer  t" == "Bearer" + " " + "" + " t";
  }

  const HeaderMissing := "Authorization header missing"
  const TokenMissing := "Token missing"

  /** `!req.headers.authorization` is false */
  predicate HeaderPresent(req: Request)
  {
    req.authorization.Some? && req.authorization.value != ""
  }

  /** The non-empty token a request presents, if any: one needs a present
      header holding a space, and is never empty nor holds a space itself. */
  function Credential(req: Request): (r: Option<string>)
    ensures r.Some? ==> HeaderPresent(req) && ' ' in req.authorization.value
    ensures r.Some? ==> r.value != "" && ' ' !in r.value
    ensures r.Some? <==> BearerToken(req.authorization).Some? && BearerToken(req.authorization).value != ""
  {
    var token := BearerToken(req.authorization);
    if token.Some? && token.value != "" then token else None
  }

  /** What the middleware does with a request: hand it on, or answer. */
  datatype AuthOutcome = Next(req: Request) | Reject(response: Response)

  /** `requireAuth`: every rejection is a 401; the request is handed on
      exactly when it presents a token the identity service accepts, and then
      the only change to it is `authUid` in its body. */
  function RequireAuth(req: Request, env: Env): (r: AuthOutcome)
    ensures r.Reject? ==> r.response.status == 401
    ensures r.Next? <==> Credential(req).Some? && env.VerifyIdToken(Str(Credential(req).value)).Ok?
    ensures r.Next? ==>
      r.req == req.(body := req.body["authUid" := Str(env.VerifyIdToken(Str(Credential(req).value)).value)])
  {
    if !HeaderPresent(req) then Reject(Response(401, Message(HeaderMissing)))
    else
      var token := SecondField(req.authorization.value);
      if token.None? || token.value == "" then Reject(Response(401, Message(TokenMissing)))
      else
        match env.VerifyIdToken(Str(token.value))
        case Err(e) => Reject(Response(401, InvalidToken(e)))
        case Ok(uid) => Next(req.(body := req.body["authUid" := Str(uid)]))
  }

  /** The three rejections and their messages. */
  lemma Rejections(req: Request, env: Env)
    ensures !HeaderPresent(req) ==> RequireAuth(req, env) == Reject(Response(401, Message(HeaderMissing)))
    ensures HeaderPresent(req) && Credential(req).None? ==>
      RequireAuth(req, env) == Reject(Response(401, Message(TokenMissing)))
    ensures Credential(req).Some? && env.VerifyIdToken(Str(Credential(req).value)).Err? ==>
      RequireAuth(req, env) == Reject(Response(401, InvalidToken(env.ErrorText(Verify))))
  {
  }

  /** Without a token the identity service is not consulted: the outcome is
      the same whatever the oracle says. */
  lemma NoTokenNoVerification(req: Request, env1: Env, env2: Env)
    requires Credential(req).None?
    ensures RequireAuth(req, env1) == RequireAuth(req, env2)
    ensures RequireAuth(req, env1).Reject?
  {
  }
}
