/** The user handlers: registration, provider login, password recovery,
    lookup, update, deletion and listing, over the "users" profile collection
    and the identity service's records. */
module UserController {
  import opened Js
  import opened Model
  import AuthMiddleware

  const MissingFields := "Missing required fields"
  const LoginNotice := "Login should be handled from frontend using Firebase Web SDK. Backend only verifies tokens if needed."
  const MissingFirebaseToken := "Missing firebaseToken"
  const EmailRequired := "Email is required"
  const ResetSent := "Password reset email sent"
  const UserNotFound := "User not found"
  const MissingToken := "Missing token"
  const CannotEditOther := "You cannot edit another user"
  const UserUpdated := "User updated successfully"
  const UserDeleted := "User deleted"
  /** The identity service's refusal to act on a uid with no record. */
  const NoUserRecord := "There is no user record corresponding to the provided identifier."
  /** The document store's refusal of a document holding an `undefined`
      field, as the client library words it. */
  const UndefinedValueRejected := "Cannot use \"undefined\" as a Firestore value (found in field \"email\")."

  /** The partial identity record sent to the identity service on update
      (`authUpdateData`); a `None` field is a property left out of the object. */
  datatype AuthPatch = AuthPatch(email: Option<JsValue>, password: Option<JsValue>, displayName: Option<string>)
  {
    /** `Object.keys(authUpdateData).length` */
    function KeyCount(): nat
    {
      (if email.Some? then 1 else 0) + (if password.Some? then 1 else 0) + (if displayName.Some? then 1 else 0)
    }
  }

  /** The partial profile passed to the document store's `update`, omitted
      fields included as `undefined`. */
  datatype ProfileUpdate = ProfileUpdate(firstName: JsValue, lastName: JsValue, age: JsValue, email: JsValue, updatedAt: Time)

  /** A write an external service accepted whose effect on the stored record
      this model does not compute. */
  datatype Write = PatchIdentity(uid: string, patch: AuthPatch) | UpdateProfile(uid: string, update: ProfileUpdate)

  /** `${firstName ?? ""} ${lastName ?? ""}` */
  function DisplayName(firstName: JsValue, lastName: JsValue): string
  {
    ToText(Coalesce(firstName, Str(""))) + " " + ToText(Coalesce(lastName, Str("")))
  }

  /** Two string names are joined by one space; an absent one leaves its side empty. */
  lemma DisplayNameOfStrings(first: string, last: string)
    ensures DisplayName(Str(first), Str(last)) == first + " " + last
    ensures DisplayName(Str(first), Undefined) == first + " "
    ensures DisplayName(Null, Str(last)) == " " + last
  {
  }

  /** `??` replaces only null and undefined, so a falsy number or boolean is
      written out. */
  lemma DisplayNameKeepsFalsyValues(last: string)
    ensures DisplayName(Num(0), Str(last)) == "0 " + last
    ensures DisplayName(Bool(false), Str(last)) == "false " + last
  {
    assert NatToDecimal(0) == "0";
  }

  /** The identity patch built from an update body: each of email and
      password is present exactly when truthy and then carried as given;
      the display name is present exactly when either name is truthy. */
  function IdentityPatch(body: map<string, JsValue>): (p: AuthPatch)
    ensures p.email.Some? <==> Truthy(Field(body, "email"))
    ensures p.password.Some? <==> Truthy(Field(body, "password"))
    ensures p.displayName.Some? <==> Truthy(Field(body, "firstName")) || Truthy(Field(body, "lastName"))
    ensures p.email.Some? ==> p.email.value == Field(body, "email")
    ensures p.password.Some? ==> p.password.value == Field(body, "password")
    ensures p.displayName.Some? ==>
      p.displayName.value == DisplayName(Field(body, "firstName"), Field(body, "lastName"))
  {
    var email, password := Field(body, "email"), Field(body, "password");
    var firstName, lastName := Field(body, "firstName"), Field(body, "lastName");
    AuthPatch(
      if Truthy(email) then Some(email) else None,
      if Truthy(password) then Some(password) else None,
      if Truthy(firstName) || Truthy(lastName) then Some(DisplayName(firstName, lastName)) else None)
  }

  /** The patch is sent only when it has a key, that is, exactly when one of
      the four identity-related fields is truthy. */
  lemma PatchSentIff(body: map<string, JsValue>)
    ensures IdentityPatch(body).KeyCount() > 0 <==>
      Truthy(Field(body, "email")) || Truthy(Field(body, "password")) ||
      Truthy(Field(body, "firstName")) || Truthy(Field(body, "lastName"))
  {
  }

  /** The update sent to the profile document: the four profile fields as
      given, present or not, and always a fresh `updatedAt`. */
  function ProfileUpdateOf(body: map<string, JsValue>, now: Time): (u: ProfileUpdate)
    ensures u.updatedAt == now
    ensures "age" !in body ==> u.age == Undefined
  {
    ProfileUpdate(Field(body, "firstName"), Field(body, "lastName"), Field(body, "age"), Field(body, "email"), now)
  }

  /** Keys other than the five the update reads (such as the `authUid` the
      middleware adds) change neither what is sent to the identity service
      nor what is sent to the document store. */
  lemma UpdateReadsOnlyItsFields(body: map<string, JsValue>, k: string, v: JsValue, now: Time)
    requires k !in {"email", "password", "firstName", "lastName", "age"}
    ensures IdentityPatch(body[k := v]) == IdentityPatch(body)
    ensures ProfileUpdateOf(body[k := v], now) == ProfileUpdateOf(body, now)
  {
    assert forall f :: f in {"email", "password", "firstName", "lastName", "age"} ==> Field(body[k := v], f) == Field(body, f);
  }

  /** The `register` presence check: every field truthy, so `age: 0` and
      `""` count as missing. */
  predicate RegisterFieldsPresent(body: map<string, JsValue>)
  {
    Truthy(Field(body, "firstName")) && Truthy(Field(body, "lastName")) && Truthy(Field(body, "age")) &&
    Truthy(Field(body, "email")) && Truthy(Field(body, "firebaseToken"))
  }

  /** The profile `register` stores for `uid`. */
  function RegisteredProfile(uid: string, body: map<string, JsValue>, now: Time): Profile
  {
    Profile(uid, Field(body, "firstName"), Field(body, "lastName"), Field(body, "age"), Field(body, "email"), now)
  }

  /** The empty profile provider login creates on a first visit: the
      body's email, empty names and a null age. */
  function FirstLoginProfile(uid: string, email: JsValue, now: Time): (p: Profile)
    ensures p.uid == uid && p.email == email && p.createdAt == now
    ensures p.firstName == Str("") && p.lastName == Str("") && p.age == Null
    ensures !Truthy(p.firstName) && !Truthy(p.lastName) && !Truthy(p.age) && p.age != Undefined
  {
    Profile(uid, Str(""), Str(""), Null, email, now)
  }

  /** Provision-if-absent: an existing profile is kept as it is; otherwise
      the empty first-login profile is added; no other key changes. */
  function Provision(docs: map<string, Profile>, uid: string, email: JsValue, now: Time): (r: map<string, Profile>)
    ensures r.Keys == docs.Keys + {uid}
    ensures forall k :: k in docs ==> r[k] == docs[k]
    ensures uid !in docs ==> r[uid] == FirstLoginProfile(uid, email, now)
  {
    if uid in docs then docs else docs[uid := FirstLoginProfile(uid, email, now)]
  }

  /** A second provider login of the same subject changes nothing more. */
  lemma ProvisionIdempotent(docs: map<string, Profile>, uid: string, email: JsValue, email': JsValue, now: Time, now': Time)
    ensures Provision(Provision(docs, uid, email, now), uid, email', now') == Provision(docs, uid, email, now)
  {
  }

  /** `login`: always 501, whatever the request. */
  function Login(req: Request): (r: Response)
    ensures r.status == 501
    ensures r.body == Message(LoginNotice)
  {
    Response(501, Message(LoginNotice))
  }

  /** `recoverPassword`: 400 on a falsy email; otherwise 200 exactly when
      the identity service produces the link, and 500 with its message when
      it fails. */
  function RecoverPassword(req: Request, env: Env): (r: Response)
    ensures !Truthy(Field(req.body, "email")) ==> r == Response(400, Message(EmailRequired))
    ensures Truthy(Field(req.body, "email")) ==> (r.status == 200 <==> !env.Fails(ResetLink))
    ensures r.status == 200 ==> r.body == Message(ResetSent)
    ensures r.status != 200 && Truthy(Field(req.body, "email")) ==>
      r == Response(500, Failure(env.ErrorText(ResetLink)))
  {
    if !Truthy(Field(req.body, "email")) then Response(400, Message(EmailRequired))
    else if env.Fails(ResetLink) then Response(500, Failure(env.ErrorText(ResetLink)))
    else Response(200, Message(ResetSent))
  }

  /** The address is only passed to the identity service: two requests with
      a truthy email, under the same outcome of the service's call, get the
      same answer. */
  lemma RecoverPasswordAddressUnread(a: Request, b: Request, env: Env)
    requires Truthy(Field(a.body, "email")) && Truthy(Field(b.body, "email"))
    ensures RecoverPassword(a, env) == RecoverPassword(b, env)
  {
  }

  /** Without an email the identity service is not consulted: the answer
      is the same whatever the service would do. */
  lemma RecoverPasswordNeedsNoService(req: Request, env1: Env, env2: Env)
    requires !Truthy(Field(req.body, "email"))
    ensures RecoverPassword(req, env1) == RecoverPassword(req, env2)
  {
  }

  /** Every profile of the collection once: each element is the document
      stored under its own uid, no uid twice, and none missing. */
  predicate ListsAll(list: seq<Profile>, docs: map<string, Profile>)
  {
    && |list| == |docs|
    && (forall i :: 0 <= i < |list| ==> list[i].uid in docs && docs[list[i].uid] == list[i])
    && (forall i, j :: 0 <= i < j < |list| ==> list[i].uid != list[j].uid)
    && (forall k :: k in docs ==> docs[k] in list)
  }

  /** The two stores the user handlers work on: `docs` is the "users"
      collection of profile documents, `identities` the uids of the identity
      service's records, and `accepted` the writes the services accepted that
      are recorded rather than applied (identity patches, profile updates). */
  class Users {
    var docs: map<string, Profile>
    var identities: set<string>
    var accepted: seq<Write>

    /** Every profile is stored under its own uid. */
    ghost predicate Valid()
      reads this
    {
      forall k :: k in docs ==> docs[k].uid == k
    }

    constructor (docs: map<string, Profile>, identities: set<string>)
      requires forall k :: k in docs ==> docs[k].uid == k
      ensures Valid()
      ensures this.docs == docs && this.identities == identities && accepted == []
    {
      this.docs := docs;
      this.identities := identities;
      accepted := [];
    }

    /** `register`: a missing field answers 400 before anything is verified
        or written; a token that does not verify answers 500; otherwise the
        profile is stored under the verified uid, replacing any profile
        already there, and the answer is 201 with that uid. */
    twostate predicate RegisterSpec(req: Request, env: Env, now: Time, r: Response)
      reads this
    {
      && (!RegisterFieldsPresent(req.body) ==>
            r == Response(400, Message(MissingFields)) && docs == old(docs))
      && (RegisterFieldsPresent(req.body) ==>
            var verified := env.VerifyIdToken(Field(req.body, "firebaseToken"));
            if verified.Err? then
              r == Response(500, Failure(verified.error)) && docs == old(docs)
            else if env.Fails(DocSet) then
              r == Response(500, Failure(env.ErrorText(DocSet))) && docs == old(docs)
            else
              r == Response(201, Registered(verified.value)) &&
              docs == old(docs)[verified.value := RegisteredProfile(verified.value, req.body, now)])
    }

    method Register(req: Request, env: Env, now: Time) returns (r: Response)
      requires Valid()
      modifies this`docs
      ensures Valid() && RegisterSpec(req, env, now, r)
    {
      if !RegisterFieldsPresent(req.body) {
        return Response(400, Message(MissingFields));
      }
      var verified := env.VerifyIdToken(Field(req.body, "firebaseToken"));
      if verified.Err? {
        return Response(500, Failure(verified.error));
      }
      var uid := verified.value;
      if env.Fails(DocSet) {
        return Response(500, Failure(env.ErrorText(DocSet)));
      }
      docs := docs[uid := RegisteredProfile(uid, req.body, now)];
      r := Response(201, Registered(uid));
    }

    /** `providerLogin`: a missing token answers 400; a failed verification
        or store call answers 500 (with a `message`, not an `error`), and so
        does a first login without an email, whose `undefined` field the
        document store refuses to write; success provisions the profile if
        absent and answers with the token as given and the profile now
        stored. */
    twostate predicate ProviderLoginSpec(req: Request, env: Env, now: Time, r: Response)
      reads this
    {
      && (!Truthy(Field(req.body, "firebaseToken")) ==>
            r == Response(400, Message(MissingFirebaseToken)) && docs == old(docs))
      && (Truthy(Field(req.body, "firebaseToken")) ==>
            var token := Field(req.body, "firebaseToken");
            var verified := env.VerifyIdToken(token);
            if verified.Err? then
              r == Response(500, Message(verified.error)) && docs == old(docs)
            else if env.Fails(DocGet) then
              r == Response(500, Message(env.ErrorText(DocGet))) && docs == old(docs)
            else if verified.value !in old(docs) && Field(req.body, "email") == Undefined then
              r == Response(500, Message(UndefinedValueRejected)) && docs == old(docs)
            else if verified.value !in old(docs) && env.Fails(DocSet) then
              r == Response(500, Message(env.ErrorText(DocSet))) && docs == old(docs)
            else
              docs == Provision(old(docs), verified.value, Field(req.body, "email"), now) &&
              r == Response(200, Session(token, docs[verified.value])))
    }

    method ProviderLogin(req: Request, env: Env, now: Time) returns (r: Response)
      requires Valid()
      modifies this`docs
      ensures Valid() && ProviderLoginSpec(req, env, now, r)
    {
      var token := Field(req.body, "firebaseToken");
      if !Truthy(token) {
        return Response(400, Message(MissingFirebaseToken));
      }
      var verified := env.VerifyIdToken(token);
      if verified.Err? {
        return Response(500, Message(verified.error));
      }
      var uid := verified.value;
      if env.Fails(DocGet) {
        return Response(500, Message(env.ErrorText(DocGet)));
      }
      if uid !in docs {
        if Field(req.body, "email") == Undefined {
          return Response(500, Message(UndefinedValueRejected));
        }
        if env.Fails(DocSet) {
          return Response(500, Message(env.ErrorText(DocSet)));
        }
        docs := docs[uid := FirstLoginProfile(uid, Field(req.body, "email"), now)];
      }
      var user := docs[uid];
      r := Response(200, Session(token, user));
    }

    /** `getUser`: 404 for an absent key, the stored profile otherwise, 500
        when the read fails. */
    function GetUser(uid: string, env: Env): (r: Response)
      reads this
      ensures r.status == 200 <==> !env.Fails(DocGet) && uid in docs
      ensures r.status == 200 ==> r.body == UserDoc(docs[uid])
      ensures r.status == 404 <==> !env.Fails(DocGet) && uid !in docs
      ensures r.status == 404 ==> r.body == Message(UserNotFound)
      ensures env.Fails(DocGet) ==> r == Response(500, Failure(env.ErrorText(DocGet)))
    {
      if env.Fails(DocGet) then Response(500, Failure(env.ErrorText(DocGet)))
      else if uid !in docs then Response(404, Message(UserNotFound))
      else Response(200, UserDoc(docs[uid]))
    }

    /** `updateUser`: the token is the second field of the `Authorization`
        header; without one the answer is 401, and a verified uid other than
        the path's answers 403 whatever the body says; neither writes. The
        owner's identity patch is sent only when it has a key, and always
        before the profile update, which always carries `updatedAt`. */
    twostate predicate UpdateUserSpec(req: Request, uidParam: string, env: Env, now: Time, r: Response)
      reads this
    {
      var token := AuthMiddleware.BearerToken(req.authorization);
      if token.None? || token.value == "" then
        r == Response(401, Message(MissingToken)) && accepted == old(accepted)
      else if env.VerifyIdToken(Str(token.value)).Err? then
        r == Response(500, Failure(env.VerifyIdToken(Str(token.value)).error)) && accepted == old(accepted)
      else if env.VerifyIdToken(Str(token.value)).value != uidParam then
        r == Response(403, Message(CannotEditOther)) && accepted == old(accepted)
      else
        var patch := IdentityPatch(req.body);
        var identityWrites := if patch.KeyCount() > 0 then [PatchIdentity(uidParam, patch)] else [];
        if patch.KeyCount() > 0 && env.Fails(AuthUpdate) then
          r == Response(500, Failure(env.ErrorText(AuthUpdate))) && accepted == old(accepted)
        else if env.Fails(DocUpdate) then
          r == Response(500, Failure(env.ErrorText(DocUpdate))) && accepted == old(accepted) + identityWrites
        else
          r == Response(200, Message(UserUpdated)) &&
          accepted == old(accepted) + identityWrites + [UpdateProfile(uidParam, ProfileUpdateOf(req.body, now))]
    }

    method UpdateUser(req: Request, uidParam: string, env: Env, now: Time) returns (r: Response)
      modifies this`accepted
      ensures UpdateUserSpec(req, uidParam, env, now, r)
    {
      var token := AuthMiddleware.BearerToken(req.authorization);
      if token.None? || token.value == "" {
        return Response(401, Message(MissingToken));
      }
      var verified := env.VerifyIdToken(Str(token.value));
      if verified.Err? {
        return Response(500, Failure(verified.error));
      }
      var authUid := verified.value;
      if authUid != uidParam {
        return Response(403, Message(CannotEditOther));
      }
      var patch := IdentityPatch(req.body);
      if patch.KeyCount() > 0 {
        if env.Fails(AuthUpdate) {
          return Response(500, Failure(env.ErrorText(AuthUpdate)));
        }
        accepted := accepted + [PatchIdentity(authUid, patch)];
      }
      if env.Fails(DocUpdate) {
        return Response(500, Failure(env.ErrorText(DocUpdate)));
      }
      accepted := accepted + [UpdateProfile(authUid, ProfileUpdateOf(req.body, now))];
      r := Response(200, Message(UserUpdated));
    }

    /** Why the identity service refuses to delete `uid`, if it does: an
        injected failure, or no identity record under that uid. */
    function AuthDeleteError(uid: string, env: Env): (e: Option<string>)
      reads this
      ensures e.None? <==> !env.Fails(AuthDelete) && uid in identities
    {
      if env.Fails(AuthDelete) then Some(env.ErrorText(AuthDelete))
      else if uid !in identities then Some(NoUserRecord)
      else None
    }

    /** `deleteUser`: no ownership check; the identity record goes first and,
        if the identity service refuses (also when there is no such record),
        nothing changes; if the profile delete then fails, the identity is
        gone and the profile stays. */
    twostate predicate DeleteUserSpec(uid: string, env: Env, r: Response)
      reads this
    {
      var refused := old(AuthDeleteError(uid, env));
      && (refused.Some? ==>
            r == Response(500, Failure(refused.value)) &&
            identities == old(identities) && docs == old(docs))
      && (refused.None? && env.Fails(DocDelete) ==>
            r == Response(500, Failure(env.ErrorText(DocDelete))) &&
            identities == old(identities) - {uid} && docs == old(docs))
      && (refused.None? && !env.Fails(DocDelete) ==>
            r == Response(200, Message(UserDeleted)) &&
            identities == old(identities) - {uid} && docs == old(docs) - {uid})
    }

    method DeleteUser(uid: string, env: Env) returns (r: Response)
      requires Valid()
      modifies this`docs, this`identities
      ensures Valid() && DeleteUserSpec(uid, env, r)
    {
      var refused := AuthDeleteError(uid, env);
      if refused.Some? {
        return Response(500, Failure(refused.value));
      }
      identities := identities - {uid};
      if env.Fails(DocDelete) {
        return Response(500, Failure(env.ErrorText(DocDelete)));
      }
      docs := docs - {uid};
      r := Response(200, Message(UserDeleted));
    }

    /** `listUsers`: every stored profile once, in some order; 500
        when the read fails. */
    predicate ListUsersSpec(env: Env, r: Response)
      reads this
    {
      && (env.Fails(DocQuery) ==> r == Response(500, Failure(env.ErrorText(DocQuery))))
      && (!env.Fails(DocQuery) ==> r.status == 200 && r.body.Users? && ListsAll(r.body.users, docs))
    }

    method ListUsers(env: Env) returns (r: Response)
      requires Valid()
      ensures ListUsersSpec(env, r)
    {
      if env.Fails(DocQuery) {
        return Response(500, Failure(env.ErrorText(DocQuery)));
      }
      var rest := docs.Keys;
      var list: seq<Profile> := [];
      while rest != {}
        invariant rest <= docs.Keys
        invariant |list| + |rest| == |docs|
        invariant forall i :: 0 <= i < |list| ==> list[i].uid in docs && docs[list[i].uid] == list[i] && list[i].uid !in rest
        invariant forall i, j :: 0 <= i < j < |list| ==> list[i].uid != list[j].uid
        invariant forall k :: k in docs && k !in rest ==> docs[k] in list
        decreases |rest|
      {
        var k :| k in rest;
        list := list + [docs[k]];
        rest := rest - {k};
      }
      r := Response(200, Users(list));
    }
  }
}
