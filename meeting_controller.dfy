/** The meeting handlers: keyed create with a short random id, get by id,
    list by host, and delete by id, over the "meetings" collection. */
module MeetingController {
  import opened Js
  import opened Model

  const HostFieldsRequired := "uid & hostName required"
  const MeetingNotFound := "Meeting not found"
  const UidRequired := "uid is required"
  /** The document store's refusal of an empty document path, as the client
      library words it. */
  const EmptyPathRejected := "Value for argument \"documentPath\" is not a valid resource path. Path must be a non-empty string."

  const Base36Digits := "0123456789abcdefghijklmnopqrstuvwxyz"

  predicate IsBase36(s: string)
  {
    forall i :: 0 <= i < |s| ==> s[i] in Base36Digits
  }

  /** The shape of a generated meeting id: at most 8 base-36 digits. */
  predicate ValidMeetingId(id: string)
  {
    |id| <= 8 && IsBase36(id)
  }

  function Clamp(i: int, n: nat): (r: nat)
    ensures r <= n
  {
    if i < 0 then 0 else if i > n then n else i
  }

  /** `s.substring(start, end)`: both ends clamped to the string, swapped
      when the start is past the end. */
  function Substring(s: string, start: int, end: int): string
  {
    var a, b := Clamp(start, |s|), Clamp(end, |s|);
    if a <= b then s[a..b] else s[b..a]
  }

  /** `x.toString(36)` for a random `x` in [0, 1): "0" for zero, otherwise
      "0." followed by the fraction's base-36 digits. */
  function RandomRendering(digits: string): string
  {
    if digits == "" then "0" else "0." + digits
  }

  /** `Math.random().toString(36).substring(2, 10)`: the first (at most) 8
      fraction digits, hence always a valid meeting id. */
  function MeetingId(digits: string): (id: string)
    requires IsBase36(digits)
    ensures ValidMeetingId(id)
    ensures id == digits[..if |digits| < 8 then |digits| else 8]
  {
    var s := RandomRendering(digits);
    assert digits != "" ==> s[2..] == digits;
    Substring(s, 2, 10)
  }

  /** Each listed meeting is stored under its own id with the requested
      host, no id twice, and every such meeting is listed. */
  predicate ListsHostedBy(list: seq<Meeting>, docs: map<string, Meeting>, host: string)
  {
    && (forall i :: 0 <= i < |list| ==> list[i].id in docs && docs[list[i].id] == list[i] && list[i].hostId == Str(host))
    && (forall i, j :: 0 <= i < j < |list| ==> list[i].id != list[j].id)
    && (forall k :: k in docs && docs[k].hostId == Str(host) ==> docs[k] in list)
  }

  /** `req.query.uid` */
  function QueryUid(req: Request): Option<string>
  {
    if "uid" in req.query then Some(req.query["uid"]) else None
  }

  /** The "meetings" collection: meeting documents keyed by id. */
  class Meetings {
    var docs: map<string, Meeting>

    /** Every meeting is stored under its own id. */
    ghost predicate Valid()
      reads this
    {
      forall k :: k in docs ==> docs[k].id == k
    }

    constructor (docs: map<string, Meeting>)
      requires forall k :: k in docs ==> docs[k].id == k
      ensures Valid() && this.docs == docs
    {
      this.docs := docs;
    }

    /** `createMeeting`: a falsy `uid` or `hostName` answers 400 and writes
        nothing; an empty generated id (a random draw of 0) is a document path
        the store refuses, so it answers 500 and writes nothing; otherwise the
        record is stored under the generated id, silently replacing any
        meeting with that id, with the body's `uid` as host, and the 201
        answer carries exactly what was stored. */
    twostate predicate CreateMeetingSpec(req: Request, digits: string, env: Env, now: Time, r: Response)
      requires IsBase36(digits)
      reads this
    {
      var fields := Truthy(Field(req.body, "uid")) && Truthy(Field(req.body, "hostName"));
      var id := MeetingId(digits);
      && (!fields ==> r == Response(400, Message(HostFieldsRequired)) && docs == old(docs))
      && (fields && id == "" ==> r == Response(500, Failure(EmptyPathRejected)) && docs == old(docs))
      && (fields && id != "" && env.Fails(DocSet) ==>
            r == Response(500, Failure(env.ErrorText(DocSet))) && docs == old(docs))
      && (fields && id != "" && !env.Fails(DocSet) ==>
            docs == old(docs)[id := Meeting(id, Field(req.body, "uid"), Field(req.body, "hostName"), now)] &&
            r == Response(201, MeetingDoc(docs[id])))
    }

    method CreateMeeting(req: Request, digits: string, env: Env, now: Time) returns (r: Response)
      requires Valid() && IsBase36(digits)
      modifies this
      ensures Valid() && CreateMeetingSpec(req, digits, env, now, r)
    {
      var uid, hostName := Field(req.body, "uid"), Field(req.body, "hostName");
      if !Truthy(uid) || !Truthy(hostName) {
        return Response(400, Message(HostFieldsRequired));
      }
      var meetingId := MeetingId(digits);
      var data := Meeting(meetingId, uid, hostName, now);
      if meetingId == "" {
        return Response(500, Failure(EmptyPathRejected));
      }
      if env.Fails(DocSet) {
        return Response(500, Failure(env.ErrorText(DocSet)));
      }
      docs := docs[meetingId := data];
      r := Response(201, MeetingDoc(data));
    }

    /** `getMeeting`: 404 when absent, the stored record otherwise, 500 when
        the read fails. */
    function GetMeeting(id: string, env: Env): (r: Response)
      reads this
      ensures r.status == 200 <==> !env.Fails(DocGet) && id in docs
      ensures r.status == 200 ==> r.body == MeetingDoc(docs[id])
      ensures r.status == 404 <==> !env.Fails(DocGet) && id !in docs
      ensures r.status == 404 ==> r.body == Message(MeetingNotFound)
      ensures env.Fails(DocGet) ==> r == Response(500, Failure(env.ErrorText(DocGet)))
    {
      if env.Fails(DocGet) then Response(500, Failure(env.ErrorText(DocGet)))
      else if id !in docs then Response(404, Message(MeetingNotFound))
      else Response(200, MeetingDoc(docs[id]))
    }

    /** `listMeetings`: 400 without a `uid` query; otherwise exactly the
        meetings hosted by it, and an empty list (still 200) when there are
        none. */
    predicate ListMeetingsSpec(req: Request, env: Env, r: Response)
      reads this
    {
      && (QueryUid(req).None? || QueryUid(req).value == "" ==> r == Response(400, Message(UidRequired)))
      && (QueryUid(req).Some? && QueryUid(req).value != "" && env.Fails(DocQuery) ==>
            r == Response(500, Failure(env.ErrorText(DocQuery))))
      && (QueryUid(req).Some? && QueryUid(req).value != "" && !env.Fails(DocQuery) ==>
            r.status == 200 && r.body.Meetings? && ListsHostedBy(r.body.meetings, docs, QueryUid(req).value))
      && (r.status == 200 && QueryUid(req).Some? && (forall k :: k in docs ==> docs[k].hostId != Str(QueryUid(req).value)) ==>
            r.body == Meetings([]))
    }

    method ListMeetings(req: Request, env: Env) returns (r: Response)
      requires Valid()
      ensures ListMeetingsSpec(req, env, r)
    {
      var uid := QueryUid(req);
      if uid.None? || uid.value == "" {
        return Response(400, Message(UidRequired));
      }
      if env.Fails(DocQuery) {
        return Response(500, Failure(env.ErrorText(DocQuery)));
      }
      var host := uid.value;
      var rest := docs.Keys;
      var list: seq<Meeting> := [];
      while rest != {}
        invariant rest <= docs.Keys
        invariant forall i :: 0 <= i < |list| ==>
          list[i].id in docs && docs[list[i].id] == list[i] && list[i].hostId == Str(host) && list[i].id !in rest
        invariant forall i, j :: 0 <= i < j < |list| ==> list[i].id != list[j].id
        invariant forall k :: k in docs && k !in rest && docs[k].hostId == Str(host) ==> docs[k] in list
        decreases |rest|
      {
        var k :| k in rest;
        if docs[k].hostId == Str(host) {
          list := list + [docs[k]];
        }
        rest := rest - {k};
      }
      if list != [] {
        assert list[0].id in docs && docs[list[0].id].hostId == Str(host);
      }
      r := Response(200, Meetings(list));
    }

    /** `deleteMeeting`: removes key `id` and nothing else, with no ownership
        check; the answer does not depend on whether the meeting existed. */
    twostate predicate DeleteMeetingSpec(id: string, env: Env, r: Response)
      reads this
    {
      && (env.Fails(DocDelete) ==> r == Response(500, Failure(env.ErrorText(DocDelete))) && docs == old(docs))
      && (!env.Fails(DocDelete) ==> r == Response(200, MeetingDeleted(id)) && docs == old(docs) - {id})
    }

    method DeleteMeeting(id: string, env: Env) returns (r: Response)
      requires Valid()
      modifies this
      ensures Valid() && DeleteMeetingSpec(id, env, r)
    {
      if env.Fails(DocDelete) {
        return Response(500, Failure(env.ErrorText(DocDelete)));
      }
      docs := docs - {id};
      r := Response(200, MeetingDeleted(id));
    }
  }

  /** Deleting twice leaves the collection as deleting once (and the answer,
      independent of the collection, is the same both times). */
  lemma DeleteIdempotent(docs: map<string, Meeting>, id: string)
    ensures (docs - {id}) - {id} == docs - {id}
    ensures id !in docs - {id}
    ensures forall k :: k in docs && k != id ==> k in docs - {id} && (docs - {id})[k] == docs[k]
  {
  }
}
