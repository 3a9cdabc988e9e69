/** `/api/moderator-requests`: a user asks to become a moderator (POST);
    an administrator lists every request (GET). */
module ModeratorRequests {
  import opened Http
  import opened Json
  import opened Rows
  import opened Store
  import Validation

  /** At most one moderator request per user. */
  ghost predicate OnePerUser(rs: seq<ModeratorRequest>) {
    forall i, j :: 0 <= i < j < |rs| ==> rs[i].userId != rs[j].userId
  }

  /** The checks `handleCreateModeratorRequest` makes before it inserts:
      the body must pass the schema (a schema failure is not a
      `BadRequestError`, so 500), and the caller must have no request yet, of
      any status (400). */
  function CheckRequest(rs: seq<ModeratorRequest>, caller: int, body: Value): (r: Checked<Validation.RequestInput>)
    ensures Validation.ModeratorRequest(body).None? ==> r == Reject(Internal)
    ensures Validation.ModeratorRequest(body).Some? ==>
              (r == Reject(BadRequest) <==> exists x :: x in rs && x.userId == caller)
    ensures r.Accept? <==> Validation.ModeratorRequest(body).Some? && forall x :: x in rs ==> x.userId != caller
    ensures r.Accept? ==> r.value == Validation.ModeratorRequest(body).value
  {
    match Validation.ModeratorRequest(body)
    case None => Reject(Internal)
    case Some(input) =>
      if FindFirst(rs, (x: ModeratorRequest) => x.userId == caller).Some? then Reject(BadRequest)
      else Accept(input)
  }

  /** A request that passes the checks keeps one request per user. */
  lemma {:induction false} CreateKeepsOnePerUser(rs: seq<ModeratorRequest>, caller: int, body: Value, row: ModeratorRequest)
    requires OnePerUser(rs)
    requires CheckRequest(rs, caller, body).Accept?
    requires row.userId == caller
    ensures OnePerUser(rs + [row])
  {
    var g := rs + [row];
    forall i, j | 0 <= i < j < |g| ensures g[i].userId != g[j].userId {
      if j == |rs| {
        assert g[i] in rs;
      }
    }
  }

  datatype Reply = Created(row: ModeratorRequest) | Listed(rows: seq<ModeratorRequest>)

  /** `handleGetModeratorRequests`: 403 unless the caller is an ADMIN; then
      every request, whatever its status. */
  function ListRequests(role: Role, rs: seq<ModeratorRequest>): (r: Response<Reply>)
    ensures role != ADMIN <==> r == Err(Forbidden)
    ensures r.Ok? ==> r.code == 200 && r.body.Listed? &&
                      forall x :: x in r.body.rows <==> x in rs
  {
    if role != ADMIN then Err(Forbidden) else Ok(200, Listed(rs))
  }

  /** The `/api/moderator-requests` handler: no session, 401, before
      anything else; POST and GET are dispatched; any other verb gets 405
      with `Allow: POST, GET`. Only a POST that passes its checks writes, and
      it adds one PENDING request from the caller. */
  method Handle(db: Db, session: Option<Session>, verb: Verb, body: Value, now: int)
    returns (r: Response<Reply>)
    requires db.Valid()
    modifies db
    ensures db.Valid()
    ensures OnePerUser(old(db.requests)) ==> OnePerUser(db.requests)
    ensures session.None? ==> r == Err(Unauthorized)
    ensures session.Some? && verb !in {POST, GET} ==> r == Err(MethodNotAllowed([POST, GET]))
    ensures session.Some? && verb == GET ==> r == ListRequests(session.value.role, old(db.requests))
    ensures (session.None? || verb != POST) ==> db.Snapshot() == old(db.Snapshot())
    ensures session.Some? && verb == POST ==>
              var c := CheckRequest(old(db.requests), session.value.userId, body);
              if c.Reject? then
                r == Err(c.failure) && db.Snapshot() == old(db.Snapshot())
              else
                var row := ModeratorRequest(old(db.nextId), session.value.userId, c.value.description,
                                            c.value.qualifications, c.value.location, RequestStatus.PENDING, now);
                r == Ok(201, Created(row)) &&
                db.Snapshot() == old(db.Snapshot()).(requests := old(db.requests) + [row])
  {
    if session.None? {
      return Err(Unauthorized);
    }
    match verb
    case POST =>
      var c := CheckRequest(db.requests, session.value.userId, body);
      if c.Reject? {
        return Err(c.failure);
      }
      var row := db.CreateModeratorRequest(session.value.userId, c.value.description,
                                           c.value.qualifications, c.value.location, now);
      if OnePerUser(old(db.requests)) {
        CreateKeepsOnePerUser(old(db.requests), session.value.userId, body, row);
      }
      r := Ok(201, Created(row));
    case GET =>
      r := ListRequests(session.value.role, db.requests);
    case _ =>
      r := Err(MethodNotAllowed([POST, GET]));
  }
}
