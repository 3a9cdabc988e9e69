/** `/api/admin`: the administrator's listings (GET, dispatched on the
    `action` query parameter) and actions (POST, dispatched on the body's
    `action`). Only the ADMIN role is let in. */
module Admin {
  import opened Http
  import opened Json
  import opened Rows
  import opened Store

  predicate IsAdmin(session: Option<Session>) {
    session.Some? && session.value.role == ADMIN
  }

  /** Thirty days in milliseconds. */
  const InactiveAfter: int := 30 * 24 * 60 * 60 * 1000

  /** `getInactiveUsers`: the users last active strictly before thirty days ago. */
  function InactiveUsers(users: seq<User>, now: int): (r: seq<User>)
    ensures forall u :: u in r <==> u in users && u.lastActive < now - 2592000000
    ensures |r| <= |users|
  {
    Filter(users, (u: User) => u.lastActive < now - InactiveAfter)
  }

  /** `getModeratorRequests`: the PENDING requests, in storage order. */
  function PendingRequests(rs: seq<ModeratorRequest>): (r: seq<ModeratorRequest>)
    ensures forall x :: x in r <==> x in rs && x.status == RequestStatus.PENDING
    ensures |r| <= |rs|
  {
    Filter(rs, (x: ModeratorRequest) => x.status == RequestStatus.PENDING)
  }

  /** `getFlaggedPosts`: the PENDING flags, in storage order. */
  function PendingFlags(fs: seq<FlaggedPost>): (r: seq<FlaggedPost>)
    ensures forall x :: x in r <==> x in fs && x.status == FlagStatus.PENDING
    ensures |r| <= |fs|
  {
    Filter(fs, (x: FlaggedPost) => x.status == FlagStatus.PENDING)
  }

  datatype Listing =
    | Users(users: seq<User>)
    | Requests(requests: seq<ModeratorRequest>)
    | Flags(flags: seq<FlaggedPost>)

  /** GET: not an admin, 401; then the listing the `action` parameter names,
      or 400 for a missing or unknown action. */
  function List(session: Option<Session>, action: Option<string>, t: Tables, now: int)
    : (r: Response<Listing>)
    ensures !IsAdmin(session) ==> r == Err(Unauthorized)
    ensures IsAdmin(session) &&
            action !in {Some("inactiveUsers"), Some("moderatorRequests"), Some("flaggedPosts")} ==>
              r == Err(BadRequest)
    ensures IsAdmin(session) && action == Some("inactiveUsers") ==>
              r.Ok? && r.code == 200 && r.body.Users? &&
              forall u :: u in r.body.users <==> u in t.users && u.lastActive < now - 2592000000
    ensures IsAdmin(session) && action == Some("moderatorRequests") ==>
              r.Ok? && r.code == 200 && r.body.Requests? &&
              forall x :: x in r.body.requests <==> x in t.requests && x.status == RequestStatus.PENDING
    ensures IsAdmin(session) && action == Some("flaggedPosts") ==>
              r.Ok? && r.code == 200 && r.body.Flags? &&
              forall x :: x in r.body.flags <==> x in t.flags && x.status == FlagStatus.PENDING
  {
    if !IsAdmin(session) then Err(Unauthorized)
    else if action == Some("inactiveUsers") then Ok(200, Users(InactiveUsers(t.users, now)))
    else if action == Some("moderatorRequests") then Ok(200, Requests(PendingRequests(t.requests)))
    else if action == Some("flaggedPosts") then Ok(200, Flags(PendingFlags(t.flags)))
    else Err(BadRequest)
  }

  /** After a promotion of a user that exists, that user has the role given. */
  lemma {:induction false} PromotionSticks(us: seq<User>, id: int, role: Role, next: int)
    requires Keyed(us, UserKey, next)
    requires Lookup(us, UserKey, id).Some?
    ensures Lookup(SetUserRole(us, id, role), UserKey, id) == Some(Lookup(us, UserKey, id).value.(role := role))
  {
    var before := Lookup(us, UserKey, id).value;
    var us' := SetUserRole(us, id, role);
    var i :| 0 <= i < |us| && us[i] == before;
    assert us'[i] == before.(role := role);
    forall j | 0 <= j < |us'| && j != i ensures UserKey(us'[j]) != id {
      assert UserKey(us[j]) != UserKey(us[i]);
    }
    assert us'[i] in us';
    var x := Lookup(us', UserKey, id).value;
    var k :| 0 <= k < |us'| && us'[k] == x;
  }

  /** The actions a POST can name. */
  predicate KnownAction(action: Value) {
    action in {Str("deleteUser"), Str("approveModerator"), Str("deletePost")}
  }

  /** POST: not an admin, 401; the body is destructured outside any try
      block, so a missing body fails (500). `deleteUser` and `deletePost`
      remove the row with that id (500 when there is none or the id is not an
      integer). `approveModerator` sets the request APPROVED whatever its
      status, then makes the requesting user a MODERATOR; the two writes are
      separate, so a missing user fails (500) after the request is already
      APPROVED. Any other action, `rejectModerator` included, is 400. */
  method Act(db: Db, session: Option<Session>, body: Value) returns (r: Response<string>)
    requires db.Valid()
    modifies db
    ensures db.Valid()
    ensures !IsAdmin(session) ==> r == Err(Unauthorized) && db.Snapshot() == old(db.Snapshot())
    ensures IsAdmin(session) && !Destructurable(body) ==> r == Err(Internal) && db.Snapshot() == old(db.Snapshot())
    ensures IsAdmin(session) && Destructurable(body) && !KnownAction(Get(body, "action")) ==>
              r == Err(BadRequest) && db.Snapshot() == old(db.Snapshot())
    ensures IsAdmin(session) && Destructurable(body) && KnownAction(Get(body, "action")) &&
            AsInt(Get(body, "id")).None? ==>
              r == Err(Internal) && db.Snapshot() == old(db.Snapshot())
    ensures var id := AsInt(Get(body, "id"));
            IsAdmin(session) && Get(body, "action") == Str("deleteUser") && id.Some? ==>
              (r.Ok? <==> Lookup(old(db.users), UserKey, id.value).Some?) &&
              (r.Ok? ==> r == Ok(200, "User deleted successfully")) &&
              (r.Err? ==> r == Err(Internal)) &&
              db.Snapshot() == old(db.Snapshot()).(users := Remove(old(db.users), UserKey, id.value))
    ensures var id := AsInt(Get(body, "id"));
            IsAdmin(session) && Get(body, "action") == Str("deletePost") && id.Some? ==>
              (r.Ok? <==> Lookup(old(db.posts), PostKey, id.value).Some?) &&
              (r.Ok? ==> r == Ok(200, "Post deleted successfully")) &&
              (r.Err? ==> r == Err(Internal)) &&
              db.Snapshot() == old(db.Snapshot()).(posts := Remove(old(db.posts), PostKey, id.value))
    ensures var id := AsInt(Get(body, "id"));
            IsAdmin(session) && Get(body, "action") == Str("approveModerator") && id.Some? ==>
              var req := Lookup(old(db.requests), RequestKey, id.value);
              if req.None? then
                r == Err(Internal) && db.Snapshot() == old(db.Snapshot())
              else
                var approved := old(db.Snapshot()).(requests := SetRequestStatus(old(db.requests), id.value, RequestStatus.APPROVED));
                db.Snapshot() == approved.(users := SetUserRole(old(db.users), req.value.userId, MODERATOR)) &&
                r == (if Lookup(old(db.users), UserKey, req.value.userId).Some?
                      then Ok(200, "Moderator approved successfully") else Err(Internal))
  {
    if !IsAdmin(session) {
      return Err(Unauthorized);
    }
    if !Destructurable(body) {
      return Err(Internal);
    }
    var action := Get(body, "action");
    if !KnownAction(action) {
      return Err(BadRequest);
    }
    var id := AsInt(Get(body, "id"));
    if id.None? {
      return Err(Internal);
    }
    if action == Str("deleteUser") {
      var ok := db.DeleteUser(id.value);
      r := if ok then Ok(200, "User deleted successfully") else Err(Internal);
    } else if action == Str("approveModerator") {
      SetAbsent([], db.requests, [], id.value, FlagStatus.PENDING, RequestStatus.APPROVED, USER);
      var req := db.UpdateRequestStatus(id.value, RequestStatus.APPROVED);
      if req.None? {
        return Err(Internal);
      }
      var ok := db.UpdateUserRole(req.value.userId, MODERATOR);
      r := if ok then Ok(200, "Moderator approved successfully") else Err(Internal);
    } else {
      var ok := db.DeletePost(id.value);
      r := if ok then Ok(200, "Post deleted successfully") else Err(Internal);
    }
  }
}
