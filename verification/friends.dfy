/** `/api/friends`: sending a friend request (POST) and listing the caller's
    friendships (GET). */
module Friends {
  import opened Http
  import opened Json
  import opened Rows
  import opened Store

  /** The row links users `a` and `b`, in either direction. */
  predicate Between(f: Friendship, a: int, b: int) {
    (f.userId == a && f.friendId == b) || (f.userId == b && f.friendId == a)
  }

  /** At most one friendship row per unordered pair of users. */
  ghost predicate OnePerPair(fs: seq<Friendship>) {
    forall i, j :: 0 <= i < j < |fs| ==> !Between(fs[j], fs[i].userId, fs[i].friendId)
  }

  /** The checks `handleSendFriendRequest` makes before it inserts: the body
      must destructure (else a TypeError, 500); `friendId` must be a non-zero
      number other than the caller's id (else 400); Prisma refuses a
      fractional id (500); and no row may link the two users yet (409). */
  function CheckRequest(fs: seq<Friendship>, caller: int, body: Value): (r: Checked<int>)
    ensures !Destructurable(body) ==> r == Reject(Internal)
    ensures r == Reject(BadRequest) <==>
              Destructurable(body) &&
              (!Get(body, "friendId").Num? || Get(body, "friendId").x == 0.0 ||
               Get(body, "friendId").x == caller as real)
    ensures var t := AsInt(Get(body, "friendId"));
            r == Reject(Conflict) <==>
              Destructurable(body) && t.Some? && t.value !in {0, caller} &&
              exists f :: f in fs && Between(f, caller, t.value)
    ensures var t := AsInt(Get(body, "friendId"));
            r.Accept? <==>
              Destructurable(body) && t.Some? && t.value !in {0, caller} &&
              !exists f :: f in fs && Between(f, caller, t.value)
    ensures r.Accept? ==> r.value as real == Get(body, "friendId").x && r.value != caller
  {
    if !Destructurable(body) then Reject(Internal)
    else
      var v := Get(body, "friendId");
      if !Truthy(v) || !v.Num? then Reject(BadRequest)
      else if v.x == caller as real then Reject(BadRequest)
      else
        match AsInt(v)
        case None => Reject(Internal)
        case Some(target) =>
          if FindFirst(fs, (f: Friendship) => Between(f, caller, target)).Some? then Reject(Conflict)
          else Accept(target)
  }

  /** A request that passes the checks cannot break the one-row-per-pair
      invariant. */
  lemma SendKeepsOnePerPair(fs: seq<Friendship>, caller: int, body: Value, id: int, now: int)
    requires OnePerPair(fs)
    requires CheckRequest(fs, caller, body).Accept?
    ensures OnePerPair(fs + [Friendship(id, caller, CheckRequest(fs, caller, body).value, FriendshipStatus.PENDING, now)])
  {
    var t := CheckRequest(fs, caller, body).value;
    var g := fs + [Friendship(id, caller, t, FriendshipStatus.PENDING, now)];
    forall i, j | 0 <= i < j < |g| ensures !Between(g[j], g[i].userId, g[i].friendId) {
      if j == |fs| {
        assert g[i] in fs;
      }
    }
  }

  /** `handleGetFriendships`: every row naming the caller on either side, of any status. */
  function GetFriendships(fs: seq<Friendship>, caller: int): (r: seq<Friendship>)
    ensures forall f :: f in r <==> f in fs && (f.userId == caller || f.friendId == caller)
    ensures |r| <= |fs|
  {
    Filter(fs, (f: Friendship) => f.userId == caller || f.friendId == caller)
  }

  datatype Reply = Created(row: Friendship) | Listed(rows: seq<Friendship>)

  /** `handleSendFriendRequest`: check, then insert one PENDING row from the caller to the target. */
  method SendFriendRequest(db: Db, caller: int, body: Value, now: int) returns (r: Response<Reply>)
    requires db.Valid()
    modifies db
    ensures db.Valid()
    ensures OnePerPair(old(db.friendships)) ==> OnePerPair(db.friendships)
    ensures var c := CheckRequest(old(db.friendships), caller, body);
            if c.Reject? then
              r == Err(c.failure) && db.Snapshot() == old(db.Snapshot())
            else
              var row := Friendship(old(db.nextId), caller, c.value, FriendshipStatus.PENDING, now);
              r == Ok(201, Created(row)) &&
              db.Snapshot() == old(db.Snapshot()).(friendships := old(db.friendships) + [row])
  {
    var c := CheckRequest(db.friendships, caller, body);
    if c.Reject? {
      return Err(c.failure);
    }
    if OnePerPair(db.friendships) {
      SendKeepsOnePerPair(db.friendships, caller, body, db.nextId, now);
    }
    var row := db.CreateFriendship(caller, c.value, FriendshipStatus.PENDING, now);
    r := Ok(201, Created(row));
  }

  /** The `/api/friends` handler: no session is refused before anything else;
      POST and GET are dispatched; every other verb gets 405 with
      `Allow: POST, GET`. Only a POST that passes its checks writes. */
  method Handle(db: Db, session: Option<Session>, verb: Verb, body: Value, now: int)
    returns (r: Response<Reply>)
    requires db.Valid()
    modifies db
    ensures db.Valid()
    ensures OnePerPair(old(db.friendships)) ==> OnePerPair(db.friendships)
    ensures session.None? ==> r == Err(Unauthorized)
    ensures session.Some? && verb !in {POST, GET} ==> r == Err(MethodNotAllowed([POST, GET]))
    ensures session.Some? && verb == GET ==>
              r == Ok(200, Listed(GetFriendships(old(db.friendships), session.value.userId)))
    ensures (session.None? || verb != POST) ==> db.Snapshot() == old(db.Snapshot())
    ensures session.Some? && verb == POST ==>
              var c := CheckRequest(old(db.friendships), session.value.userId, body);
              if c.Reject? then
                r == Err(c.failure) && db.Snapshot() == old(db.Snapshot())
              else
                var row := Friendship(old(db.nextId), session.value.userId, c.value, FriendshipStatus.PENDING, now);
                r == Ok(201, Created(row)) &&
                db.Snapshot() == old(db.Snapshot()).(friendships := old(db.friendships) + [row])
  {
    if session.None? {
      return Err(Unauthorized);
    }
    match verb
    case POST =>
      r := SendFriendRequest(db, session.value.userId, body, now);
    case GET =>
      r := Ok(200, Listed(GetFriendships(db.friendships, session.value.userId)));
    case _ =>
      r := Err(MethodNotAllowed([POST, GET]));
  }
}
