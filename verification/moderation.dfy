/** `/api/moderation`: the moderator's queue of pending flagged posts (GET)
    and the decision on one flag (POST). Only the MODERATOR role is let in;
    an ADMIN is refused like anyone else. */
module Moderation {
  import opened Http
  import opened Json
  import opened Rows
  import opened Ordering
  import opened Store

  /** The role check both verbs make first. */
  predicate IsModerator(session: Option<Session>) {
    session.Some? && session.value.role == MODERATOR
  }

  /** The flags still waiting for a decision, newest first. */
  function PendingFlags(flags: seq<FlaggedPost>): (r: seq<FlaggedPost>)
    ensures forall f :: f in r <==> f in flags && f.status == FlagStatus.PENDING
    ensures OrderedBy(r, FlagCreated, Desc)
    ensures multiset(r) <= multiset(flags)
  {
    var pending := Filter(flags, (f: FlaggedPost) => f.status == FlagStatus.PENDING);
    SortBySameRows(pending, FlagCreated, Desc);
    SortBy(pending, FlagCreated, Desc)
  }

  /** GET: not a moderator, 401. `page` defaults to 1 and `limit` to 10; a
      value that does not parse or a negative skip or take fails the query
      (500). Otherwise that page of the pending flags, newest first. */
  function Queue(session: Option<Session>, page: Param<int>, limit: Param<int>, flags: seq<FlaggedPost>)
    : (r: Response<seq<FlaggedPost>>)
    ensures !IsModerator(session) ==> r == Err(Unauthorized)
    ensures IsModerator(session) ==> r == Err(Internal) || r.Ok?
    ensures r.Ok? ==> r.code == 200 && IsModerator(session) && !page.Unparsable? && !limit.Unparsable?
    ensures r.Ok? ==> Window(PendingFlags(flags), OrDefault(page, 1).value, OrDefault(limit, 10).value)
                        == Some(r.body)
    ensures r.Ok? <==> IsModerator(session) && !page.Unparsable? && !limit.Unparsable? &&
                       Window(PendingFlags(flags), OrDefault(page, 1).value, OrDefault(limit, 10).value).Some?
    ensures IsModerator(session) && page.Absent? && limit.Absent? ==> r.Ok?
  {
    if !IsModerator(session) then Err(Unauthorized)
    else if page.Unparsable? || limit.Unparsable? then Err(Internal)
    else
      var w := Window(PendingFlags(flags), OrDefault(page, 1).value, OrDefault(limit, 10).value);
      if w.None? then Err(Internal) else Ok(200, w.value)
  }

  /** A served page of the queue holds at most `limit` flags, all PENDING,
      newest first. */
  lemma QueuePage(session: Option<Session>, page: Param<int>, limit: Param<int>, flags: seq<FlaggedPost>)
    requires Queue(session, page, limit, flags).Ok?
    ensures var r := Queue(session, page, limit, flags).body;
            && |r| <= OrDefault(limit, 10).value
            && OrderedBy(r, FlagCreated, Desc)
            && forall f :: f in r ==> f in flags && f.status == FlagStatus.PENDING
  {
    var pending := PendingFlags(flags);
    var pg, lim := OrDefault(page, 1).value, OrDefault(limit, 10).value;
    WindowOrdered(pending, FlagCreated, Desc, pg, lim);
    WindowDrawn(pending, pg, lim);
  }

  /** The status a decision sets: RESOLVED exactly for the action string
      "RESOLVE"; any other action, or none, dismisses. */
  function Decision(action: Value): (st: FlagStatus)
    ensures st == FlagStatus.RESOLVED <==> action == Str("RESOLVE")
    ensures st != FlagStatus.PENDING
  {
    if action == Str("RESOLVE") then FlagStatus.RESOLVED else FlagStatus.DISMISSED
  }

  /** After a decision on a flag that exists, looking the flag up gives the
      row with the new status, whatever status it had before. */
  lemma {:induction false} DecisionSticks(fs: seq<FlaggedPost>, id: int, st: FlagStatus, next: int)
    requires Keyed(fs, FlagKey, next)
    requires Lookup(fs, FlagKey, id).Some?
    ensures Lookup(SetFlagStatus(fs, id, st), FlagKey, id) == Some(Lookup(fs, FlagKey, id).value.(status := st))
  {
    var before := Lookup(fs, FlagKey, id).value;
    var fs' := SetFlagStatus(fs, id, st);
    var i :| 0 <= i < |fs| && fs[i] == before;
    assert fs'[i] == before.(status := st);
    forall j | 0 <= j < |fs'| && j != i ensures FlagKey(fs'[j]) != id {
      assert FlagKey(fs[j]) != FlagKey(fs[i]);
    }
    assert fs'[i] in fs';
    var x := Lookup(fs', FlagKey, id).value;
    var k :| 0 <= k < |fs'| && fs'[k] == x;
  }

  /** POST: not a moderator, 401. The body is destructured before the
      handler's try block, so a missing body fails (500); so does an id that
      is not an integer or that names no flag, and nothing changes. The flag
      gets its new status whatever it had before; on "RESOLVE" its post is
      then deleted, and a post that no longer exists fails (500) with the
      flag already updated. The answer is the updated flag. */
  method Decide(db: Db, session: Option<Session>, body: Value) returns (r: Response<FlaggedPost>)
    requires db.Valid()
    modifies db
    ensures db.Valid()
    ensures !IsModerator(session) || !Destructurable(body) ==>
              r == (if IsModerator(session) then Err(Internal) else Err(Unauthorized)) &&
              db.Snapshot() == old(db.Snapshot())
    ensures var id := AsInt(Get(body, "flaggedPostId"));
            IsModerator(session) && Destructurable(body) &&
            (id.None? || Lookup(old(db.flags), FlagKey, id.value).None?) ==>
              r == Err(Internal) && db.Snapshot() == old(db.Snapshot())
    ensures var id := AsInt(Get(body, "flaggedPostId"));
            var action := Get(body, "action");
            IsModerator(session) && Destructurable(body) &&
            id.Some? && Lookup(old(db.flags), FlagKey, id.value).Some? ==>
              var row := Lookup(old(db.flags), FlagKey, id.value).value.(status := Decision(action));
              var flagged := old(db.Snapshot()).(flags := SetFlagStatus(old(db.flags), id.value, Decision(action)));
              if action == Str("RESOLVE") then
                db.Snapshot() == flagged.(posts := Remove(old(db.posts), PostKey, row.postId)) &&
                r == (if Lookup(old(db.posts), PostKey, row.postId).Some? then Ok(200, row) else Err(Internal))
              else
                db.Snapshot() == flagged && r == Ok(200, row)
  {
    if !IsModerator(session) {
      return Err(Unauthorized);
    }
    if !Destructurable(body) {
      return Err(Internal);
    }
    var action := Get(body, "action");
    var id := AsInt(Get(body, "flaggedPostId"));
    if id.None? {
      return Err(Internal);
    }
    SetAbsent(db.flags, [], [], id.value, Decision(action), RequestStatus.PENDING, USER);
    var updated := db.UpdateFlagStatus(id.value, Decision(action));
    if updated.None? {
      return Err(Internal);
    }
    if action == Str("RESOLVE") {
      var deleted := db.DeletePost(updated.value.postId);
      if !deleted {
        return Err(Internal);
      }
    }
    r := Ok(200, updated.value);
  }
}
