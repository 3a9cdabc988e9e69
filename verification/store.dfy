/** The relational store the handlers talk to through Prisma: one row type
    per table, and a `Db` object holding one sequence of rows per table, in
    storage order. Its methods are the single-row Prisma calls the handlers
    issue (`create`, `update` and `delete` by id); each changes one table and
    nothing else. Keys come from one sequence shared by all tables. */
module Store {
  import opened Http
  import opened Rows

  datatype FriendshipStatus = PENDING | ACCEPTED | DECLINED
  datatype FlagStatus = PENDING | RESOLVED | DISMISSED
  datatype RequestStatus = PENDING | APPROVED | REJECTED

  datatype User = User(
    id: int, username: string, email: string, password: string, role: Role,
    profilePicture: Option<string>, createdAt: int, lastActive: int)

  datatype Bird = Bird(id: int, name: string, species: string, description: string, iconId: Option<int>)

  datatype BirdIcon = BirdIcon(id: int, birdId: int, url: string, verified: bool, uploadedById: int)

  datatype Post = Post(
    id: int, userId: int, birdId: Option<int>, birdSpecies: string, description: string,
    latitude: real, longitude: real, photos: seq<string>, createdAt: int)

  /** `userId` sent the request to `friendId`. */
  datatype Friendship = Friendship(id: int, userId: int, friendId: int, status: FriendshipStatus, createdAt: int)

  /** User `userId` flagged post `postId`. */
  datatype FlaggedPost = FlaggedPost(id: int, postId: int, userId: int, reason: string, status: FlagStatus, createdAt: int)

  datatype ModeratorRequest = ModeratorRequest(
    id: int, userId: int, description: string, qualifications: string, location: string,
    status: RequestStatus, createdAt: int)

  /** A bird-icon submission (`SubmitBirdIcon`). */
  datatype IconSubmission = IconSubmission(id: int, url: string, userId: int, createdAt: int)

  function UserKey(u: User): int { u.id }
  function BirdKey(b: Bird): int { b.id }
  function IconKey(i: BirdIcon): int { i.id }
  function PostKey(p: Post): int { p.id }
  function FriendshipKey(f: Friendship): int { f.id }
  function FlagKey(f: FlaggedPost): int { f.id }
  function RequestKey(r: ModeratorRequest): int { r.id }
  function SubmissionKey(s: IconSubmission): int { s.id }

  function PostCreated(p: Post): int { p.createdAt }
  function FlagCreated(f: FlaggedPost): int { f.createdAt }

  /** The flags with the one whose id is `id` set to `status`; every other
      row and the order stay. */
  function SetFlagStatus(fs: seq<FlaggedPost>, id: int, status: FlagStatus): (r: seq<FlaggedPost>)
    ensures |r| == |fs|
    ensures forall i :: 0 <= i < |fs| ==> r[i] == if fs[i].id == id then fs[i].(status := status) else fs[i]
  {
    Update(fs, FlagKey, id, (x: FlaggedPost) => x.(status := status))
  }

  /** The requests with the one whose id is `id` set to `status`. */
  function SetRequestStatus(rs: seq<ModeratorRequest>, id: int, status: RequestStatus): (r: seq<ModeratorRequest>)
    ensures |r| == |rs|
    ensures forall i :: 0 <= i < |rs| ==> r[i] == if rs[i].id == id then rs[i].(status := status) else rs[i]
  {
    Update(rs, RequestKey, id, (x: ModeratorRequest) => x.(status := status))
  }

  /** The users with the one whose id is `id` given `role`. */
  function SetUserRole(us: seq<User>, id: int, role: Role): (r: seq<User>)
    ensures |r| == |us|
    ensures forall i :: 0 <= i < |us| ==> r[i] == if us[i].id == id then us[i].(role := role) else us[i]
  {
    Update(us, UserKey, id, (x: User) => x.(role := role))
  }

  /** `SetFlagStatus` keeps the keys unique and bounded. */
  lemma SetFlagStatusKeyed(fs: seq<FlaggedPost>, id: int, status: FlagStatus, next: int)
    requires Keyed(fs, FlagKey, next)
    ensures Keyed(SetFlagStatus(fs, id, status), FlagKey, next)
  {
    var r := SetFlagStatus(fs, id, status);
    forall i | 0 <= i < |r| ensures FlagKey(r[i]) == FlagKey(fs[i]) {
    }
  }

  /** `SetRequestStatus` keeps the keys unique and bounded. */
  lemma SetRequestStatusKeyed(rs: seq<ModeratorRequest>, id: int, status: RequestStatus, next: int)
    requires Keyed(rs, RequestKey, next)
    ensures Keyed(SetRequestStatus(rs, id, status), RequestKey, next)
  {
    var r := SetRequestStatus(rs, id, status);
    forall i | 0 <= i < |r| ensures RequestKey(r[i]) == RequestKey(rs[i]) {
    }
  }

  /** `SetUserRole` keeps the keys unique and bounded. */
  lemma SetUserRoleKeyed(us: seq<User>, id: int, role: Role, next: int)
    requires Keyed(us, UserKey, next)
    ensures Keyed(SetUserRole(us, id, role), UserKey, next)
  {
    var r := SetUserRole(us, id, role);
    forall i | 0 <= i < |r| ensures UserKey(r[i]) == UserKey(us[i]) {
    }
  }

  /** Setting a field of a row that is absent changes nothing. */
  lemma SetAbsent(fs: seq<FlaggedPost>, rs: seq<ModeratorRequest>, us: seq<User>, id: int,
                  fst: FlagStatus, rst: RequestStatus, role: Role)
    ensures Lookup(fs, FlagKey, id).None? ==> SetFlagStatus(fs, id, fst) == fs
    ensures Lookup(rs, RequestKey, id).None? ==> SetRequestStatus(rs, id, rst) == rs
    ensures Lookup(us, UserKey, id).None? ==> SetUserRole(us, id, role) == us
  {
    if Lookup(fs, FlagKey, id).None? {
      assert forall i :: 0 <= i < |fs| ==> fs[i].id != id by {
        forall i | 0 <= i < |fs| ensures fs[i].id != id {
          assert FlagKey(fs[i]) == fs[i].id;
        }
      }
    }
    if Lookup(rs, RequestKey, id).None? {
      assert forall i :: 0 <= i < |rs| ==> rs[i].id != id by {
        forall i | 0 <= i < |rs| ensures rs[i].id != id {
          assert RequestKey(rs[i]) == rs[i].id;
        }
      }
    }
    if Lookup(us, UserKey, id).None? {
      assert forall i :: 0 <= i < |us| ==> us[i].id != id by {
        forall i | 0 <= i < |us| ensures us[i].id != id {
          assert UserKey(us[i]) == us[i].id;
        }
      }
    }
  }

  /** The contents of every table at one moment: what the read-only
      handlers compute over. */
  datatype Tables = Tables(
    users: seq<User>, birds: seq<Bird>, icons: seq<BirdIcon>, posts: seq<Post>,
    friendships: seq<Friendship>, flags: seq<FlaggedPost>, requests: seq<ModeratorRequest>,
    submissions: seq<IconSubmission>)

  class Db {
    var users: seq<User>
    var birds: seq<Bird>
    var icons: seq<BirdIcon>
    var posts: seq<Post>
    var friendships: seq<Friendship>
    var flags: seq<FlaggedPost>
    var requests: seq<ModeratorRequest>
    var submissions: seq<IconSubmission>
    var nextId: int

    function Snapshot(): Tables
      reads this
    {
      Tables(users, birds, icons, posts, friendships, flags, requests, submissions)
    }

    /** Primary keys are unique in every table and below the next key. */
    ghost predicate Valid()
      reads this
    {
      && Keyed(users, UserKey, nextId)
      && Keyed(birds, BirdKey, nextId)
      && Keyed(icons, IconKey, nextId)
      && Keyed(posts, PostKey, nextId)
      && Keyed(friendships, FriendshipKey, nextId)
      && Keyed(flags, FlagKey, nextId)
      && Keyed(requests, RequestKey, nextId)
      && Keyed(submissions, SubmissionKey, nextId)
    }

    constructor ()
      ensures Valid()
      ensures Snapshot() == Tables([], [], [], [], [], [], [], [])
    {
      users, birds, icons, posts := [], [], [], [];
      friendships, flags, requests, submissions := [], [], [], [];
      nextId := 1;
    }

    /** `friendship.create({ data: { userId, friendId, status } })`. */
    method CreateFriendship(userId: int, friendId: int, status: FriendshipStatus, now: int)
      returns (row: Friendship)
      requires Valid()
      modifies this
      ensures Valid()
      ensures row == Friendship(old(nextId), userId, friendId, status, now)
      ensures Snapshot() == old(Snapshot()).(friendships := old(friendships) + [row])
      ensures nextId == old(nextId) + 1
    {
      row := Friendship(nextId, userId, friendId, status, now);
      AppendKeyed(friendships, FriendshipKey, row, nextId);
      friendships := friendships + [row];
      nextId := nextId + 1;
    }

    /** `flaggedPost.update({ where: { id }, data: { status } })`: the updated
        row, or None (Prisma throws) when no flag has that id. */
    method UpdateFlagStatus(id: int, status: FlagStatus) returns (row: Option<FlaggedPost>)
      requires Valid()
      modifies this
      ensures Valid() && nextId == old(nextId)
      ensures row.None? <==> Lookup(old(flags), FlagKey, id).None?
      ensures row.Some? ==> row.value == Lookup(old(flags), FlagKey, id).value.(status := status)
      ensures Snapshot() == old(Snapshot()).(flags := SetFlagStatus(old(flags), id, status))
    {
      var found := Lookup(flags, FlagKey, id);
      SetFlagStatusKeyed(flags, id, status, nextId);
      flags := SetFlagStatus(flags, id, status);
      row := if found.Some? then Some(found.value.(status := status)) else None;
    }

    /** `moderatorRequest.update({ where: { id }, data: { status } })`. */
    method UpdateRequestStatus(id: int, status: RequestStatus) returns (row: Option<ModeratorRequest>)
      requires Valid()
      modifies this
      ensures Valid() && nextId == old(nextId)
      ensures row.None? <==> Lookup(old(requests), RequestKey, id).None?
      ensures row.Some? ==> row.value == Lookup(old(requests), RequestKey, id).value.(status := status)
      ensures Snapshot() == old(Snapshot()).(requests := SetRequestStatus(old(requests), id, status))
    {
      var found := Lookup(requests, RequestKey, id);
      SetRequestStatusKeyed(requests, id, status, nextId);
      requests := SetRequestStatus(requests, id, status);
      row := if found.Some? then Some(found.value.(status := status)) else None;
    }

    /** `user.update({ where: { id }, data: { role } })`; false when no user has that id. */
    method UpdateUserRole(id: int, role: Role) returns (ok: bool)
      requires Valid()
      modifies this
      ensures Valid() && nextId == old(nextId)
      ensures ok <==> Lookup(old(users), UserKey, id).Some?
      ensures Snapshot() == old(Snapshot()).(users := SetUserRole(old(users), id, role))
    {
      ok := Lookup(users, UserKey, id).Some?;
      SetUserRoleKeyed(users, id, role, nextId);
      users := SetUserRole(users, id, role);
    }

    /** `birdPost.delete({ where: { id } })`; false (Prisma throws) when no post has that id. */
    method DeletePost(id: int) returns (ok: bool)
      requires Valid()
      modifies this
      ensures Valid() && nextId == old(nextId)
      ensures ok <==> Lookup(old(posts), PostKey, id).Some?
      ensures Snapshot() == old(Snapshot()).(posts := Remove(old(posts), PostKey, id))
      ensures |posts| == if ok then |old(posts)| - 1 else |old(posts)|
    {
      ok := Lookup(posts, PostKey, id).Some?;
      RemoveKeyed(posts, PostKey, id, nextId);
      posts := Remove(posts, PostKey, id);
    }

    /** `user.delete({ where: { id } })`; false (Prisma throws) when no user has that id. */
    method DeleteUser(id: int) returns (ok: bool)
      requires Valid()
      modifies this
      ensures Valid() && nextId == old(nextId)
      ensures ok <==> Lookup(old(users), UserKey, id).Some?
      ensures Snapshot() == old(Snapshot()).(users := Remove(old(users), UserKey, id))
      ensures |users| == if ok then |old(users)| - 1 else |old(users)|
    {
      ok := Lookup(users, UserKey, id).Some?;
      RemoveKeyed(users, UserKey, id, nextId);
      users := Remove(users, UserKey, id);
    }

    /** `moderatorRequest.create(...)`: a new request, PENDING by default. */
    method CreateModeratorRequest(userId: int, description: string, qualifications: string,
                                  location: string, now: int)
      returns (row: ModeratorRequest)
      requires Valid()
      modifies this
      ensures Valid()
      ensures row == ModeratorRequest(old(nextId), userId, description, qualifications, location,
                                      RequestStatus.PENDING, now)
      ensures Snapshot() == old(Snapshot()).(requests := old(requests) + [row])
      ensures nextId == old(nextId) + 1
    {
      row := ModeratorRequest(nextId, userId, description, qualifications, location, RequestStatus.PENDING, now);
      AppendKeyed(requests, RequestKey, row, nextId);
      requests := requests + [row];
      nextId := nextId + 1;
    }

    /** `birdPost.create(...)`. */
    method CreatePost(userId: int, birdId: Option<int>, birdSpecies: string, description: string,
                      latitude: real, longitude: real, photos: seq<string>, now: int)
      returns (row: Post)
      requires Valid()
      modifies this
      ensures Valid()
      ensures row == Post(old(nextId), userId, birdId, birdSpecies, description, latitude, longitude, photos, now)
      ensures Snapshot() == old(Snapshot()).(posts := old(posts) + [row])
      ensures nextId == old(nextId) + 1
    {
      row := Post(nextId, userId, birdId, birdSpecies, description, latitude, longitude, photos, now);
      AppendKeyed(posts, PostKey, row, nextId);
      posts := posts + [row];
      nextId := nextId + 1;
    }

    /** `user.create(...)` with the schema defaults: role USER, no profile
        picture, created and last active now. */
    method CreateUser(username: string, email: string, password: string, now: int)
      returns (row: User)
      requires Valid()
      modifies this
      ensures Valid()
      ensures row == User(old(nextId), username, email, password, USER, None, now, now)
      ensures Snapshot() == old(Snapshot()).(users := old(users) + [row])
      ensures nextId == old(nextId) + 1
    {
      row := User(nextId, username, email, password, USER, None, now, now);
      AppendKeyed(users, UserKey, row, nextId);
      users := users + [row];
      nextId := nextId + 1;
    }

    /** `submitBirdIcon.create({ data: { url, userId } })`. */
    method CreateSubmission(url: string, userId: int, now: int) returns (row: IconSubmission)
      requires Valid()
      modifies this
      ensures Valid()
      ensures row == IconSubmission(old(nextId), url, userId, now)
      ensures Snapshot() == old(Snapshot()).(submissions := old(submissions) + [row])
      ensures nextId == old(nextId) + 1
    {
      row := IconSubmission(nextId, url, userId, now);
      AppendKeyed(submissions, SubmissionKey, row, nextId);
      submissions := submissions + [row];
      nextId := nextId + 1;
    }
  }
}
