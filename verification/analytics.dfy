/** `/api/admin/analytics`: counts of users, posts and pending flags, the
    accounts and posts created in the last week, and the five birds and the
    five users with the most posts. Reads only. */
module Analytics {
  import opened Http
  import opened Rows
  import opened Ordering
  import opened Store

  /** Seven days in milliseconds. */
  const WeekMs: int := 7 * 24 * 60 * 60 * 1000

  function UserSince(cutoff: int): User -> bool {
    (u: User) => u.createdAt >= cutoff
  }

  function PostSince(cutoff: int): Post -> bool {
    (p: Post) => p.createdAt >= cutoff
  }

  predicate FlagPending(f: FlaggedPost) {
    f.status == FlagStatus.PENDING
  }

  /** `_count.birdPosts`: the posts filed under the bird. */
  function PostsOfBird(posts: seq<Post>, id: int): (n: nat)
    ensures n <= |posts|
    ensures n == 0 <==> forall p :: p in posts ==> p.birdId != Some(id)
  {
    |Filter(posts, (p: Post) => p.birdId == Some(id))|
  }

  /** `_count.posts`: the posts the user wrote. */
  function PostsOfUser(posts: seq<Post>, id: int): (n: nat)
    ensures n <= |posts|
    ensures n == 0 <==> forall p :: p in posts ==> p.userId != id
  {
    |Filter(posts, (p: Post) => p.userId == id)|
  }

  function BirdPopularity(posts: seq<Post>): Bird -> int {
    (b: Bird) => PostsOfBird(posts, b.id)
  }

  function UserActivity(posts: seq<Post>): User -> int {
    (u: User) => PostsOfUser(posts, u.id)
  }

  datatype BirdStat = BirdStat(id: int, name: string, species: string, postCount: nat)
  datatype PosterStat = PosterStat(id: int, username: string, postCount: nat)

  function BirdStats(bs: seq<Bird>, posts: seq<Post>): (r: seq<BirdStat>)
    ensures |r| == |bs|
    ensures forall i :: 0 <= i < |bs| ==>
              r[i] == BirdStat(bs[i].id, bs[i].name, bs[i].species, PostsOfBird(posts, bs[i].id))
  {
    if bs == [] then []
    else [BirdStat(bs[0].id, bs[0].name, bs[0].species, PostsOfBird(posts, bs[0].id))] + BirdStats(bs[1..], posts)
  }

  function PosterStats(us: seq<User>, posts: seq<Post>): (r: seq<PosterStat>)
    ensures |r| == |us|
    ensures forall i :: 0 <= i < |us| ==> r[i] == PosterStat(us[i].id, us[i].username, PostsOfUser(posts, us[i].id))
  {
    if us == [] then []
    else [PosterStat(us[0].id, us[0].username, PostsOfUser(posts, us[0].id))] + PosterStats(us[1..], posts)
  }

  /** Stats of rows in descending order of post count are in descending
      order of `postCount`. */
  lemma BirdStatsOrdered(top: seq<Bird>, posts: seq<Post>)
    requires OrderedBy(top, BirdPopularity(posts), Desc)
    ensures var r := BirdStats(top, posts);
            forall i, j :: 0 <= i < j < |r| ==> r[i].postCount >= r[j].postCount
  {
    var r := BirdStats(top, posts);
    forall i, j | 0 <= i < j < |r| ensures r[i].postCount >= r[j].postCount {
      assert InOrder(BirdPopularity(posts)(top[i]), BirdPopularity(posts)(top[j]), Desc);
    }
  }

  /** Rows whose post counts are all at least `n` have stats whose
      `postCount` is at least `n`. */
  lemma BirdStatsAtLeast(top: seq<Bird>, posts: seq<Post>, n: int)
    requires forall z :: z in top ==> BirdPopularity(posts)(z) >= n
    ensures forall s :: s in BirdStats(top, posts) ==> s.postCount >= n
  {
    var r := BirdStats(top, posts);
    forall s | s in r ensures s.postCount >= n {
      var i :| 0 <= i < |r| && r[i] == s;
      assert top[i] in top;
    }
  }

  /** What is left of a draw after its first row is drawn from what is left
      of the table after that row. */
  lemma DrawnRest<T>(rest: seq<T>, tableRest: seq<T>, x: T, table: multiset<T>)
    requires multiset([x] + rest) <= table
    requires table == multiset(tableRest) + multiset{x}
    ensures multiset(rest) <= multiset(tableRest)
  {
    assert multiset([x] + rest) == multiset(rest) + multiset{x};
    forall y ensures multiset(rest)[y] <= multiset(tableRest)[y] {
      assert (multiset(rest) + multiset{x})[y] <= table[y];
    }
  }

  lemma {:induction false} BirdStatsAppend(a: seq<Bird>, b: seq<Bird>, posts: seq<Post>)
    ensures BirdStats(a + b, posts) == BirdStats(a, posts) + BirdStats(b, posts)
  {
    var l, r := BirdStats(a + b, posts), BirdStats(a, posts) + BirdStats(b, posts);
    assert |l| == |r|;
    forall i | 0 <= i < |l| ensures l[i] == r[i] {
      if i >= |a| {
        assert (a + b)[i] == b[i - |a|];
      }
    }
  }

  /** Taking one row out of a table takes its stat out of the table's stats. */
  lemma BirdStatsWithout(birds: seq<Bird>, j: nat, posts: seq<Post>)
    requires j < |birds|
    ensures var x := birds[j];
            multiset(BirdStats(birds, posts)) ==
              multiset(BirdStats(birds[..j] + birds[j + 1..], posts)) + multiset{BirdStat(x.id, x.name, x.species, PostsOfBird(posts, x.id))}
  {
    var before, after := birds[..j], birds[j + 1..];
    assert birds == before + ([birds[j]] + after);
    BirdStatsAppend(before, [birds[j]] + after, posts);
    BirdStatsAppend([birds[j]], after, posts);
    BirdStatsAppend(before, after, posts);
  }

  /** Stats of rows drawn from a table, each row at most as often as the
      table holds it, are drawn from that table's stats in the same way. */
  lemma {:induction false} BirdStatsDrawn(top: seq<Bird>, birds: seq<Bird>, posts: seq<Post>)
    requires multiset(top) <= multiset(birds)
    ensures multiset(BirdStats(top, posts)) <= multiset(BirdStats(birds, posts))
    decreases |top|
  {
    if top != [] {
      var x := top[0];
      assert x in multiset(birds);
      var j :| 0 <= j < |birds| && birds[j] == x;
      var rest := birds[..j] + birds[j + 1..];
      assert birds == birds[..j] + [x] + birds[j + 1..];
      assert top == [x] + top[1..];
      DrawnRest(top[1..], rest, x, multiset(birds));
      BirdStatsDrawn(top[1..], rest, posts);
      BirdStatsWithout(birds, j, posts);
      BirdStatsAppend([x], top[1..], posts);
    }
  }

  /** `topBirds`: the five birds with the most posts, each with its post
      count, most posts first. */
  function TopBirds(birds: seq<Bird>, posts: seq<Post>): (r: seq<BirdStat>)
    ensures |r| == Min(5, |birds|)
    ensures multiset(r) <= multiset(BirdStats(birds, posts))
    ensures forall s :: s in r ==> s in BirdStats(birds, posts)
    ensures forall i, j :: 0 <= i < j < |r| ==> r[i].postCount >= r[j].postCount
  {
    var top := Top(birds, BirdPopularity(posts), 5);
    BirdStatsOrdered(top, posts);
    var r := BirdStats(top, posts);
    BirdStatsDrawn(top, birds, posts);
    assert forall s :: s in r ==> s in BirdStats(birds, posts) by {
      forall s | s in r ensures s in BirdStats(birds, posts) {
        assert s in multiset(r);
      }
    }
    r
  }

  /** Stats of rows in descending order of post count are in descending
      order of `postCount`. */
  lemma PosterStatsOrdered(top: seq<User>, posts: seq<Post>)
    requires OrderedBy(top, UserActivity(posts), Desc)
    ensures var r := PosterStats(top, posts);
            forall i, j :: 0 <= i < j < |r| ==> r[i].postCount >= r[j].postCount
  {
    var r := PosterStats(top, posts);
    forall i, j | 0 <= i < j < |r| ensures r[i].postCount >= r[j].postCount {
      assert InOrder(UserActivity(posts)(top[i]), UserActivity(posts)(top[j]), Desc);
    }
  }

  /** Rows whose post counts are all at least `n` have stats whose
      `postCount` is at least `n`. */
  lemma PosterStatsAtLeast(top: seq<User>, posts: seq<Post>, n: int)
    requires forall z :: z in top ==> UserActivity(posts)(z) >= n
    ensures forall s :: s in PosterStats(top, posts) ==> s.postCount >= n
  {
    var r := PosterStats(top, posts);
    forall s | s in r ensures s.postCount >= n {
      var i :| 0 <= i < |r| && r[i] == s;
      assert top[i] in top;
    }
  }

  lemma {:induction false} PosterStatsAppend(a: seq<User>, b: seq<User>, posts: seq<Post>)
    ensures PosterStats(a + b, posts) == PosterStats(a, posts) + PosterStats(b, posts)
  {
    var l, r := PosterStats(a + b, posts), PosterStats(a, posts) + PosterStats(b, posts);
    assert |l| == |r|;
    forall i | 0 <= i < |l| ensures l[i] == r[i] {
      if i >= |a| {
        assert (a + b)[i] == b[i - |a|];
      }
    }
  }

  /** Taking one row out of a table takes its stat out of the table's stats. */
  lemma PosterStatsWithout(users: seq<User>, j: nat, posts: seq<Post>)
    requires j < |users|
    ensures var x := users[j];
            multiset(PosterStats(users, posts)) ==
              multiset(PosterStats(users[..j] + users[j + 1..], posts)) + multiset{PosterStat(x.id, x.username, PostsOfUser(posts, x.id))}
  {
    var before, after := users[..j], users[j + 1..];
    assert users == before + ([users[j]] + after);
    PosterStatsAppend(before, [users[j]] + after, posts);
    PosterStatsAppend([users[j]], after, posts);
    PosterStatsAppend(before, after, posts);
  }

  /** Stats of rows drawn from a table, each row at most as often as the
      table holds it, are drawn from that table's stats in the same way. */
  lemma {:induction false} PosterStatsDrawn(top: seq<User>, users: seq<User>, posts: seq<Post>)
    requires multiset(top) <= multiset(users)
    ensures multiset(PosterStats(top, posts)) <= multiset(PosterStats(users, posts))
    decreases |top|
  {
    if top != [] {
      var x := top[0];
      assert x in multiset(users);
      var j :| 0 <= j < |users| && users[j] == x;
      var rest := users[..j] + users[j + 1..];
      assert users == users[..j] + [x] + users[j + 1..];
      assert top == [x] + top[1..];
      DrawnRest(top[1..], rest, x, multiset(users));
      PosterStatsDrawn(top[1..], rest, posts);
      PosterStatsWithout(users, j, posts);
      PosterStatsAppend([x], top[1..], posts);
    }
  }

  /** `topPosters`: the five users with the most posts, each with its post
      count, most posts first. */
  function TopPosters(users: seq<User>, posts: seq<Post>): (r: seq<PosterStat>)
    ensures |r| == Min(5, |users|)
    ensures multiset(r) <= multiset(PosterStats(users, posts))
    ensures forall s :: s in r ==> s in PosterStats(users, posts)
    ensures forall i, j :: 0 <= i < j < |r| ==> r[i].postCount >= r[j].postCount
  {
    var top := Top(users, UserActivity(posts), 5);
    PosterStatsOrdered(top, posts);
    var r := PosterStats(top, posts);
    PosterStatsDrawn(top, users, posts);
    assert forall s :: s in r ==> s in PosterStats(users, posts) by {
      forall s | s in r ensures s in PosterStats(users, posts) {
        assert s in multiset(r);
      }
    }
    r
  }

  /** No bird left out of `topBirds` has more posts than a bird in it, and a
      bird is left out only when five are listed. */
  lemma {:induction false} TopBirdsOutrank(birds: seq<Bird>, posts: seq<Post>, b: Bird)
    requires b in birds
    requires forall s :: s in TopBirds(birds, posts) ==> s.id != b.id
    ensures |TopBirds(birds, posts)| == 5
    ensures forall s :: s in TopBirds(birds, posts) ==> s.postCount >= PostsOfBird(posts, b.id)
  {
    var top := Top(birds, BirdPopularity(posts), 5);
    var stats := TopBirds(birds, posts);
    assert stats == BirdStats(top, posts);
    assert b !in top by {
      forall i | 0 <= i < |top| ensures top[i] != b {
        assert stats[i] in stats;
      }
    }
    TopIsTop(birds, BirdPopularity(posts), 5, b);
    BirdStatsAtLeast(top, posts, BirdPopularity(posts)(b));
  }

  /** No user left out of `topPosters` wrote more posts than a user in it,
      and a user is left out only when five are listed. */
  lemma {:induction false} TopPostersOutrank(users: seq<User>, posts: seq<Post>, u: User)
    requires u in users
    requires forall s :: s in TopPosters(users, posts) ==> s.id != u.id
    ensures |TopPosters(users, posts)| == 5
    ensures forall s :: s in TopPosters(users, posts) ==> s.postCount >= PostsOfUser(posts, u.id)
  {
    var top := Top(users, UserActivity(posts), 5);
    var stats := TopPosters(users, posts);
    assert stats == PosterStats(top, posts);
    assert u !in top by {
      forall i | 0 <= i < |top| ensures top[i] != u {
        assert stats[i] in stats;
      }
    }
    TopIsTop(users, UserActivity(posts), 5, u);
    PosterStatsAtLeast(top, posts, UserActivity(posts)(u));
  }

  datatype Report = Report(
    totalUsers: nat, newUsersLastWeek: nat,
    totalPosts: nat, newPostsLastWeek: nat,
    topBirds: seq<BirdStat>, topPosters: seq<PosterStat>,
    pendingFlaggedPosts: nat)

  /** `getAnalytics` at time `now`: the totals, the rows created at or after
      one week before `now`, the pending flags and the two top-five lists. */
  function Collect(t: Tables, now: int): (r: Report)
    ensures r.totalUsers == |t.users| && r.totalPosts == |t.posts|
    ensures r.newUsersLastWeek == |Filter(t.users, UserSince(now - WeekMs))| <= |t.users|
    ensures r.newPostsLastWeek == |Filter(t.posts, PostSince(now - WeekMs))| <= |t.posts|
    ensures r.pendingFlaggedPosts == |Filter(t.flags, FlagPending)| <= |t.flags|
    ensures r.topBirds == TopBirds(t.birds, t.posts) && r.topPosters == TopPosters(t.users, t.posts)
  {
    Report(|t.users|, |Filter(t.users, UserSince(now - WeekMs))|,
           |t.posts|, |Filter(t.posts, PostSince(now - WeekMs))|,
           TopBirds(t.birds, t.posts), TopPosters(t.users, t.posts), |Filter(t.flags, FlagPending)|)
  }

  /** The handler: no session, 401; not an administrator, 403; then any verb
      but GET, 405 with `Allow: GET`; otherwise the report (200). */
  function Get(session: Option<Session>, verb: Verb, t: Tables, now: int): (r: Response<Report>)
    ensures session.None? ==> r == Err(Unauthorized)
    ensures session.Some? && session.value.role != ADMIN ==> r == Err(Forbidden)
    ensures session.Some? && session.value.role == ADMIN && verb != GET ==> r == Err(MethodNotAllowed([GET]))
    ensures r.Ok? <==> session.Some? && session.value.role == ADMIN && verb == GET
    ensures r.Ok? ==> r == Ok(200, Collect(t, now))
  {
    if session.None? then Err(Unauthorized)
    else if session.value.role != ADMIN then Err(Forbidden)
    else if verb != GET then Err(MethodNotAllowed([GET]))
    else Ok(200, Collect(t, now))
  }
}
