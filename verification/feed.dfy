/** `/api/feed` (GET): the caller's friends' posts, newest first, one page at a time. */
module Feed {
  import opened Http
  import opened Rows
  import opened Ordering
  import opened Store

  /** The other party of an ACCEPTED row that involves `me`. */
  predicate AcceptedFriend(f: Friendship, me: int, other: int) {
    f.status == FriendshipStatus.ACCEPTED &&
    ((f.userId == me && f.friendId == other) || (f.friendId == me && f.userId == other))
  }

  /** `friendIds`: for each ACCEPTED row naming the caller on either side,
      the id on the other side (the caller's own id when a row names it twice).
      PENDING and DECLINED rows contribute nothing. */
  function FriendIds(fs: seq<Friendship>, me: int): (r: seq<int>)
    ensures |r| <= |fs|
    ensures forall x :: x in r <==> exists f :: f in fs && AcceptedFriend(f, me, x)
    ensures r == [] <==> forall f :: f in fs ==>
              f.status != FriendshipStatus.ACCEPTED || (f.userId != me && f.friendId != me)
  {
    if fs == [] then []
    else
      var f := fs[0];
      var rest := FriendIds(fs[1..], me);
      assert forall g :: g in fs <==> g == f || g in fs[1..];
      if f.status == FriendshipStatus.ACCEPTED && (f.userId == me || f.friendId == me) then
        var other := if f.userId == me then f.friendId else f.userId;
        assert AcceptedFriend(f, me, other);
        [other] + rest
      else rest
  }

  /** The posts whose author is among `ids`, newest first. */
  function Visible(posts: seq<Post>, ids: seq<int>): (r: seq<Post>)
    ensures forall p :: p in r <==> p in posts && p.userId in ids
    ensures multiset(r) <= multiset(posts)
    ensures OrderedBy(r, PostCreated, Desc)
    ensures ids == [] ==> r == []
  {
    var mine := Filter(posts, (p: Post) => p.userId in ids);
    SortBySameRows(mine, PostCreated, Desc);
    SortBy(mine, PostCreated, Desc)
  }

  /** The feed handler. No session: 401. `page` defaults to 1 and `limit` to
      20; a value that does not parse, or a page that makes the skip or take
      negative, fails the posts query (500). Otherwise: page `page` of the
      posts written by the caller's friends, newest first. */
  function Get(session: Option<Session>, page: Param<int>, limit: Param<int>, t: Tables)
    : (r: Response<seq<Post>>)
    ensures session.None? ==> r == Err(Unauthorized)
    ensures session.Some? ==> r == Err(Internal) || r.Ok?
    ensures r.Ok? ==> r.code == 200 && session.Some? && !page.Unparsable? && !limit.Unparsable?
    ensures r.Ok? ==> Window(Visible(t.posts, FriendIds(t.friendships, session.value.userId)),
                             OrDefault(page, 1).value, OrDefault(limit, 20).value) == Some(r.body)
    ensures r.Ok? <==> session.Some? && !page.Unparsable? && !limit.Unparsable? &&
                       Window(Visible(t.posts, FriendIds(t.friendships, session.value.userId)),
                              OrDefault(page, 1).value, OrDefault(limit, 20).value).Some?
    ensures session.Some? && page.Absent? && limit.Absent? ==> r.Ok?
  {
    if session.None? then Err(Unauthorized)
    else if page.Unparsable? || limit.Unparsable? then Err(Internal)
    else
      var w := Window(Visible(t.posts, FriendIds(t.friendships, session.value.userId)),
                      OrDefault(page, 1).value, OrDefault(limit, 20).value);
      if w.None? then Err(Internal) else Ok(200, w.value)
  }

  /** What a served feed page holds: at most `limit` posts, each written by
      one of the caller's friends, newest first. */
  lemma FeedPage(session: Session, page: Param<int>, limit: Param<int>, t: Tables)
    requires Get(Some(session), page, limit, t).Ok?
    ensures var r := Get(Some(session), page, limit, t).body;
            && |r| <= OrDefault(limit, 20).value
            && OrderedBy(r, PostCreated, Desc)
            && forall p :: p in r ==> p in t.posts && p.userId in FriendIds(t.friendships, session.userId)
  {
    var ids := FriendIds(t.friendships, session.userId);
    var visible := Visible(t.posts, ids);
    var pg, lim := OrDefault(page, 1).value, OrDefault(limit, 20).value;
    WindowOrdered(visible, PostCreated, Desc, pg, lim);
    WindowDrawn(visible, pg, lim);
  }

  /** A caller with no ACCEPTED friendship sees an empty feed. */
  lemma NoFriendsNoFeed(session: Session, page: Param<int>, limit: Param<int>, t: Tables)
    requires forall f :: f in t.friendships ==>
               f.status != FriendshipStatus.ACCEPTED ||
               (f.userId != session.userId && f.friendId != session.userId)
    requires Get(Some(session), page, limit, t).Ok?
    ensures Get(Some(session), page, limit, t).body == []
  {
    FeedPage(session, page, limit, t);
  }
}
