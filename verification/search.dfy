/** `/api/search`: case-insensitive search over birds or posts, one page at
    a time, with pagination metadata. */
module Search {
  import opened Http
  import opened Json
  import opened Rows
  import opened Text
  import opened Store

  datatype Kind = Birds | Posts

  datatype SearchParams = SearchParams(query: string, kind: Kind, page: nat, limit: nat)

  /** `z.number().int().positive()` with a default for a missing value, and
      an optional upper bound. */
  function PositiveInt(v: Value, default: nat, max: Option<nat>): (r: Option<nat>)
    ensures v.Undefined? ==> r == Some(default)
    ensures !v.Undefined? ==>
              (r.Some? <==> v.Num? && v.x == v.x.Floor as real && v.x > 0.0 &&
                            (max.Some? ==> v.x <= max.value as real))
    ensures !v.Undefined? && r.Some? ==> r.value as real == v.x && r.value > 0
  {
    if v.Undefined? then Some(default)
    else match AsInt(v)
      case Some(n) =>
        if n > 0 && (max.None? || n <= max.value) then Some(n) else None
      case None => None
  }

  /** `searchSchema.parse(req.query)`: `query` a string of 1 to 100
      characters, `type` "birds" or "posts", `page` a positive integer
      (default 1), `limit` a positive integer at most 100 (default 10). */
  function ParseParams(q: Value): (r: Option<SearchParams>)
    ensures r.Some? <==>
              && q.Obj?
              && Get(q, "query").Str? && 1 <= |Get(q, "query").s| <= 100
              && Get(q, "type") in {Str("birds"), Str("posts")}
              && PositiveInt(Get(q, "page"), 1, None).Some?
              && PositiveInt(Get(q, "limit"), 10, Some(100)).Some?
    ensures r.Some? ==>
              && r.value.query == Get(q, "query").s
              && (r.value.kind == Birds <==> Get(q, "type") == Str("birds"))
              && 1 <= r.value.page && 1 <= r.value.limit <= 100
              && r.value.page == PositiveInt(Get(q, "page"), 1, None).value
              && r.value.limit == PositiveInt(Get(q, "limit"), 10, Some(100)).value
  {
    if !q.Obj? then None
    else
      var query := Get(q, "query");
      var kind := Get(q, "type");
      var page := PositiveInt(Get(q, "page"), 1, None);
      var limit := PositiveInt(Get(q, "limit"), 10, Some(100));
      if !query.Str? || |query.s| < 1 || |query.s| > 100 then None
      else if kind != Str("birds") && kind != Str("posts") then None
      else if page.None? || limit.None? then None
      else Some(SearchParams(query.s, if kind == Str("birds") then Birds else Posts, page.value, limit.value))
  }

  /** Query-string values arrive as strings, and the schema wants numbers
      for `page` and `limit`: a request that names either one is refused. */
  lemma StringPageRefused(q: Value, s: string, t: string)
    requires q.Obj?
    requires ("page" in q.fields && q.fields["page"] == Str(s)) ||
             ("limit" in q.fields && q.fields["limit"] == Str(t))
    ensures ParseParams(q).None?
  {
  }

  /** A bird matches when its name, species or description contains the
      query, ignoring case. */
  predicate BirdMatches(b: Bird, query: string) {
    ContainsInsensitive(b.name, query) || ContainsInsensitive(b.species, query) ||
    ContainsInsensitive(b.description, query)
  }

  /** A post matches when its description, or its bird's name or species,
      contains the query, ignoring case. A post with no bird matches on its
      description alone. */
  predicate PostMatches(p: Post, birds: seq<Bird>, query: string) {
    ContainsInsensitive(p.description, query) ||
    (p.birdId.Some? && Lookup(birds, BirdKey, p.birdId.value).Some? &&
     var b := Lookup(birds, BirdKey, p.birdId.value).value;
     ContainsInsensitive(b.name, query) || ContainsInsensitive(b.species, query))
  }

  function MatchingBirds(birds: seq<Bird>, query: string): (r: seq<Bird>)
    ensures forall b :: b in r <==> b in birds && BirdMatches(b, query)
    ensures |r| <= |birds|
  {
    Filter(birds, (b: Bird) => BirdMatches(b, query))
  }

  function MatchingPosts(posts: seq<Post>, birds: seq<Bird>, query: string): (r: seq<Post>)
    ensures forall p :: p in r <==> p in posts && PostMatches(p, birds, query)
    ensures |r| <= |posts|
  {
    Filter(posts, (p: Post) => PostMatches(p, birds, query))
  }

  /** `PublicUser`: what other users may see of a user. */
  datatype PublicUser = PublicUser(id: int, username: string, profilePicture: Option<string>, role: Role)

  datatype SafeIcon = SafeIcon(id: int, birdId: int, url: string, verified: bool, uploadedBy: PublicUser)

  /** `SafeBird`: a bird without its `iconId`, with its icon (if any) and the
      icon's uploader as a public user. */
  datatype SafeBird = SafeBird(id: int, name: string, species: string, description: string, icon: Option<SafeIcon>)

  function Public(u: User): (r: PublicUser)
    ensures r.id == u.id && r.username == u.username && r.profilePicture == u.profilePicture && r.role == u.role
  {
    PublicUser(u.id, u.username, u.profilePicture, u.role)
  }

  /** The `birds.map(...)` projection. A bird without an icon gets no icon;
      so does one whose icon or uploader row is missing. */
  function ToSafeBird(b: Bird, t: Tables): (r: SafeBird)
    ensures r.id == b.id && r.name == b.name && r.species == b.species && r.description == b.description
    ensures b.iconId.None? ==> r.icon.None?
    ensures r.icon.Some? ==>
              && b.iconId.Some?
              && var icon := Lookup(t.icons, IconKey, b.iconId.value);
              && icon.Some?
              && r.icon.value.id == icon.value.id == b.iconId.value
              && r.icon.value.birdId == icon.value.birdId
              && r.icon.value.url == icon.value.url
              && r.icon.value.verified == icon.value.verified
              && var uploader := Lookup(t.users, UserKey, icon.value.uploadedById);
              && uploader.Some? && r.icon.value.uploadedBy == Public(uploader.value)
    ensures b.iconId.Some? && Lookup(t.icons, IconKey, b.iconId.value).Some? &&
            Lookup(t.users, UserKey, Lookup(t.icons, IconKey, b.iconId.value).value.uploadedById).Some? ==>
              r.icon.Some?
  {
    var icon :=
      if b.iconId.None? then None
      else match Lookup(t.icons, IconKey, b.iconId.value)
        case None => None
        case Some(i) =>
          match Lookup(t.users, UserKey, i.uploadedById)
          case None => None
          case Some(u) => Some(SafeIcon(i.id, i.birdId, i.url, i.verified, Public(u)));
    SafeBird(b.id, b.name, b.species, b.description, icon)
  }

  function ToSafeBirds(bs: seq<Bird>, t: Tables): (r: seq<SafeBird>)
    ensures |r| == |bs|
    ensures forall i :: 0 <= i < |bs| ==> r[i] == ToSafeBird(bs[i], t)
  {
    if bs == [] then [] else [ToSafeBird(bs[0], t)] + ToSafeBirds(bs[1..], t)
  }

  datatype Pagination = Pagination(currentPage: nat, totalPages: nat, totalItems: nat)

  datatype Results = BirdResults(birds: seq<SafeBird>) | PostResults(posts: seq<Post>)

  datatype Found = Found(results: Results, pagination: Pagination)

  /** `searchBirds` / `searchPosts` and the metadata: skip `(page - 1) *
      limit` matches, take `limit`, count every match with the same
      predicate, and announce `ceil(total / limit)` pages. What the
      results mean is stated by `BirdResultsMatch`, `PostResultsMatch` and
      `EveryMatchOnAnnouncedPage`. */
  function Run(p: SearchParams, t: Tables): (r: Found)
    requires p.page >= 1 && p.limit >= 1
    ensures var total := if p.kind == Birds then |MatchingBirds(t.birds, p.query)|
                         else |MatchingPosts(t.posts, t.birds, p.query)|;
            r.pagination == Pagination(p.page, CeilDiv(total, p.limit), total)
    ensures p.kind == Birds ==>
              r.results.BirdResults? &&
              r.results.birds == ToSafeBirds(SkipTake(MatchingBirds(t.birds, p.query), PageStart(p.page, p.limit), p.limit), t)
    ensures p.kind == Posts ==>
              r.results.PostResults? &&
              r.results.posts == SkipTake(MatchingPosts(t.posts, t.birds, p.query), PageStart(p.page, p.limit), p.limit)
  {
    var skip := PageStart(p.page, p.limit);
    if p.kind == Birds then
      var matches := MatchingBirds(t.birds, p.query);
      Found(BirdResults(ToSafeBirds(SkipTake(matches, skip, p.limit), t)),
            Pagination(p.page, CeilDiv(|matches|, p.limit), |matches|))
    else
      var matches := MatchingPosts(t.posts, t.birds, p.query);
      Found(PostResults(SkipTake(matches, skip, p.limit)),
            Pagination(p.page, CeilDiv(|matches|, p.limit), |matches|))
  }

  /** A page of bird results holds at most `limit` birds, each the
      projection of a bird that matches the query. */
  lemma {:induction false} BirdResultsMatch(p: SearchParams, t: Tables)
    requires p.page >= 1 && p.limit >= 1 && p.kind == Birds
    ensures var birds := Run(p, t).results.birds;
            && |birds| <= p.limit
            && forall b :: b in birds ==>
                 exists x :: x in t.birds && BirdMatches(x, p.query) && b == ToSafeBird(x, t)
  {
    var matches := MatchingBirds(t.birds, p.query);
    var skip := PageStart(p.page, p.limit);
    var window := SkipTake(matches, skip, p.limit);
    var birds := Run(p, t).results.birds;
    assert birds == ToSafeBirds(window, t);
    forall b | b in birds ensures exists x :: x in t.birds && BirdMatches(x, p.query) && b == ToSafeBird(x, t) {
      var i :| 0 <= i < |birds| && birds[i] == b;
      assert window[i] == matches[skip + i];
      assert matches[skip + i] in matches;
    }
  }

  /** A page of post results holds at most `limit` posts, each a post that
      matches the query. */
  lemma {:induction false} PostResultsMatch(p: SearchParams, t: Tables)
    requires p.page >= 1 && p.limit >= 1 && p.kind == Posts
    ensures var posts := Run(p, t).results.posts;
            && |posts| <= p.limit
            && forall x :: x in posts ==> x in t.posts && PostMatches(x, t.birds, p.query)
  {
    var matches := MatchingPosts(t.posts, t.birds, p.query);
    var skip := PageStart(p.page, p.limit);
    var posts := Run(p, t).results.posts;
    assert posts == SkipTake(matches, skip, p.limit);
    forall x | x in posts ensures x in t.posts && PostMatches(x, t.birds, p.query) {
      var i :| 0 <= i < |posts| && posts[i] == x;
      assert matches[skip + i] in matches;
    }
  }

  /** Every matching post shows up on one of the pages the metadata announces. */
  lemma {:induction false} EveryMatchOnAnnouncedPage(p: SearchParams, t: Tables, x: Post)
    requires p.page >= 1 && p.limit >= 1 && p.kind == Posts
    requires x in t.posts && PostMatches(x, t.birds, p.query)
    ensures exists page: nat :: 1 <= page <= Run(p, t).pagination.totalPages &&
              x in Run(p.(page := page), t).results.posts
  {
    var matches := MatchingPosts(t.posts, t.birds, p.query);
    var i :| 0 <= i < |matches| && matches[i] == x;
    var page := PageOf(matches, p.limit, i);
    var q := p.(page := page);
    assert Run(q, t).results.posts == SkipTake(matches, PageStart(page, p.limit), p.limit);
  }

  /** The `/api/search` handler: no session, 401; then any verb but GET,
      405 with `Allow: GET`; then parameters that fail the schema, 400;
      otherwise 200 with the page of results and its metadata. */
  function Handle(session: Option<Session>, verb: Verb, query: Value, t: Tables): (r: Response<Found>)
    ensures session.None? ==> r == Err(Unauthorized)
    ensures session.Some? && verb != GET ==> r == Err(MethodNotAllowed([GET]))
    ensures session.Some? && verb == GET ==>
              match ParseParams(query)
              case None => r == Err(BadRequest)
              case Some(p) => r == Ok(200, Run(p, t))
  {
    if session.None? then Err(Unauthorized)
    else if verb != GET then Err(MethodNotAllowed([GET]))
    else match ParseParams(query)
      case None => Err(BadRequest)
      case Some(p) => Ok(200, Run(p, t))
  }
}
