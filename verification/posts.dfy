/** `/api/posts`: creating a post (POST) and listing all posts, sorted and
    paged (GET). */
module Posts {
  import opened Http
  import opened Json
  import opened Rows
  import opened Ordering
  import opened Store
  import Validation

  /** The bird a new post is filed under: the first bird whose species is
      exactly the post's species (`findFirstOrThrow`). */
  function BirdFor(birds: seq<Bird>, species: string): (r: Option<Bird>)
    ensures r.Some? <==> exists b :: b in birds && b.species == species
    ensures r.Some? ==> r.value in birds && r.value.species == species
    ensures r.Some? ==> exists i :: 0 <= i < |birds| && birds[i] == r.value &&
                          forall j :: 0 <= j < i ==> birds[j].species != species
  {
    FindFirst(birds, (b: Bird) => b.species == species)
  }

  /** A validated post input and the bird it is filed under. */
  datatype Draft = Draft(input: Validation.PostInput, birdId: int)

  /** The checks `handleCreatePost` makes before it inserts: the schema (a
      schema failure is not a `BadRequestError`, so 500), then a bird of that
      species must exist (500 otherwise). */
  function CheckCreate(birds: seq<Bird>, body: Value, isUrl: string -> bool): (r: Checked<Draft>)
    ensures Validation.CreatePost(body, isUrl).None? ==> r == Reject(Internal)
    ensures r.Reject? ==> r.failure == Internal
    ensures r.Accept? <==>
              Validation.CreatePost(body, isUrl).Some? &&
              exists b :: b in birds && b.species == Validation.CreatePost(body, isUrl).value.birdSpecies
    ensures r.Accept? ==>
              && r.value.input == Validation.CreatePost(body, isUrl).value
              && r.value.birdId == BirdFor(birds, r.value.input.birdSpecies).value.id
  {
    match Validation.CreatePost(body, isUrl)
    case None => Reject(Internal)
    case Some(input) =>
      match BirdFor(birds, input.birdSpecies)
      case None => Reject(Internal)
      case Some(b) => Accept(Draft(input, b.id))
  }

  /** The post a draft becomes: written by the caller, with no photos when
      none were given. */
  function NewPost(id: int, caller: int, d: Draft, now: int): (p: Post)
    ensures p.id == id && p.userId == caller && p.birdId == Some(d.birdId)
    ensures p.birdSpecies == d.input.birdSpecies && p.description == d.input.description
    ensures p.latitude == d.input.latitude && p.longitude == d.input.longitude
    ensures p.photos == if d.input.photos.None? then [] else d.input.photos.value
  {
    Post(id, caller, Some(d.birdId), d.input.birdSpecies, d.input.description,
         d.input.latitude, d.input.longitude,
         if d.input.photos.None? then [] else d.input.photos.value, now)
  }

  /** The columns a listing can be ordered by. */
  datatype SortField = ById | ByAuthor | ByCreation

  function PostAuthor(p: Post): int { p.userId }

  function SortKey(f: SortField): Post -> int {
    match f
    case ById => PostKey
    case ByAuthor => PostAuthor
    case ByCreation => PostCreated
  }

  /** `sortBy`, default `createdAt`. A column this model does not order by
      fails (500). */
  function ParseSort(sortBy: Option<string>): (r: Option<SortField>)
    ensures sortBy.None? ==> r == Some(ByCreation)
    ensures r.Some? <==> sortBy in {None, Some("id"), Some("userId"), Some("createdAt")}
    ensures sortBy == Some("id") ==> r == Some(ById)
    ensures sortBy == Some("userId") ==> r == Some(ByAuthor)
    ensures sortBy == Some("createdAt") ==> r == Some(ByCreation)
  {
    match sortBy
    case None => Some(ByCreation)
    case Some(name) =>
      if name == "id" then Some(ById)
      else if name == "userId" then Some(ByAuthor)
      else if name == "createdAt" then Some(ByCreation)
      else None
  }

  /** `order`, default `desc`; Prisma refuses anything but `asc` and `desc` (500). */
  function ParseOrder(order: Option<string>): (r: Option<Direction>)
    ensures r.Some? <==> order in {None, Some("asc"), Some("desc")}
    ensures r == Some(Asc) <==> order == Some("asc")
  {
    match order
    case None => Some(Desc)
    case Some(o) => if o == "asc" then Some(Asc) else if o == "desc" then Some(Desc) else None
  }

  /** `Math.ceil(total / limit)`; for a zero limit JavaScript gives Infinity
      or NaN, both of which serialise as `null` (None). */
  function TotalPages(total: nat, limit: nat): (r: Option<nat>)
    ensures r.None? <==> limit == 0
    ensures r.Some? ==> total <= r.value * limit && (r.value == 0 || (r.value - 1) * limit < total)
  {
    if limit == 0 then None else Some(CeilDiv(total, limit))
  }

  datatype PostPage = PostPage(posts: seq<Post>, totalPages: Option<nat>, currentPage: int)

  /** `handleGetPosts`: `page` 1 and `limit` 10 by default; a value that does
      not parse, a negative skip or take, or an unknown column or direction
      fails (500). Otherwise that page of all posts in the requested order,
      the number of pages and the page number. */
  function List(page: Param<int>, limit: Param<int>, sortBy: Option<string>, order: Option<string>,
                posts: seq<Post>): (r: Response<PostPage>)
    ensures r.Ok? <==>
              && !page.Unparsable? && !limit.Unparsable?
              && ParseSort(sortBy).Some? && ParseOrder(order).Some?
              && Window(posts, OrDefault(page, 1).value, OrDefault(limit, 10).value).Some?
    ensures r.Err? ==> r == Err(Internal)
    ensures r.Ok? ==>
              var pg, lim := OrDefault(page, 1).value, OrDefault(limit, 10).value;
              && r.code == 200
              && Some(r.body.posts) == Window(SortBy(posts, SortKey(ParseSort(sortBy).value), ParseOrder(order).value), pg, lim)
              && r.body.currentPage == pg
              && r.body.totalPages == TotalPages(|posts|, lim)
  {
    if page.Unparsable? || limit.Unparsable? then Err(Internal)
    else
      var pg, lim := OrDefault(page, 1).value, OrDefault(limit, 10).value;
      var field, dir := ParseSort(sortBy), ParseOrder(order);
      if field.None? || dir.None? then Err(Internal)
      else
        var sorted := SortBy(posts, SortKey(field.value), dir.value);
        match Window(sorted, pg, lim)
        case None => Err(Internal)
        case Some(w) =>
          assert lim >= 0;
          Ok(200, PostPage(w, TotalPages(|posts|, lim), pg))
  }

  /** A listed page holds at most `limit` posts, all of them posts, in the
      requested order. */
  lemma ListPage(page: Param<int>, limit: Param<int>, sortBy: Option<string>, order: Option<string>, posts: seq<Post>)
    requires List(page, limit, sortBy, order, posts).Ok?
    ensures var r := List(page, limit, sortBy, order, posts).body.posts;
            && |r| <= OrDefault(limit, 10).value
            && OrderedBy(r, SortKey(ParseSort(sortBy).value), ParseOrder(order).value)
            && forall p :: p in r ==> p in posts
  {
    var key, dir := SortKey(ParseSort(sortBy).value), ParseOrder(order).value;
    var sorted := SortBy(posts, key, dir);
    var pg, lim := OrDefault(page, 1).value, OrDefault(limit, 10).value;
    WindowOrdered(sorted, key, dir, pg, lim);
    WindowDrawn(sorted, pg, lim);
    forall p | p in sorted ensures p in posts {
      assert p in multiset(sorted);
    }
  }

  datatype Reply = Created(post: Post) | Listed(page: PostPage)

  /** The `/api/posts` handler: no session, 401, before anything else; POST
      creates, GET lists; any other verb gets 405 with `Allow: POST, GET`.
      Only a POST that passes its checks writes, and it adds exactly one post. */
  method Handle(db: Db, session: Option<Session>, verb: Verb, body: Value,
                page: Param<int>, limit: Param<int>, sortBy: Option<string>, order: Option<string>,
                isUrl: string -> bool, now: int)
    returns (r: Response<Reply>)
    requires db.Valid()
    modifies db
    ensures db.Valid()
    ensures session.None? ==> r == Err(Unauthorized)
    ensures session.Some? && verb !in {POST, GET} ==> r == Err(MethodNotAllowed([POST, GET]))
    ensures session.Some? && verb == GET ==>
              var l := List(page, limit, sortBy, order, old(db.posts));
              r == if l.Ok? then Ok(200, Listed(l.body)) else Err(l.failure)
    ensures (session.None? || verb != POST) ==> db.Snapshot() == old(db.Snapshot())
    ensures session.Some? && verb == POST ==>
              var c := CheckCreate(old(db.birds), body, isUrl);
              if c.Reject? then
                r == Err(c.failure) && db.Snapshot() == old(db.Snapshot())
              else
                var post := NewPost(old(db.nextId), session.value.userId, c.value, now);
                r == Ok(201, Created(post)) &&
                db.Snapshot() == old(db.Snapshot()).(posts := old(db.posts) + [post])
  {
    if session.None? {
      return Err(Unauthorized);
    }
    match verb
    case POST =>
      var c := CheckCreate(db.birds, body, isUrl);
      if c.Reject? {
        return Err(c.failure);
      }
      var d := c.value;
      var post := db.CreatePost(session.value.userId, Some(d.birdId), d.input.birdSpecies, d.input.description,
                                d.input.latitude, d.input.longitude,
                                if d.input.photos.None? then [] else d.input.photos.value, now);
      r := Ok(201, Created(post));
    case GET =>
      var l := List(page, limit, sortBy, order, db.posts);
      r := if l.Ok? then Ok(200, Listed(l.body)) else Err(l.failure);
    case _ =>
      r := Err(MethodNotAllowed([POST, GET]));
  }
}
