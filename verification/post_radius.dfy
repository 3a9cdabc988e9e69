/** `/api/post`: creating a post from the raw body (POST) and listing the
    posts within a radius of a point (GET). The distance is the database's
    `earth_distance`, a parameter here. */
module PostRadius {
  import opened Http
  import opened Json
  import opened Rows
  import opened Ordering
  import opened Store
  import Validation

  /** The strings of a list whose items are all strings. */
  predicate AllStrings(items: seq<Value>) {
    forall i :: 0 <= i < |items| ==> items[i].Str?
  }

  /** The columns the insert writes, as the database accepts them: text
      for the species and the description, numbers for the coordinates, and
      a list of text for the photos (an empty list when missing). Any other
      shape makes the insert fail. No length or range is checked. */
  function Columns(body: Value): (r: Option<Validation.PostInput>)
    ensures r.Some? <==>
              && Get(body, "birdSpecies").Str? && Get(body, "description").Str?
              && Get(body, "latitude").Num? && Get(body, "longitude").Num?
              && (Get(body, "photos").Undefined? ||
                  (Get(body, "photos").Arr? && AllStrings(Get(body, "photos").items)))
    ensures r.Some? ==>
              && r.value.birdSpecies == Get(body, "birdSpecies").s
              && r.value.description == Get(body, "description").s
              && r.value.latitude == Get(body, "latitude").x
              && r.value.longitude == Get(body, "longitude").x
              && (r.value.photos.None? <==> Get(body, "photos").Undefined?)
              && (r.value.photos.Some? ==> r.value.photos.value == Validation.Texts(Get(body, "photos").items))
  {
    var species, description := Get(body, "birdSpecies"), Get(body, "description");
    var lat, lon, photos := Get(body, "latitude"), Get(body, "longitude"), Get(body, "photos");
    if !species.Str? || !description.Str? || !lat.Num? || !lon.Num? then None
    else if photos.Undefined? then Some(Validation.PostInput(species.s, description.s, lat.x, lon.x, None))
    else if photos.Arr? && AllStrings(photos.items) then
      Some(Validation.PostInput(species.s, description.s, lat.x, lon.x, Some(Validation.Texts(photos.items))))
    else None
  }

  /** POST: no session, 401, before the body is read; a body that does not
      destructure, or whose fields the insert refuses, fails (500) and
      nothing is stored; otherwise one post by the caller, with no bird, is
      added and returned (201). */
  method Create(db: Db, session: Option<Session>, body: Value, now: int) returns (r: Response<Post>)
    requires db.Valid()
    modifies db
    ensures db.Valid()
    ensures session.None? ==> r == Err(Unauthorized) && db.Snapshot() == old(db.Snapshot())
    ensures session.Some? && (!Destructurable(body) || Columns(body).None?) ==>
              r == Err(Internal) && db.Snapshot() == old(db.Snapshot())
    ensures session.Some? && Destructurable(body) && Columns(body).Some? ==>
              var c := Columns(body).value;
              var post := Post(old(db.nextId), session.value.userId, None, c.birdSpecies, c.description,
                               c.latitude, c.longitude, if c.photos.None? then [] else c.photos.value, now);
              r == Ok(201, post) && db.Snapshot() == old(db.Snapshot()).(posts := old(db.posts) + [post])
  {
    if session.None? {
      return Err(Unauthorized);
    }
    if !Destructurable(body) {
      return Err(Internal);
    }
    var c := Columns(body);
    if c.None? {
      return Err(Internal);
    }
    var post := db.CreatePost(session.value.userId, None, c.value.birdSpecies, c.value.description,
                              c.value.latitude, c.value.longitude,
                              if c.value.photos.None? then [] else c.value.photos.value, now);
    r := Ok(201, post);
  }

  /** The posts within `radius` kilometres of (`lat`, `lon`), newest first. */
  function Nearby(posts: seq<Post>, lat: real, lon: real, radius: int,
                  dist: (real, real, real, real) -> real): (r: seq<Post>)
    ensures forall p :: p in r <==> p in posts && dist(p.latitude, p.longitude, lat, lon) <= (radius * 1000) as real
    ensures OrderedBy(r, PostCreated, Desc)
    ensures multiset(r) <= multiset(posts)
  {
    var near := Filter(posts, (p: Post) => dist(p.latitude, p.longitude, lat, lon) <= (radius * 1000) as real);
    SortBySameRows(near, PostCreated, Desc);
    SortBy(near, PostCreated, Desc)
  }

  /** GET, open to anyone: `lat` and `lon` default to 0, `radius` (whole
      kilometres) to 100, `page` to 1 and `limit` to 10. A value that does
      not parse, or a negative LIMIT or OFFSET, fails (500). Otherwise that
      page of the posts within the radius, newest first. */
  function Around(lat: Param<real>, lon: Param<real>, radius: Param<int>, page: Param<int>, limit: Param<int>,
                  posts: seq<Post>, dist: (real, real, real, real) -> real): (r: Response<seq<Post>>)
    ensures r.Err? ==> r == Err(Internal)
    ensures r.Ok? <==>
              && !lat.Unparsable? && !lon.Unparsable? && !radius.Unparsable?
              && !page.Unparsable? && !limit.Unparsable?
              && Window(posts, OrDefault(page, 1).value, OrDefault(limit, 10).value).Some?
    ensures r.Ok? ==>
              r.code == 200 &&
              Some(r.body) == Window(Nearby(posts, OrDefault(lat, 0.0).value, OrDefault(lon, 0.0).value,
                                            OrDefault(radius, 100).value, dist),
                                     OrDefault(page, 1).value, OrDefault(limit, 10).value)
  {
    if lat.Unparsable? || lon.Unparsable? || radius.Unparsable? || page.Unparsable? || limit.Unparsable? then
      Err(Internal)
    else
      var near := Nearby(posts, OrDefault(lat, 0.0).value, OrDefault(lon, 0.0).value,
                         OrDefault(radius, 100).value, dist);
      match Window(near, OrDefault(page, 1).value, OrDefault(limit, 10).value)
      case None => Err(Internal)
      case Some(w) => Ok(200, w)
  }

  /** A served page holds at most `limit` posts, each within the radius,
      newest first. */
  lemma AroundPage(lat: Param<real>, lon: Param<real>, radius: Param<int>, page: Param<int>, limit: Param<int>,
                   posts: seq<Post>, dist: (real, real, real, real) -> real)
    requires Around(lat, lon, radius, page, limit, posts, dist).Ok?
    ensures var r := Around(lat, lon, radius, page, limit, posts, dist).body;
            var x, y, km := OrDefault(lat, 0.0).value, OrDefault(lon, 0.0).value, OrDefault(radius, 100).value;
            && |r| <= OrDefault(limit, 10).value
            && OrderedBy(r, PostCreated, Desc)
            && forall p :: p in r ==> p in posts && dist(p.latitude, p.longitude, x, y) <= (km * 1000) as real
  {
    var near := Nearby(posts, OrDefault(lat, 0.0).value, OrDefault(lon, 0.0).value,
                       OrDefault(radius, 100).value, dist);
    var pg, lim := OrDefault(page, 1).value, OrDefault(limit, 10).value;
    WindowOrdered(near, PostCreated, Desc, pg, lim);
    WindowDrawn(near, pg, lim);
  }
}
