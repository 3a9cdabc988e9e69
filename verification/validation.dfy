/** The request-body schemas (`createPostSchema`, `registerUserSchema`,
    `moderatorRequestSchema`) as parsers from a JSON value to a typed
    record: each accepts exactly when the value is an object and every field
    meets its constraint, and then returns the field values. Keys the schema
    does not name are dropped. The URL and e-mail format checks are
    parameters. */
module Validation {
  import opened Http
  import opened Json

  /** `z.string().min(lo).max(hi)`. */
  function Text(v: Value, lo: nat, hi: nat): (r: Option<string>)
    ensures r.Some? <==> v.Str? && lo <= |v.s| <= hi
    ensures r.Some? ==> r.value == v.s
  {
    if v.Str? && lo <= |v.s| && |v.s| <= hi then Some(v.s) else None
  }

  /** `z.string().min(lo)` with no upper bound. */
  function LongText(v: Value, lo: nat): (r: Option<string>)
    ensures r.Some? <==> v.Str? && lo <= |v.s|
    ensures r.Some? ==> r.value == v.s
  {
    if v.Str? && lo <= |v.s| then Some(v.s) else None
  }

  /** `z.string().email()` (the format check is `isEmail`). */
  function Email(v: Value, isEmail: string -> bool): (r: Option<string>)
    ensures r.Some? <==> v.Str? && isEmail(v.s)
    ensures r.Some? ==> r.value == v.s
  {
    if v.Str? && isEmail(v.s) then Some(v.s) else None
  }

  /** `z.number().min(lo).max(hi)`, both bounds inclusive. */
  function Number(v: Value, lo: real, hi: real): (r: Option<real>)
    ensures r.Some? <==> v.Num? && lo <= v.x <= hi
    ensures r.Some? ==> r.value == v.x
  {
    if v.Num? && lo <= v.x && v.x <= hi then Some(v.x) else None
  }

  /** The strings held by a list of string values. */
  function Texts(items: seq<Value>): (r: seq<string>)
    requires forall i :: 0 <= i < |items| ==> items[i].Str?
    ensures |r| == |items|
    ensures forall i :: 0 <= i < |items| ==> r[i] == items[i].s
  {
    if items == [] then [] else [items[0].s] + Texts(items[1..])
  }

  /** Every item is a string that passes `isUrl`. */
  predicate AllUrls(items: seq<Value>, isUrl: string -> bool) {
    forall i :: 0 <= i < |items| ==> items[i].Str? && isUrl(items[i].s)
  }

  /** `z.array(z.string().url()).optional()`: a missing field gives None; a
      present one must be an array of URL strings. `null` is not missing. */
  function Urls(v: Value, isUrl: string -> bool): (r: Option<Option<seq<string>>>)
    ensures r.Some? <==> v.Undefined? || (v.Arr? && AllUrls(v.items, isUrl))
    ensures r == Some(None) <==> v.Undefined?
    ensures r.Some? && r.value.Some? ==>
              |r.value.value| == |v.items| &&
              forall i :: 0 <= i < |v.items| ==> r.value.value[i] == v.items[i].s && isUrl(r.value.value[i])
  {
    if v.Undefined? then Some(None)
    else if v.Arr? && AllUrls(v.items, isUrl) then Some(Some(Texts(v.items)))
    else None
  }

  datatype PostInput = PostInput(
    birdSpecies: string, description: string, latitude: real, longitude: real,
    photos: Option<seq<string>>)

  /** `createPostSchema.parse`. */
  function CreatePost(v: Value, isUrl: string -> bool): (r: Option<PostInput>)
    ensures r.Some? <==>
              && v.Obj?
              && Get(v, "birdSpecies").Str? && 1 <= |Get(v, "birdSpecies").s| <= 100
              && Get(v, "description").Str? && 1 <= |Get(v, "description").s| <= 1000
              && Get(v, "latitude").Num? && -90.0 <= Get(v, "latitude").x <= 90.0
              && Get(v, "longitude").Num? && -180.0 <= Get(v, "longitude").x <= 180.0
              && (Get(v, "photos").Undefined? ||
                  (Get(v, "photos").Arr? && AllUrls(Get(v, "photos").items, isUrl)))
    ensures r.Some? ==>
              && r.value.birdSpecies == Get(v, "birdSpecies").s
              && r.value.description == Get(v, "description").s
              && r.value.latitude == Get(v, "latitude").x
              && r.value.longitude == Get(v, "longitude").x
              && (r.value.photos.None? <==> Get(v, "photos").Undefined?)
              && (r.value.photos.Some? ==>
                    && Get(v, "photos").Arr? && AllUrls(Get(v, "photos").items, isUrl)
                    && r.value.photos.value == Texts(Get(v, "photos").items))
  {
    if !v.Obj? then None
    else
      var species := Text(Get(v, "birdSpecies"), 1, 100);
      var description := Text(Get(v, "description"), 1, 1000);
      var latitude := Number(Get(v, "latitude"), -90.0, 90.0);
      var longitude := Number(Get(v, "longitude"), -180.0, 180.0);
      var photos := Urls(Get(v, "photos"), isUrl);
      if species.None? || description.None? || latitude.None? || longitude.None? || photos.None? then None
      else Some(PostInput(species.value, description.value, latitude.value, longitude.value, photos.value))
  }

  /** A post input meets every field constraint of `createPostSchema`. */
  predicate ValidPost(p: PostInput, isUrl: string -> bool) {
    && 1 <= |p.birdSpecies| <= 100
    && 1 <= |p.description| <= 1000
    && -90.0 <= p.latitude <= 90.0
    && -180.0 <= p.longitude <= 180.0
    && (p.photos.Some? ==> forall i :: 0 <= i < |p.photos.value| ==> isUrl(p.photos.value[i]))
  }

  function StrList(xs: seq<string>): (r: seq<Value>)
    ensures |r| == |xs|
    ensures forall i :: 0 <= i < |xs| ==> r[i] == Str(xs[i])
  {
    if xs == [] then [] else [Str(xs[0])] + StrList(xs[1..])
  }

  /** The JSON object a client sends for a post input. */
  function EncodePost(p: PostInput): Value {
    var fields := map["birdSpecies" := Str(p.birdSpecies), "description" := Str(p.description),
                      "latitude" := Num(p.latitude), "longitude" := Num(p.longitude)];
    if p.photos.None? then Obj(fields) else Obj(fields["photos" := Arr(StrList(p.photos.value))])
  }

  /** Parsing what a client encodes gives the input back exactly when the
      input meets the schema. */
  lemma {:induction false} CreatePostRoundTrip(p: PostInput, isUrl: string -> bool)
    ensures CreatePost(EncodePost(p), isUrl) == Some(p) <==> ValidPost(p, isUrl)
  {
    var v := EncodePost(p);
    if p.photos.Some? {
      var items := StrList(p.photos.value);
      assert Get(v, "photos") == Arr(items);
      assert Texts(items) == p.photos.value;
      if ValidPost(p, isUrl) {
        assert AllUrls(items, isUrl);
      }
    } else {
      assert Get(v, "photos") == Undefined;
    }
  }

  datatype Registration = Registration(username: string, email: string, password: string)

  /** `registerUserSchema.parse`. */
  function RegisterUser(v: Value, isEmail: string -> bool): (r: Option<Registration>)
    ensures r.Some? <==>
              && v.Obj?
              && Get(v, "username").Str? && 3 <= |Get(v, "username").s| <= 30
              && Get(v, "email").Str? && isEmail(Get(v, "email").s)
              && Get(v, "password").Str? && 8 <= |Get(v, "password").s|
    ensures r.Some? ==> r.value == Registration(Get(v, "username").s, Get(v, "email").s, Get(v, "password").s)
  {
    if !v.Obj? then None
    else
      var username := Text(Get(v, "username"), 3, 30);
      var email := Email(Get(v, "email"), isEmail);
      var password := LongText(Get(v, "password"), 8);
      if username.None? || email.None? || password.None? then None
      else Some(Registration(username.value, email.value, password.value))
  }

  datatype RequestInput = RequestInput(description: string, qualifications: string, location: string)

  /** `moderatorRequestSchema.parse`. */
  function ModeratorRequest(v: Value): (r: Option<RequestInput>)
    ensures r.Some? <==>
              && v.Obj?
              && Get(v, "description").Str? && 10 <= |Get(v, "description").s| <= 500
              && Get(v, "qualifications").Str? && 10 <= |Get(v, "qualifications").s| <= 500
              && Get(v, "location").Str? && 2 <= |Get(v, "location").s| <= 100
    ensures r.Some? ==>
              r.value == RequestInput(Get(v, "description").s, Get(v, "qualifications").s, Get(v, "location").s)
  {
    if !v.Obj? then None
    else
      var description := Text(Get(v, "description"), 10, 500);
      var qualifications := Text(Get(v, "qualifications"), 10, 500);
      var location := Text(Get(v, "location"), 2, 100);
      if description.None? || qualifications.None? || location.None? then None
      else Some(RequestInput(description.value, qualifications.value, location.value))
  }
}
