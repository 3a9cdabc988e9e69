/** Vocabulary shared by every route handler: roles, sessions, HTTP verbs,
    the error kinds the handlers answer with (and their status codes), query
    parameters with defaults, and skip/take pagination. */
module Http {

  datatype Option<+T> = None | Some(value: T)

  datatype Role = USER | MODERATOR | ADMIN

  datatype Verb = GET | POST | PUT | PATCH | DELETE | HEAD | OPTIONS

  /** The identity the session provider hands to a handler (`session.user`). */
  datatype Session = Session(userId: int, role: Role)

  /** The error kinds a handler answers with. `MethodNotAllowed` carries the
      verbs listed in the `Allow` header (empty when no header is set). */
  datatype Failure =
    | Unauthorized
    | Forbidden
    | BadRequest
    | NotFound
    | MethodNotAllowed(allow: seq<Verb>)
    | Conflict
    | Internal
  {
    function Code(): int {
      match this
      case Unauthorized => 401
      case Forbidden => 403
      case BadRequest => 400
      case NotFound => 404
      case MethodNotAllowed(_) => 405
      case Conflict => 409
      case Internal => 500
    }
  }

  /** A handler's answer: a success status (200 or 201) with its payload, or a failure. */
  datatype Response<+T> = Ok(code: int, body: T) | Err(failure: Failure)
  {
    function Status(): int {
      match this
      case Ok(code, _) => code
      case Err(f) => f.Code()
    }
  }

  /** The outcome of a handler's checks before it writes: the validated
      input, or the failure to answer with. */
  datatype Checked<+T> = Accept(value: T) | Reject(failure: Failure)

  /** A query-string value after `parseInt`/`parseFloat`: missing, parsed,
      or NaN. Where the handler writes `get(k) || default` an empty value
      also counts as missing; where it destructures `req.query` with a
      default (the `/api/posts` listing) an empty value parses to NaN and
      is `Unparsable`. */
  datatype Param<+T> = Absent | Given(v: T) | Unparsable

  /** `parseX(searchParams.get(k) || default)`: the default when the parameter
      is missing, None when it does not parse. */
  function OrDefault<T>(p: Param<T>, default: T): (r: Option<T>)
    ensures p.Absent? ==> r == Some(default)
    ensures p.Given? ==> r == Some(p.v)
    ensures r.None? <==> p.Unparsable?
  {
    match p
    case Absent => Some(default)
    case Given(v) => Some(v)
    case Unparsable => None
  }

  function Min(a: int, b: int): int { if a <= b then a else b }

  /** Prisma's `skip`/`take` (and SQL's OFFSET/LIMIT) on an ordered result. */
  function SkipTake<T>(s: seq<T>, skip: nat, take: nat): (r: seq<T>)
    ensures |r| == if skip >= |s| then 0 else Min(take, |s| - skip)
    ensures forall i :: 0 <= i < |r| ==> r[i] == s[skip + i]
  {
    if skip >= |s| then [] else s[skip..Min(|s|, skip + take)]
  }

  /** The number of rows page `page` of `limit` items skips. */
  function Offset(page: int, limit: int): int { Times(page - 1, limit) }

  /** `a * b` by repeated addition, so that the solver sees no product
      unless a proof asks for one through `TimesIsProduct`. */
  function Times(a: int, b: int): int
    decreases if a < 0 then -a else a
  {
    if a == 0 then 0
    else if a > 0 then Times(a - 1, b) + b
    else Times(a + 1, b) - b
  }

  lemma {:induction false} TimesIsProduct(a: int, b: int)
    ensures Times(a, b) == a * b
    decreases if a < 0 then -a else a
  {
    if a > 0 {
      TimesIsProduct(a - 1, b);
    } else if a < 0 {
      TimesIsProduct(a + 1, b);
    }
  }

  /** From page 1 on, a page skips no negative number of rows. */
  lemma OffsetNatural(page: int, limit: int)
    requires page >= 1 && limit >= 0
    ensures Offset(page, limit) >= 0
  {
    TimesIsProduct(page - 1, limit);
    MulMonotone(0, page - 1, limit);
  }

  /** The offset of a page numbered from 1, as a natural number. */
  function PageStart(page: int, limit: nat): (n: nat)
    requires page >= 1
    ensures n == Offset(page, limit)
  {
    OffsetNatural(page, limit);
    Offset(page, limit)
  }

  /** Page `page` of `limit` items: skip `Offset(page, limit)`, take `limit`.
      A negative skip or take makes the query fail (None). */
  function Window<T>(s: seq<T>, page: int, limit: int): (r: Option<seq<T>>)
    ensures r.Some? <==> Offset(page, limit) >= 0 && limit >= 0
    ensures r.Some? ==> |r.value| <= limit
    ensures r.Some? ==> |r.value| == if Offset(page, limit) >= |s| then 0 else Min(limit, |s| - Offset(page, limit))
    ensures r.Some? && r.value != [] ==> Offset(page, limit) + |r.value| <= |s|
    ensures r.Some? ==> forall i :: 0 <= i < |r.value| ==> r.value[i] == s[Offset(page, limit) + i]
  {
    var skip := Offset(page, limit);
    if skip >= 0 && limit >= 0 then Some(SkipTake(s, skip, limit)) else None
  }

  /** Every row of a page is a row of the result it was cut from. */
  lemma WindowDrawn<T>(s: seq<T>, page: int, limit: int)
    requires Window(s, page, limit).Some?
    ensures forall x :: x in Window(s, page, limit).value ==> x in s
  {
    var w := Window(s, page, limit).value;
    forall x | x in w ensures x in s {
      var i :| 0 <= i < |w| && w[i] == x;
    }
  }

  /** From page 1 on, a page is the plain skip/take at its start. */
  lemma WindowAtStart<T>(s: seq<T>, page: int, limit: nat)
    requires page >= 1
    ensures Window(s, page, limit) == Some(SkipTake(s, PageStart(page, limit), limit))
  {
  }

  /** `Math.ceil(total / limit)` for a positive limit: the least number of
      pages of `limit` items that hold `total` items. */
  function CeilDiv(total: nat, limit: nat): (r: nat)
    requires limit > 0
    ensures total <= r * limit
    ensures r == 0 || (r - 1) * limit < total
  {
    if total == 0 then 0 else 1 + CeilDiv(if total <= limit then 0 else total - limit, limit)
  }

  /** Every item of a result set of `|s|` items shows up on one of the pages
      `1 .. CeilDiv(|s|, limit)` that the pagination metadata announces. */
  lemma {:induction false} PagesCoverResult<T>(s: seq<T>, limit: nat, i: nat)
    requires limit > 0 && i < |s|
    ensures var page := i / limit + 1;
            1 <= page <= CeilDiv(|s|, limit) &&
            Window(s, page, limit).Some? && s[i] in Window(s, page, limit).value
  {
    var page := i / limit + 1;
    var q := i / limit;
    DivBounds(i, limit);
    TimesIsProduct(page - 1, limit);
    var skip := Offset(page, limit);
    assert skip == q * limit;
    var w := SkipTake(s, skip, limit);
    assert w[i - skip] == s[i];
    var n := CeilDiv(|s|, limit);
    MulCancel(q, n, limit);
  }

  /** The quotient's multiple is the largest multiple of `limit` up to `i`. */
  lemma DivBounds(i: nat, limit: nat)
    requires limit > 0
    ensures (i / limit) * limit <= i < (i / limit) * limit + limit
  {
    assert i == (i / limit) * limit + i % limit;
  }

  /** A strictly smaller multiple has a strictly smaller factor. */
  lemma MulCancel(a: nat, b: nat, c: nat)
    requires a * c < b * c
    ensures a < b
  {
    if b <= a {
      MulMonotone(b, a, c);
    }
  }

  /** The page, numbered from 1 within the announced count, that holds item `i`. */
  lemma PageOf<T>(s: seq<T>, limit: nat, i: nat) returns (page: nat)
    requires limit > 0 && i < |s|
    ensures 1 <= page <= CeilDiv(|s|, limit)
    ensures s[i] in SkipTake(s, PageStart(page, limit), limit)
  {
    page := i / limit + 1;
    PagesCoverResult(s, limit, i);
    WindowAtStart(s, page, limit);
  }

  lemma MulMonotone(a: nat, b: nat, c: nat)
    requires a <= b
    ensures a * c <= b * c
  {
  }
}
