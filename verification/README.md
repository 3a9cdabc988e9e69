# BirdWatch route handlers in Dafny

BirdWatch is a bird-spotting social site. Its server is a set of HTTP route
handlers over a relational store. The store holds users, birds and their
icons, posts, friendships, flagged posts, moderator requests and bird-icon
submissions. This project models those handlers and proves what each one
answers and what it leaves in the store:

- friend requests and the friendship listing (`/api/friends`);
- the friends-only feed (`/api/feed`);
- the moderation queue and flag decisions (`/api/moderation`);
- the administrator's listings and actions (`/api/admin`);
- moderator requests (`/api/moderator-requests`);
- the request-body schemas (`createPostSchema`, `registerUserSchema`,
  `moderatorRequestSchema`);
- search over birds and posts (`/api/search`);
- post creation and the sorted listing (`/api/posts`);
- post creation from the raw body and the radius query (`/api/post`);
- the map query and its species clause (`/api/posts/map`);
- bird-icon submissions (`/api/bird-icons`);
- the administrator's analytics (`/api/admin/analytics`);
- registration (`/api/auth/register`).

A handler answers `Ok(code, body)` with a success status (200 or 201), or
`Err(failure)`. A failure is one of Unauthorized (401), Forbidden (403),
BadRequest (400), NotFound (404), MethodNotAllowed (405, with the verbs of the
`Allow` header), Conflict (409) or Internal (500). A thrown error that is not
one of the application's own error classes (a schema failure, a Prisma error,
a `TypeError`) becomes Internal, as the handlers' `catch` blocks decide.

The store is the class `Store.Db`. It holds one sequence of rows per table,
in storage order, and its methods are the single-row Prisma calls
(`create`, `update`, `delete` by id). Each method changes one table and
nothing else, and keeps primary keys unique (`Db.Valid`). Handlers that write
are methods over a `Db`. Each one states the full new store as a function of
the old one, and the invariants it keeps:
- one friendship row per pair of users;
- one moderator request per user;
- unique e-mail addresses and usernames.

Handlers that only read are functions over a `Tables` snapshot.

Everything the code calls but does not define is a parameter:
- the geodistance (PostgreSQL `earth_distance`);
- the password hash (`bcrypt.hash`);
- the file upload (`uploadFile`);
- zod's URL and e-mail checks;
- the database's evaluation of the raw species clause;
- the current time (`Date.now()`, in milliseconds).

A query-string number after `parseInt`/`parseFloat` is a `Param`: absent,
given, or unparsable (NaN). A JSON body is a `Json.Value`.

## Model

| member | source | states |
|---|---|---|
| `Http.OrDefault` | src/app/api/feed/route.ts:18-19 | a missing parameter takes its default, a given one its value, and only an unparsable (NaN) one yields nothing |
| `Http.Window` | src/app/api/feed/route.ts:54-55 | `skip: (page - 1) * limit, take: limit` succeeds exactly when skip and take are non-negative, holds exactly `min(limit, n - skip)` rows of an `n`-row result (none when the skip reaches past the end), and its i-th row is row `(page - 1) * limit + i` of the ordered result |
| `Http.CeilDiv` | src/app/api/search/route.ts:48 | `Math.ceil(total / limit)` is the least page count whose pages of `limit` hold `total` items |
| `Http.PagesCoverResult` | src/app/api/search/route.ts:44-50 | every item of a result lies on a page between 1 and the announced `totalPages` |
| `Rows.Filter` | src/app/api/admin/route.ts:34-40 | `findMany({ where })` keeps exactly the rows satisfying the condition, each as often as it occurs, and is empty iff no row satisfies it |
| `Rows.FindFirst` | src/app/api/posts/route.ts:37 | `findFirst` finds a row iff one satisfies the condition, and it is the first such row in storage order |
| `Rows.Lookup` | src/app/api/admin/route.ts:97 | the row with a given primary key is found iff one exists, and it carries that key |
| `Rows.Remove` | src/app/api/admin/route.ts:127 | `delete({ where: { id } })` leaves exactly the rows with another key |
| `Rows.RemoveKeyed` | src/app/api/admin/route.ts:97 | a delete keeps keys unique and removes exactly one row when the key is present, none otherwise |
| `Rows.Update` | src/app/api/moderation/route.ts:45-48 | `update({ where: { id } })` changes only the row with that key and keeps the order and length |
| `Rows.AppendKeyed` | src/app/api/friends/route.ts:53-58 | inserting a row with the next key keeps keys unique |
| `Ordering.SortBy` | src/app/api/posts/route.ts:74 | `orderBy: { field: order }` yields the same rows (as a multiset), ordered on the key in the given direction |
| `Ordering.Top` | src/app/api/admin/analytics/route.ts:57-63 | `take: k` after a descending order yields `min(k, n)` rows drawn from the table, in descending order of key |
| `Ordering.TopIsTop` | src/app/api/admin/analytics/route.ts:57-63 | a row left out of the top `k` means `k` rows were kept, each with a key at least as large as that row's |
| `Text.IndexOf` | src/app/api/search/route.ts:65 | the first position at which a substring occurs, or none iff it occurs nowhere |
| `Text.InsensitiveIgnoresCase` | src/app/api/search/route.ts:65-67 | `contains` with `mode: 'insensitive'` holds iff the lower-cased needle occurs in the lower-cased haystack, and lower-casing either side first changes nothing |
| `Text.SplitJoin` | src/app/api/posts/map/route.ts:22 | splitting a `join(' OR ')` of pieces that do not contain the separator gives the pieces back, one for one, in order |
| `Store.SetFlagStatus` | src/app/api/moderation/route.ts:45-48 | the flag with the id gets the new status; every other flag and the order stay |
| `Store.SetRequestStatus` | src/app/api/admin/route.ts:107-111 | the request with the id gets the new status; every other request stays |
| `Store.SetUserRole` | src/app/api/admin/route.ts:113-116 | the user with the id gets the new role; every other user stays |
| `Store.SetAbsent` | src/app/api/moderation/route.ts:45-48 | an update by an id that names no row changes no row |
| `Store.Db.CreateFriendship` | src/app/api/friends/route.ts:53-67 | appends exactly one friendship with the next id; every other table stays |
| `Store.Db.UpdateFlagStatus` | src/app/api/moderation/route.ts:45-48 | returns the updated flag, or nothing iff no flag has the id; only the flags change |
| `Store.Db.UpdateRequestStatus` | src/app/api/admin/route.ts:107-111 | returns the updated request, or nothing iff no request has the id; only the requests change |
| `Store.Db.UpdateUserRole` | src/app/api/admin/route.ts:113-116 | succeeds iff a user has the id; only the users change |
| `Store.Db.DeletePost` | src/app/api/admin/route.ts:127 | succeeds iff a post has the id, then removes exactly that post; only the posts change |
| `Store.Db.DeleteUser` | src/app/api/admin/route.ts:97 | succeeds iff a user has the id, then removes exactly that user; only the users change |
| `Store.Db.CreateModeratorRequest` | src/app/api/moderator-requests/route.ts:41-51 | appends one PENDING request with the next id; only the requests change |
| `Store.Db.CreatePost` | src/app/api/posts/route.ts:33-45 | appends one post with the next id; only the posts change |
| `Store.Db.CreateUser` | src/app/api/auth/register/route.ts:33-38 | appends one USER account with no profile picture, created and last active now; only the users change |
| `Store.Db.CreateSubmission` | src/app/api/bird-icons/route.ts:35-45 | appends one submission with the next id; only the submissions change |
| `Friends.CheckRequest` | src/app/api/friends/route.ts:28-51 | an undestructurable body gives 500; a friendId that is not a non-zero number, or is the caller's own id, gives 400; a fractional id gives 500; a row between the two users in either direction gives 409; otherwise the target id is accepted |
| `Friends.SendKeepsOnePerPair` | src/app/api/friends/route.ts:40-58 | inserting an accepted request keeps at most one row per unordered pair of users |
| `Friends.GetFriendships` | src/app/api/friends/route.ts:79-98 | lists exactly the rows naming the caller on either side, whatever their status |
| `Friends.SendFriendRequest` | src/app/api/friends/route.ts:28-77 | a refused request answers its failure and changes nothing; an accepted one adds exactly one PENDING row from the caller to the target (201) and keeps one row per pair |
| `Friends.Handle` | src/app/api/friends/route.ts:10-26 | no session is refused first, answered 401 in the model; a verb other than POST or GET gives 405 with `Allow: POST, GET`; only an accepted POST writes |
| `Feed.FriendIds` | src/app/api/feed/route.ts:21-32 | the friend ids are exactly the other sides of the ACCEPTED rows naming the caller, and there are none iff there is no such row |
| `Feed.Visible` | src/app/api/feed/route.ts:34-53 | exactly the posts by the given authors, newest first, and none for no authors |
| `Feed.Get` | src/app/api/feed/route.ts:10-59 | no session gives 401; an unparsable page or limit, or a negative skip or take, gives 500; otherwise the page of friends' posts: it succeeds exactly when there is a session, both parameters parse and the skip and take are non-negative, so with no parameters it always succeeds |
| `Feed.FeedPage` | src/app/api/feed/route.ts:34-56 | a served page holds at most `limit` posts, newest first, each written by a friend of the caller |
| `Feed.NoFriendsNoFeed` | src/app/api/feed/route.ts:21-56 | a caller without an ACCEPTED friendship gets an empty feed |
| `Moderation.PendingFlags` | src/app/api/moderation/route.ts:20-23 | exactly the PENDING flags, newest first |
| `Moderation.Queue` | src/app/api/moderation/route.ts:8-33 | anyone but a MODERATOR (an ADMIN included) gets 401; defaults page 1 and limit 10; a moderator gets that page of the pending flags exactly when both parameters parse and the skip and take are non-negative, otherwise 500 |
| `Moderation.QueuePage` | src/app/api/moderation/route.ts:20-26 | a served queue page holds at most `limit` flags, all PENDING, newest first |
| `Moderation.Decision` | src/app/api/moderation/route.ts:47 | the new status is RESOLVED iff the action is the string "RESOLVE", and DISMISSED otherwise; never PENDING |
| `Moderation.DecisionSticks` | src/app/api/moderation/route.ts:45-48 | after the decision, the flag carries the new status whatever status it had before |
| `Moderation.Decide` | src/app/api/moderation/route.ts:35-61 | non-moderator 401 with no change; missing body, non-integer id or unknown flag 500 with no change; otherwise the flag takes the decided status, and on RESOLVE its post is deleted, the answer being 500 (flag already updated) iff that post was gone |
| `Admin.InactiveUsers` | src/app/api/admin/route.ts:30-41 | exactly the users last active strictly before `now - 2592000000` ms |
| `Admin.PendingRequests` | src/app/api/admin/route.ts:48-54 | exactly the PENDING moderator requests |
| `Admin.PendingFlags` | src/app/api/admin/route.ts:61-67 | exactly the PENDING flags, in storage order |
| `Admin.List` | src/app/api/admin/route.ts:8-28 | non-admin 401; `inactiveUsers`, `moderatorRequests` and `flaggedPosts` give their listings; any other or no action 400 |
| `Admin.PromotionSticks` | src/app/api/admin/route.ts:113-116 | after the promotion, the user has the new role |
| `Admin.Act` | src/app/api/admin/route.ts:74-133 | non-admin 401; a missing body 500; an unknown action 400; a non-integer id 500; `deleteUser`/`deletePost` remove that row and succeed iff it existed; `approveModerator` sets the request APPROVED and then promotes its user, failing with 500 after the first write when the user is gone, and with no change when the request is missing |
| `ModeratorRequests.CheckRequest` | src/app/api/moderator-requests/route.ts:29-39 | a schema failure gives 500; an existing request by the caller, of any status, gives 400; otherwise the validated fields |
| `ModeratorRequests.CreateKeepsOnePerUser` | src/app/api/moderator-requests/route.ts:33-45 | an accepted request keeps one request per user |
| `ModeratorRequests.ListRequests` | src/app/api/moderator-requests/route.ts:63-77 | 403 iff the caller is not an ADMIN; otherwise every request |
| `ModeratorRequests.Handle` | src/app/api/moderator-requests/route.ts:11-61 | no session is refused first, answered 401 in the model; other verbs 405 with `Allow: POST, GET`; an accepted POST adds one PENDING request by the caller (201) and keeps one request per user; nothing else writes |
| `Validation.Text` | src/lib/validationSchemas.ts:4-5 | `z.string().min(lo).max(hi)` accepts exactly the strings of length `lo..hi` |
| `Validation.Number` | src/lib/validationSchemas.ts:6-7 | `z.number().min(lo).max(hi)` accepts exactly the numbers in the closed range |
| `Validation.Urls` | src/lib/validationSchemas.ts:8 | the photos may be missing; when present they must be an array whose every item is a URL string |
| `Validation.CreatePost` | src/lib/validationSchemas.ts:3-9 | accepts iff every field meets its constraint (species 1..100, description 1..1000, latitude in [-90, 90], longitude in [-180, 180], photos optional URLs), and returns those fields, the photos being exactly the URL strings sent |
| `Validation.CreatePostRoundTrip` | src/lib/validationSchemas.ts:3-9 | parsing an encoded post input gives it back iff it meets the schema |
| `Validation.RegisterUser` | src/lib/validationSchemas.ts:11-15 | accepts iff username has length 3..30, email passes the e-mail check and password has length at least 8 |
| `Validation.ModeratorRequest` | src/lib/validationSchemas.ts:17-21 | accepts iff description and qualifications have length 10..500 and location 2..100 |
| `Search.PositiveInt` | src/app/api/search/route.ts:14-15 | a missing value takes the default; a given one must be a positive integer number within the bound |
| `Search.ParseParams` | src/app/api/search/route.ts:11-16 | accepts iff query has length 1..100, type is birds or posts, page is a positive integer (default 1) and limit a positive integer at most 100 (default 10) |
| `Search.StringPageRefused` | src/app/api/search/route.ts:14-15 | a page or limit given as a string, as every query-string value is, fails the schema |
| `Search.MatchingBirds` | src/app/api/search/route.ts:62-69 | exactly the birds whose name, species or description contains the query, ignoring case |
| `Search.MatchingPosts` | src/app/api/search/route.ts:116-123 | exactly the posts whose description, or whose bird's name or species, contains the query, ignoring case |
| `Search.ToSafeBird` | src/app/api/search/route.ts:83-100 | copies id, name, species and description; the icon is present exactly when the bird has an icon row with an uploader, and then carries that icon and its uploader's public fields |
| `Search.Run` | src/app/api/search/route.ts:30-51 | the results are the matches skipped by `(page - 1) * limit` and cut to `limit`; the metadata is the page, `ceil(total / limit)` and the total number of matches |
| `Search.BirdResultsMatch` | src/app/api/search/route.ts:61-100 | a page of bird results holds at most `limit` entries, each the projection of a matching bird |
| `Search.PostResultsMatch` | src/app/api/search/route.ts:115-132 | a page of post results holds at most `limit` posts, each a matching post |
| `Search.EveryMatchOnAnnouncedPage` | src/app/api/search/route.ts:44-50 | every matching post appears on some page from 1 to the announced `totalPages` |
| `Search.Handle` | src/app/api/search/route.ts:18-59 | no session is refused first, answered 401 in the model, then a verb other than GET 405 with `Allow: GET`, then bad parameters 400; otherwise 200 with the results |
| `Posts.BirdFor` | src/app/api/posts/route.ts:37 | the first bird with exactly the post's species, or none iff no bird has it |
| `Posts.CheckCreate` | src/app/api/posts/route.ts:29-37 | a schema failure gives 500; a species with no bird gives 500; otherwise the validated input and that bird's id |
| `Posts.NewPost` | src/app/api/posts/route.ts:33-38 | the new post is the caller's, filed under the bird, with the validated fields and no photos when none were sent |
| `Posts.ParseSort` | src/app/api/posts/route.ts:59-67 | `sortBy` defaults to `createdAt`; `id`, `userId` and `createdAt` are recognised, anything else fails |
| `Posts.ParseOrder` | src/app/api/posts/route.ts:59-68 | `order` defaults to descending; only `asc` and `desc` are accepted |
| `Posts.TotalPages` | src/app/api/posts/route.ts:87 | `ceil(total / limit)`, and null iff the limit is 0 |
| `Posts.List` | src/app/api/posts/route.ts:57-94 | succeeds iff page and limit parse, the sort column and order are known and skip and take are non-negative; then the page of the sorted posts, the page count and the page number |
| `Posts.ListPage` | src/app/api/posts/route.ts:71-81 | a listed page holds at most `limit` posts, all posts of the table, in the requested order |
| `Posts.Handle` | src/app/api/posts/route.ts:11-55 | no session is refused first, answered 401 in the model; other verbs 405 with `Allow: POST, GET`; GET lists; an accepted POST adds exactly one post (201); nothing else writes |
| `PostRadius.Columns` | src/app/api/post/route.ts:15-26 | the insert accepts string species and description, numeric coordinates and an optional list of strings for photos, with no range or length check |
| `PostRadius.Create` | src/app/api/post/route.ts:8-34 | no session 401; an undestructurable body or columns the insert refuses give 500 with no change; otherwise one post by the caller with no bird (201) |
| `PostRadius.Nearby` | src/app/api/post/route.ts:45-48 | exactly the posts within `radius * 1000` metres of the point, newest first |
| `PostRadius.Around` | src/app/api/post/route.ts:36-57 | defaults lat 0, lon 0, radius 100, page 1, limit 10; an unparsable value or a negative LIMIT or OFFSET gives 500; otherwise that page of the nearby posts |
| `PostRadius.AroundPage` | src/app/api/post/route.ts:45-50 | a served page holds at most `limit` posts, newest first, each within the radius |
| `Map.Condition` | src/app/api/posts/map/route.ts:21 | the condition is a quote, the species, then `' = ANY(bird_species)` |
| `Map.Clause` | src/app/api/posts/map/route.ts:19-23 | the clause is empty iff no species is given, and otherwise `AND (` the conditions joined by ` OR ` `)` |
| `Map.ConditionSeparable` | src/app/api/posts/map/route.ts:21 | a species without ` OR ` in it gives a condition that can be split back out of the joined clause |
| `Map.OneConditionPerSpecies` | src/app/api/posts/map/route.ts:20-22 | the clause holds exactly one condition per species, in input order, when no species contains ` OR ` |
| `Map.Markers` | src/app/api/posts/map/route.ts:7-33 | a NaN lat, lon or radius gives 400; otherwise exactly the posts within `radius * 1000` metres that the clause admits, unpaged |
| `BirdIcons.CheckSubmission` | src/app/api/bird-icons/route.ts:12-31 | a species outside 1..100 characters (or missing) gives 500; then a missing icon file gives 400 |
| `BirdIcons.Submit` | src/app/api/bird-icons/route.ts:16-55 | no session 401; failed checks or a failed upload answer their failure with no change; otherwise one submission with the uploaded URL and the caller (201), the species not stored |
| `BirdIcons.List` | src/app/api/bird-icons/route.ts:57-79 | no session 401; a plain user 403; an ADMIN or MODERATOR gets every submission |
| `Analytics.PostsOfBird` | src/app/api/admin/analytics/route.ts:64-68 | a bird's post count is at most the number of posts, and 0 iff no post is filed under it |
| `Analytics.PostsOfUser` | src/app/api/admin/analytics/route.ts:78-83 | a user's post count is at most the number of posts, and 0 iff the user wrote none |
| `Analytics.TopBirds` | src/app/api/admin/analytics/route.ts:57-69 | at most five entries (five when there are five birds), each a bird with its post count, in descending order of post count, drawn from the birds' stats with no bird listed more often than the table holds it |
| `Analytics.TopPosters` | src/app/api/admin/analytics/route.ts:71-85 | at most five entries (five when there are five users), each a user with its post count, in descending order of post count, drawn from the users' stats with no user listed more often than the table holds it |
| `Analytics.TopBirdsOutrank` | src/app/api/admin/analytics/route.ts:57-63 | a bird missing from `topBirds` means five are listed, none with fewer posts than it |
| `Analytics.TopPostersOutrank` | src/app/api/admin/analytics/route.ts:71-77 | a user missing from `topPosters` means five are listed, none with fewer posts than it |
| `Analytics.Collect` | src/app/api/admin/analytics/route.ts:37-117 | totals are the table sizes; last week's counts are the rows created at or after `now - 604800000` ms; the pending count is the PENDING flags; the two top-five lists |
| `Analytics.Get` | src/app/api/admin/analytics/route.ts:10-35 | no session 401, then a non-admin 403, then a verb other than GET 405 with `Allow: GET`; otherwise the report |
| `Register.CheckRegistration` | src/app/api/auth/register/route.ts:15-29 | a schema failure gives 500; an account with the same e-mail or the same username gives 409; otherwise the validated fields |
| `Register.RegisterKeepsUnique` | src/app/api/auth/register/route.ts:18-38 | an accepted registration keeps e-mail addresses and usernames unique |
| `Register.ToSafeUser` | src/app/api/auth/register/route.ts:40-49 | copies id, username, email, role, profile picture, created and last-active times; no password; `deactivated` null |
| `Register.Handle` | src/app/api/auth/register/route.ts:10-59 | a verb other than POST gives 405 with no `Allow` header and no change; a refused registration changes nothing; otherwise exactly one USER account whose stored password is the hash of the one sent, answered with its safe projection (201) |

## Left out

- Storage order stands in for the order SQL leaves unspecified. Rows that tie on a sort key keep storage order (`Ordering.SortBy`), and unsorted listings come back in storage order.
- Skip and take: a negative skip or take is modelled as a failed query (500). Prisma's reverse paging with a negative `take` is not modelled.
- `parseInt`/`parseFloat` are abstracted as `Param`: absent, a parsed value, or NaN. Their prefix parsing of strings such as "12abc" is not modelled.
- A NaN `lat`, `lon` or `radius` on `/api/post` GET is modelled as a failed query (500). How PostgreSQL treats a NaN bound is not modelled.
- `PostRadius.Around`: the radius is multiplied by 1000 without JavaScript's floating-point rounding.
- `Posts.ParseSort`: ordering by a column other than `id`, `userId` or `createdAt` is modelled as a failure (500), although Prisma accepts some other scalar columns.
- `Posts.List`: a `limit` of 0 gives `totalPages` null (None), which is how JavaScript's Infinity and NaN serialise.
- Relations and `include` projections are not modelled: the `user`, `friend`, `bird`, `likes` and `dislikes` objects in the answers. Foreign-key integrity and cascades on delete are not modelled either: `DeleteUser` removes only the user row.
- `Search.ToSafeBird`: a dangling icon or uploader reference gives a bird with no icon, where Prisma would never return one.
- `Json.AsInt`: any integral number is accepted as an id. The 32-bit range of Prisma's `Int` columns is not modelled, so an out-of-range id, which the database would refuse with a 500, is treated here like any other id.
- String comparison is over characters. Case folding covers ASCII letters only, and lengths count characters rather than UTF-16 code units.
- The species clause on `/api/posts/map` is text spliced into SQL: a species containing a quote changes the query. How PostgreSQL evaluates the clause is a parameter (`admits`), and the injection is not modelled.
- `Map.OneConditionPerSpecies` holds only for species that do not contain ` OR `.
- The password hash is a deterministic function parameter; bcrypt's random salt and cost factor are not modelled.
- The file upload is a parameter that returns a URL or a failure. Its content-type check, storage and size limits are not modelled, and neither is a form body that fails to parse.
- Column defaults are assumed from the handlers' use: role USER, a PENDING request, `createdAt`/`lastActive` set to `now`. Every table takes its ids from one shared sequence.
- Atomicity and concurrency: each Prisma call is one step. `approveModerator` and a RESOLVE decision are two separate writes, and the model keeps the first when the second fails. Concurrent requests are not modelled.
- `/api/admin/analytics` throws its 401 and 403 outside any `try`, and `/api/friends`, `/api/moderator-requests`, `/api/search` and `/api/posts` throw their 401 for a missing session outside any `try`. What the framework then answers is not modelled: `Analytics.Get`, `Friends.Handle`, `ModeratorRequests.Handle`, `Search.Handle` and `Posts.Handle` give the status the application's error class carries (401 or 403).
- Logging, the `toLocaleString` date formatting, the authentication provider configuration, client-side pages and wrappers, and the error-handling middleware are not modelled.
- The route at src/app/api/moderator/route.ts breaks off mid-statement and is not part of this model. Type-only files are not part of it either.
