# MovieNightApp in Dafny

A model of MovieNightApp's backend and of its movie card. The backend is an
Express server over a Supabase database. Users register and log in with an
email and a password and receive a JSON Web Token. Anyone may list the movies.
With a bearer token a user may add a movie, may edit or delete the movies they
added, and may vote thumbs-up or thumbs-down on any movie. The front end's
`MovieCard` shows a short synopsis, the platform list, the poster and the
owner-only Edit and Delete actions.

Every handler is a pure function. It takes the caller, the request fields, the
table it reads, and the outcome of each store call (`Fault`: `None` when the
call succeeds, `Some(message)` when the database client reports an error). It
returns the response and the table after the request. The foreign libraries
(validator, bcryptjs, jsonwebtoken) are function-valued parameters
(`Foreign.Libraries`). Two predicates state the only facts the proofs rely on:
`HashSound` says a password matches its own hash. `SignSound` says a token
this server signed verifies back to its claims, is non-empty, and contains no
space, as a compact JSON Web Token does.

Modules:

- `Model`: records, request fields, responses.
- `Foreign`: library signatures, token lifetimes, the bcrypt cost factor.
- `Movies`: `moviesController.js`.
- `Auth`: `auth.js`, including JavaScript's `split`.
- `Users`: `usersController.js`.
- `Routes`: the route table of `index.js` and the request pipeline (first
  matching route, then the gate, then the controller).
- `Walkthrough`: an end-to-end scenario through `Routes.Dispatch`.
- `MovieCard`: `MovieCard.js`, with strings as UTF-16 code units.

The headline results:

- `Routes.OnlyOwnerChangesRecord`: only the owner changes a record.
- `Routes.NewRecordOwnedByCaller`: a new record belongs to the verified caller.
- `Routes.VotesFromAnyoneAddUp`: N votes from anyone add exactly N to one counter of one record.
- `Users.UnknownEmailLikeWrongPassword`: an unknown email and a wrong password get the same login answer.

Where the project's description and the code disagree, the model follows the
code:

- Updating or deleting a missing id answers 500 through the failed
  `.single()` fetch, not 404.
- A refused owner check answers 500, not 403.
- A successful update or delete answers with whatever the client library
  returns for a write without `.select()`. The model calls that reply `Echo`
  and does not claim it is the updated record.

One consequence of the code is easy to miss. `updateMovie` wraps a missing
`platform` as `[undefined]` before writing it, so a PUT that sends only a
title replaces the stored platform with `[null]`
(`Movies.UpdateWithoutPlatformClearsIt`). The model keeps this behaviour as
written.

## Model

| member | source | states |
|---|---|---|
| Model.Column | backend/controllers/moviesController.js:38 | an inserted body field becomes a column holding the string exactly when the field is a string; absent and null both store NULL |
| Movies.Normalise | backend/controllers/moviesController.js:32 | an array platform is kept as is; any other value becomes the one-element array holding it |
| Movies.Stored | backend/controllers/moviesController.js:38 | the stored platform array has one element per input element, each stored as its column value |
| Movies.NormaliseIdempotent | backend/controllers/moviesController.js:60 | normalising an already normalised platform gives the same array |
| Movies.ScalarPlatformRoundTrip | backend/controllers/moviesController.js:32 | a string platform is stored as the one-element array holding that string |
| Movies.GetMovies | backend/controllers/moviesController.js:7-24 | 200 exactly when the select succeeds, and the listing then holds every row once under its id, as stored; a failed select answers 500 with the store's message |
| Movies.AddNewMovie | backend/controllers/moviesController.js:27-51 | on success: 201; one new record under the fresh id, owned by the caller, counters at 0, title/genre/synopsis/platform from the body; every other record kept. A failed insert answers 500 and changes nothing |
| Movies.Overwrite | backend/controllers/moviesController.js:81 | an absent body field leaves the column as it was; a present one (null included) replaces it |
| Movies.FetchFailure | backend/controllers/moviesController.js:64-71 | the ownership fetch fails, with 500, exactly when the store errs or no record has the id |
| Movies.UpdateMovie | backend/controllers/moviesController.js:54-94 | status is 200 or 500; 200 exactly when both store calls succeed, the id exists and the caller owns it; a non-owner gets 500 "not authorized"; a missing id gives 500; anything but 200 changes nothing; on 200 only title, genre, platform and synopsis of that record change |
| Movies.DeleteMovie | backend/controllers/moviesController.js:97-133 | status is 200 or 500; 200 exactly when both store calls succeed, the id exists and the caller owns it; a non-owner gets 500 "not authorized"; on 200 exactly that record is removed and all others are kept |
| Movies.UpdateOwnerCheck | backend/controllers/moviesController.js:74-76 | for an existing record whose fetch succeeds, an update answers 500 "not authorized to update" exactly when the caller is not the record's `added_by` |
| Movies.DeleteOwnerCheck | backend/controllers/moviesController.js:113-115 | for an existing record whose fetch succeeds, a delete answers 500 "not authorized to delete" exactly when the caller is not the record's `added_by` |
| Movies.UpdateWithoutPlatformClearsIt | backend/controllers/moviesController.js:60-81 | an owner's PUT that sends only a title succeeds, sets the title, and replaces the platform with `[null]`: the absent field is wrapped, not skipped |
| Movies.BumpAddsOne | backend/controllers/moviesController.js:148 | a bump counts a missing counter as 0, adds one, and changes no other column |
| Movies.Vote | backend/controllers/moviesController.js:135-189 | a failed fetch or missing id answers 404 "Movie not found." and changes nothing; a failed write answers 500; on success one counter of that record becomes (old or 0) + 1, nothing else changes, and the reply carries the new record |
| Movies.VotesAddExactly | backend/controllers/moviesController.js:148-151 | n successful votes on an existing movie add exactly n to one counter of one record and change nothing else |
| Movies.VotedOnlyThen | backend/controllers/moviesController.js:176-179 | one successful vote followed by n more is n + 1 votes |
| Movies.OnlyOwnerEdits | backend/controllers/moviesController.js:54-189 | adding and voting keep every existing record's content; an update or delete that changes a record's content, or removes it, targeted that record on behalf of its owner |
| Movies.IdentityKept | backend/controllers/moviesController.js:27-189 | every handler keeps an existing record's id, owner and creation time; only delete can remove it |
| Movies.HandlersKeepWellKeyed | backend/controllers/moviesController.js:27-189 | every handler keeps each record under its own id |
| Movies.CreateThenDeleteRestores | backend/controllers/moviesController.js:97-133 | adding a movie and deleting it as the same caller restores the table and answers 200 |
| Movies.CreatedMovieRejectsOthers | backend/controllers/moviesController.js:74-76 | a movie created by one caller cannot be updated or deleted by another: 500 and the table unchanged |
| Auth.SplitOn | backend/middleware/auth.js:15 | `split` on one character gives at least one piece, no piece contains the separator, and joining the pieces gives back the input |
| Auth.TakeUntil | backend/middleware/auth.js:15 | the result is the longest prefix without the separator: a prefix, separator-free, and followed by the separator unless it is the whole string |
| Auth.SplitFirstPiece | backend/middleware/auth.js:15 | the first piece of a split is the text before the first separator |
| Auth.SplitAfterWord | backend/middleware/auth.js:15 | a separator-free word followed by the separator splits off as the first piece |
| Auth.TakeUntilWhole | backend/middleware/auth.js:15 | a string without the separator is taken whole, so a space-free token survives the split intact |
| Auth.SplitAfterPrefix | backend/middleware/auth.js:15 | for a header with the bearer prefix, the split has a second piece, and it is the text after the prefix up to the next space |
| Auth.ExtractToken | backend/middleware/auth.js:15-18 | the extracted token never contains a space, and after the bearer prefix it is the text up to the next space, so "" exactly when a space follows the prefix or nothing does |
| Auth.Authenticate | backend/middleware/auth.js:5-35 | 403 "invalid token format" exactly when the header is missing or lacks the case-sensitive "Bearer " prefix; then 403 "no token provided" exactly when element 1 is empty; 400 "Invalid token." exactly when verification fails; otherwise `next` with the decoded claims; every refusal is 400 or 403 |
| Auth.LowercaseSchemeRefused | backend/middleware/auth.js:10-12 | "bearer abc" is refused with 403 "invalid token format" |
| Auth.SecondWordIgnored | backend/middleware/auth.js:15 | "Bearer a b" is treated exactly as "Bearer a" |
| Auth.DoubleSpaceHasNoToken | backend/middleware/auth.js:18-20 | "Bearer  x" is refused with 403 "no token provided" |
| Auth.SignedTokenPasses | backend/middleware/auth.js:22-28 | a header carrying a token this server signed passes with that token's claims |
| Users.WithEmail | backend/controllers/usersController.js:16-20 | the rows matching the email are exactly the table's rows holding that email |
| Users.SingleWithEmail | backend/controllers/usersController.js:16-20 | `.single()` yields a row exactly when the lookup succeeds and one row matches, and that row holds the email |
| Users.EmailCheck | backend/controllers/usersController.js:12-14 | the check passes exactly for a string accepted by `isEmail`; a rejected string answers 400 "Invalid email format."; a non-string makes the validator throw, giving 500 |
| Users.Login | backend/controllers/usersController.js:8-45 | a failed email check answers first; 200 exactly when the email passes, the password is a string, `.single()` finds the user and the password matches; the token then carries that user's id and an 8-hour lifetime; no single match answers 401 "Invalid credentials" |
| Users.Register | backend/controllers/usersController.js:48-90 | a failed email check answers first; a found user answers 400 "User already exists!" and changes nothing; 201 exactly when no user was found, the password is a string and the insert succeeds; then exactly one row is appended with the email and hash(password, 10), and the token carries the new id and a 2-hour lifetime |
| Users.UnknownEmailLikeWrongPassword | backend/controllers/usersController.js:23-33 | an unknown email and a known email with a wrong password give the same 401 answer |
| Users.MissingPasswordRevealsRegisteredEmail | backend/controllers/usersController.js:28 | without a string password, a registered email answers 500 and an unknown one answers 401 |
| Users.DuplicateRegistrationRejected | backend/controllers/usersController.js:63-65 | with unique emails and a working lookup, registering a taken email answers 400 and changes nothing |
| Users.UniqueEmailSingle | backend/controllers/usersController.js:56-60 | with unique emails, the lookup matches exactly the one row holding the email |
| Users.NoneWithEmail | backend/controllers/usersController.js:16-20 | a table with no row holding the email matches no row |
| Users.LookupErrorAdmitsDuplicate | backend/controllers/usersController.js:56-65 | a failed lookup does not block registration: the insert runs and the email gains one more row |
| Users.DuplicatedEmailLocksOut | backend/controllers/usersController.js:16-25 | once two rows share an email, login with it always answers 401, and registering it again succeeds |
| Users.WithEmailAppend | backend/controllers/usersController.js:71-74 | appending a row adds it to the email's matches exactly when it holds that email |
| Users.RegisterThenLogin | backend/controllers/usersController.js:8-90 | registering a new email and then logging in with the same password gives 200 and a login token for the new id |
| Routes.MatchesSegments | backend/index.js:26-35 | `/movies/:id` matches exactly when the id segment is non-empty, and `/movies` matches only the one-segment path `movies` |
| Routes.FirstMatch | backend/index.js:20-42 | the index returned is the first route, in declaration order, whose verb and pattern fit the request; none when no route fits |
| Routes.RunHandlerWrites | backend/index.js:20-42 | only the registration controller writes the user table, and only the five movie-writing controllers write the movie table |
| Routes.CallerIsIdClaim | backend/controllers/moviesController.js:29 | a controller reads only the id claim of `req.user`: two identities with the same id give the same outcome |
| Routes.RunHandlerIgnoresHeader | backend/index.js:20-42 | no controller reads the Authorization header; the outcome is the same for any header |
| Routes.TableGatesUserReaders | backend/index.js:31-39 | every route whose handler reads `req.user` is declared with `authenticateUser` |
| Routes.Dispatch | backend/index.js:20-42 | an unmatched request answers 404 and changes nothing; a gated route whose gate refuses answers with the gate's response and changes nothing |
| Routes.FirstMatchIs | backend/index.js:20-42 | the first route that fits is the one dispatch picks |
| Routes.ResolveRegister | backend/index.js:20 | POST /register resolves to the first route, which is open |
| Routes.ResolveLogin | backend/index.js:23 | POST /login resolves to the second route, past /register, and it is open |
| Routes.ResolveListing | backend/index.js:26 | GET /movies resolves to the open listing route |
| Routes.ResolveCreate | backend/index.js:31 | POST /movies resolves to the gated create route, past the two open POST routes |
| Routes.ResolveIdPaths | backend/index.js:35-39 | PUT and DELETE /movies/:id resolve to the gated update and delete routes |
| Routes.ResolveVotePaths | backend/index.js:41-42 | both vote paths resolve to their gated routes |
| Routes.DispatchUnverified | backend/index.js:20-42 | a request that does not pass a gate, because its route is open, missing or refused, leaves the movie table as it was |
| Routes.DispatchVerified | backend/index.js:31-42 | a gated request whose token verifies has a route, and runs that route's controller with the decoded claims as `req.user` |
| Routes.DispatchOpen | backend/index.js:20-28 | a request on an open route runs its controller without an identity, and that controller never reads `req.user` |
| Routes.DispatchMovies | backend/index.js:31-42 | the movie table after any request is `MoviesAfter`: unchanged unless the route is gated and the token verifies, and then what that route's controller leaves, called with the token's id claim as the caller |
| Routes.OnlyOwnerChangesRecord | backend/index.js:35-39 | if a request deletes a record, or changes anything of it but its counters, then the request resolved to the gated update or delete route, its path id is that record's id, and its token verified to the record's owner |
| Routes.NewRecordOwnedByCaller | backend/index.js:31 | if a record exists after a request and not before, the request resolved to the gated POST /movies route, its token verified, the record sits under the fresh id, and its owner is the token's id |
| Routes.OwnerIsImmutable | backend/index.js:31-42 | if a record survives a request, its id, owner and creation time are as before |
| Routes.DispatchKeepsWellKeyed | backend/index.js:20-42 | every request keeps each record under its own id |
| Routes.UsersChangeOnlyByRegistration | backend/index.js:20 | if a request changes the user table, it resolved to the open POST /register route, kept every existing row in place, and appended exactly one row with the fresh user id |
| Routes.LoginNeverWrites | backend/index.js:23 | POST /login leaves both tables unchanged, whatever the outcome |
| Routes.OpenRoutesIgnoreHeader | backend/index.js:20-26 | registration, login and listing are not gated and do not depend on the Authorization header |
| Routes.RefusedGateReachesNoStore | backend/index.js:31-42 | on every gated movie route, a refused header answers with the gate's response and leaves both tables unchanged |
| Routes.VoteRoutesGated | backend/index.js:41-42 | a request that resolves to a vote route passes through the gate |
| Routes.VoteIgnoresUser | backend/controllers/moviesController.js:135-189 | the vote controllers take no identity: any two values of `req.user` give the same outcome |
| Routes.VotesIgnoreIdentity | backend/index.js:41-42 | the vote routes are gated, but any two verified identities give the same outcome |
| Routes.VoteDispatch | backend/index.js:41-42 | a thumbs-up or thumbs-down request with a verified token runs that vote on the path's id |
| Routes.VoteAllStep | backend/index.js:41-42 | the first of a run of verified vote requests is one successful vote, after which the database's fresh ids are still unused and the same ids are present |
| Routes.VotesFromAnyoneAddUp | backend/index.js:41-42 | N sequential thumbs-up requests, or N thumbs-down requests, from any callers with verified tokens, add exactly N to that movie's counter and change nothing else, users included |
| Walkthrough.RegisterStep | backend/index.js:20 | POST /register with a new email answers 201 with a 2-hour token for the fresh id and appends the hashed row |
| Walkthrough.CreateStep | backend/index.js:31 | POST /movies with a signed token inserts a record owned by the token's id |
| Walkthrough.IntruderStep | backend/index.js:35 | PUT /movies/:id with a non-owner's token answers 500 "not authorized" and changes nothing |
| Walkthrough.OwnerStep | backend/index.js:35 | PUT /movies/:id with the owner's token sets the new title and keeps the owner |
| Walkthrough.OwnershipEndToEnd | backend/index.js:20-35 | register, then add a movie with the registration token: the new user owns it; another user's update is refused and changes nothing; the owner's update sets the title |
| MovieCard.EncodeChar | frontend/src/components/MovieCard/MovieCard.js:9 | a character below 0x10000 is one code unit equal to it; any other is a high/low surrogate pair that decodes back to it |
| MovieCard.Utf16 | frontend/src/components/MovieCard/MovieCard.js:9 | a string has at least as many code units as characters, and exactly as many when every character is below 0x10000 |
| MovieCard.Utf16Append | frontend/src/components/MovieCard/MovieCard.js:9 | encoding distributes over concatenation |
| MovieCard.ShortSynopsis | frontend/src/components/MovieCard/MovieCard.js:9-11 | a synopsis of at most 100 units is unchanged; a longer one becomes its first 100 units then "...", 103 units in all |
| MovieCard.ShortSynopsisIdempotent | frontend/src/components/MovieCard/MovieCard.js:9-11 | shortening a short synopsis changes nothing |
| MovieCard.ShortSynopsisUnchangedIff | frontend/src/components/MovieCard/MovieCard.js:9-11 | a synopsis is shown unchanged exactly when it has at most 100 units, or is 100 units followed by "..." |
| MovieCard.CutCanSplitSurrogatePair | frontend/src/components/MovieCard/MovieCard.js:9-10 | when the 100th unit is a high surrogate, the short synopsis keeps it without its low half and follows it with "..." |
| MovieCard.SurrogatePairSplitExample | frontend/src/components/MovieCard/MovieCard.js:9-10 | 99 letters and two emoji make 103 units whose 100th unit is a high surrogate |
| MovieCard.Rendered | frontend/src/components/MovieCard/MovieCard.js:26 | `join` renders a null or undefined element as "" and a string as itself |
| MovieCard.JoinPlatforms | frontend/src/components/MovieCard/MovieCard.js:26 | the join starts with the first element's text; its length is the rendered elements plus two units per separator; it is empty exactly when there are no elements, or one that renders empty |
| MovieCard.PlatformText | frontend/src/components/MovieCard/MovieCard.js:26 | "N/A" when the platform is missing or joins to ""; otherwise the elements joined with ", " |
| MovieCard.SinglePlatformShown | frontend/src/components/MovieCard/MovieCard.js:26 | a single non-empty platform name is shown as itself |
| MovieCard.PosterSource | frontend/src/components/MovieCard/MovieCard.js:21 | a non-empty poster URL is used; otherwise the placeholder poster |
| MovieCard.Render | frontend/src/components/MovieCard/MovieCard.js:7-41 | nothing renders exactly when the movie is missing; a missing synopsis counts as ""; hovered shows the full synopsis, otherwise the short one; Edit and Delete appear exactly when the viewer is the owner; platform, title and counters come from the record; the poster is the `posterUrl` parameter or the placeholder |

## Left out

- Supabase calls, network I/O and JSON serialisation are left out. The tables are abstract and each store call's failure is a `Fault` parameter.
- Only the counters' default of 0 on insert is taken from the database schema; no other column default is modelled.
- bcryptjs, jsonwebtoken and validator are uninterpreted functions. `HashSound` and `SignSound` are the only facts assumed about them.
- Token expiry is left out. There is no clock in the verify function, so `SignSound` holds for unexpired tokens only. The lifetimes are recorded in the claims.
- `Date` formatting of `created_at` is left out.
- The read-then-write race between concurrent votes is left out. Votes are modelled as sequential requests.
- `getMoviePoster` is not part of this model. Its route is in the table, and its reply is the `poster` field of the environment.
- `app.listen`, the port, cors, dotenv and the JSON body parser are left out.
- The front end's other components are left out: Dashboard, Login, Register, App, Header and Logo.
- Body fields are modelled as absent, null or strings only. Numbers, booleans and objects are left out.
- Paths arrive as their segments. Express's case-insensitive matching, trailing-slash tolerance and percent-decoding are left out.
- Ids are compared as strings, with no database-side type coercion.
- Hover events, CSS, image loading and the click callbacks of `MovieCard` are left out. `hovered` and `isOwner` are parameters.
- `SignSound` assumes more than the round trip: every signed token is non-empty and space-free. `SignedTokenPasses` and every `Walkthrough` step rely on it.
- bcrypt's random salt and the `iat` time stamp jsonwebtoken adds are left out. `hash` and `sign` are plain functions, so the same input always gives the same hash or token.
- `MovieCard` reads `movie.posterUrl`, which is not a table column. The model takes the poster URL as a parameter of `Render`.
- Movies.UpdateMovie: the reply body is not modelled (`Echo`), because what the client returns for an update without `.select()` depends on its version.
- Movies.DeleteMovie: the reply body is not modelled (`Echo`), for the same reason.
- Routes.VoteAll: it stops recursing if a vote ever produced a table in which the environment's fresh ids were taken. Votes never add keys, so this branch is unreachable, but the function is written with it.
