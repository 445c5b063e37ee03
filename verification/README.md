# BLogBook admin core in Dafny

BLogBook is a small Express blog. Registered admins log in with a username and
password. They receive a one-hour signed token in an httpOnly `token` cookie and
then manage their own posts through `/admin`. Anyone can page through all posts
or search them on `/`.

This project models the decision logic inside that glue. Token signing and
verification, password hashing and the clock are abstract oracles, passed as
function-typed parameters (`verify`, `sign`, `hash`, `compare`) and an integer
`now`.

- `Tokens`: the claims `{ userId }`, with issued-at and expiry times, and the one-hour lifetime of a login token.
- `AuthMiddleware`: the two authentication policies.
  - The process-wide soft middleware attaches the decoded claims, or nothing, and always continues.
  - The admin guard either redirects to `/admin` or continues with `{ _id: userId }`.
- `PostModel`: the post schema.
  - The `trim` setter on the title.
  - The `required` checks, which report every failing path.
  - The image default `''`, which applies only when the field is absent.
  - The `date`, `createdAt` and `updatedAt` defaults.
- `PostStore`: the post collection as a map from id to post.
  - Every admin read, update and delete is filtered on `{ _id, user: actingId }`.
  - The dashboard query sorts by `date`, newest first.
  - Create takes its owner from the guard.
- `Accounts`:
  - registration, which checks the name before hashing;
  - login, whose two failure paths cannot be told apart;
  - the one-shot session flash message.
- `PublicListing`:
  - the home page's skip/limit pagination and its next-page link;
  - search-term sanitising to `[a-zA-Z0-9 ]`;
  - the case-insensitive literal match on title or description.
- `AdminRouter`: one request through identity attachment, the guard (on guarded routes) and the handler. It also holds the properties that span several requests.
  - `HandleAdmin` is the router as written, including the unvalidated edit route described under "## Findings".
  - `HandleAdminCorrected` is the same router with the schema's validators applied to edits, the evidently intended program.

Three behaviours of the code that a reader might not expect, all modelled as written:
- The description field is stored verbatim. Only the title is trimmed.
- An edit or delete of a post the user does not own changes nothing. It still redirects to the dashboard rather than answering "not found".
- `GET /admin/register` is behind the guard, but `POST /admin/register` is not.

## Model

| member | source | states |
|---|---|---|
| Tokens.Issue | servers/routes/admin.js:77 | The signed claims name the user and are live when issued and no longer live one hour later |
| Tokens.IssuedTokenLifetime | servers/routes/admin.js:77 | A login token is accepted at a later time exactly when less than 3600 seconds have passed since it was issued |
| AuthMiddleware.Decode | middleware/auth.js:5-17 | Claims are obtained exactly when the cookie holds a non-empty token that the verifier accepts, and they are the verifier's claims |
| AuthMiddleware.AttachIdentity | middleware/auth.js:4-20 | The soft middleware always continues. It attaches null when there is no token or verification fails, and otherwise the full decoded claims |
| AuthMiddleware.Guard | servers/routes/admin.js:12-22 | The guard redirects to `/admin` when the token is missing or empty, or fails verification for any reason. Otherwise it continues with `{ _id: userId }` marked authenticated |
| AuthMiddleware.GuardAgreesWithAttachment | servers/routes/admin.js:12-22 | The guard continues exactly when the soft middleware attaches an identity, and both name the same user id |
| AuthMiddleware.GuardRejectsEveryFailure | servers/routes/admin.js:13-17 | Every verification failure reason leads to the same redirect as a missing token |
| PostModel.SkipWhitespace | servers/models/post.js:8 | The index of the first non-whitespace character from a start position, with only whitespace skipped |
| PostModel.BackWhitespace | servers/models/post.js:8 | The end of the last non-whitespace character, with only whitespace dropped |
| PostModel.Trim | servers/models/post.js:8 | The trimmed title is empty or starts and ends with a non-whitespace character, and it is no longer than the input |
| PostModel.TrimIsMiddle | servers/models/post.js:8 | The trimmed string is a contiguous middle part of the input, and everything cut from either end is whitespace |
| PostModel.TrimBlank | servers/models/post.js:5-9 | A title trims to the empty string exactly when it is all whitespace |
| PostModel.TrimKeepsInner | servers/models/post.js:8 | A string with non-whitespace at both ends is stored unchanged |
| PostModel.TrimIdempotent | servers/models/post.js:8 | Trimming twice is trimming once |
| PostModel.TitleRequired | servers/models/post.js:5-9 | The trimmed title passes `required` exactly when a title is given and is not all whitespace |
| PostModel.ValidationErrors | servers/models/post.js:3-22 | Each of title, description and user is reported failing exactly when missing. For the title, all-whitespace also fails; for the description, empty also fails |
| PostModel.NewPost | servers/models/post.js:3-31 | Construction fails exactly when some required path fails, and reports all of them. On success it stores the trimmed title, the verbatim description and the owner. The image is `''` when omitted, kept when `null` or given. `date`, `createdAt` and `updatedAt` are the creation time |
| PostModel.BlankTitleRejected | servers/models/post.js:5-9 | An empty or whitespace-only title is rejected whatever the other fields are |
| PostModel.DescriptionKeptVerbatim | servers/models/post.js:10-17 | Any non-empty description, whitespace included, is stored as given, and the omitted image defaults to `''` |
| PostStore.EntriesBelow | servers/routes/admin.js:89 | Enumerates exactly the stored posts with id below the bound, in increasing id order |
| PostStore.OwnedBy | servers/routes/admin.js:89 | The `{ user: owner }` filter keeps exactly the owner's entries, in order |
| PostStore.SortDesc | servers/routes/admin.js:89 | Sorting newest first yields a permutation of its input ordered by the chosen date field, descending |
| PostStore.InsertDescSorted | servers/routes/admin.js:89 | Inserting into a newest-first sequence keeps it newest first |
| PostStore.SortDescUnique | servers/routes/admin.js:89 | Sorting never duplicates a post |
| PostStore.ListByOwner | servers/routes/admin.js:89 | The dashboard lists exactly the acting user's posts, each once, ordered by `date` descending, as a permutation of the owner-filtered collection |
| PostStore.FindOwned | servers/routes/admin.js:116-117 | The edit form finds a post exactly when it exists and belongs to the acting user |
| PostStore.NotFoundIndistinguishable | servers/routes/admin.js:116-117 | Another user's post and a missing post both give "not found" |
| PostStore.CreatePost | servers/routes/admin.js:103-106 | Create fails exactly when validation fails, and reports every failing path. Otherwise it adds exactly one post under a fresh id and changes nothing else. The post is owned by the guard's user and is valid. It holds the trimmed title, the description as given, and image `/uploads/<file>` or `null`. Its `date`, `createdAt` and `updatedAt` are all the creation time |
| PostStore.UpdateOwnedAsWritten | servers/routes/admin.js:127-130 | The edit as written. No key is added or removed, and every other post is unchanged. On a mismatch the store is unchanged. The owned post gets the trimmed title, the given description, the image only when a file is uploaded, and a refreshed `updatedAt`; owner and creation dates are kept |
| PostStore.PatchErrors | servers/models/post.js:5-13 | A patch fails validation exactly when it sets a blank title or an empty description |
| PostStore.UpdateOwned | servers/routes/admin.js:127-130 | The corrected edit refuses exactly the patches that blank a required field. Otherwise it is the owner-filtered update |
| PostStore.UpdateOwnedPreservesValidity | servers/routes/admin.js:127-130 | A validated edit keeps every stored post valid |
| PostStore.UpdateAsWrittenStoresBlankTitle | servers/routes/admin.js:128-130 | Editing a valid post with title `"   "` as written, at any time, stores title `""`, which no create could produce |
| PostStore.UpdateOwnedRefusesBlankTitle | servers/routes/admin.js:127-130 | The corrected edit refuses every whitespace-only title |
| PostStore.DeleteOwned | servers/routes/admin.js:140 | Delete removes exactly the post matching both id and owner and nothing else, and on a mismatch leaves the store unchanged |
| PostStore.DeleteOwnedScope | servers/routes/admin.js:140 | After a delete the target is gone for its owner, and every other lookup is unaffected |
| PostStore.ForeignWritesAreNoOps | servers/routes/admin.js:130-140 | A non-owner's update or delete of a post is a no-op, and the owner still finds it |
| PostStore.CreateKeepsIdsBelow | servers/routes/admin.js:105-106 | Create keeps every id below the id counter |
| PostStore.CreateKeepsPostsValid | servers/routes/admin.js:105-106 | Create keeps every stored post valid |
| PostStore.DeletePreservesInvariants | servers/routes/admin.js:140 | Delete keeps ids below the counter and every post valid |
| Accounts.FindByUsername | servers/routes/admin.js:49 | The lookup finds nothing exactly when no user has that name, and otherwise returns a stored user with that name |
| Accounts.FindByUsernameUnique | servers/routes/admin.js:67 | With unique names, looking up a user's name returns that user |
| Accounts.Register | servers/routes/admin.js:46-56 | A taken name sets "Username already taken", adds nobody, skips hashing and redirects to `/admin/register`. Otherwise exactly one user is appended with the hashed password, and the client is redirected to `/admin` |
| Accounts.RegisterPreservesValid | servers/routes/admin.js:49-55 | Registration keeps usernames unique and user ids strictly increasing along the collection, hence distinct, and below the id counter |
| Accounts.SecondRegistrationFails | servers/routes/admin.js:49-53 | Registering the same name a second time is always refused and leaves the users unchanged |
| Accounts.Login | servers/routes/admin.js:64-79 | A known name with a matching password gets an httpOnly cookie holding the signed one-hour claims for that user's id and a redirect to the dashboard. Every other attempt gets "Invalid username or password", no cookie and a redirect to `/admin` |
| Accounts.LoginFailuresIndistinguishable | servers/routes/admin.js:68-75 | An unknown username and a wrong password produce identical outcomes |
| Accounts.RegisteredUserCanLogIn | servers/routes/admin.js:54-79 | A freshly registered user logs in with the same password and receives a token for the new id |
| Accounts.ConsumeFlash | servers/routes/admin.js:35-36 | A render shows the pending flash message and clears it from the session |
| Accounts.FlashShownOnce | servers/routes/admin.js:35-36 | The render after that shows no message |
| PublicListing.PageCount | servers/routes/main.js:20 | `ceil(count / 6)`: the fewest pages of six that hold all posts |
| PublicListing.NextPage | servers/routes/main.js:19-20 | The next-page link is `page + 1` exactly when `6 * page < count`, and null otherwise |
| PublicListing.Window | servers/routes/main.js:14-15 | Skip/limit returns the consecutive run of at most six entries starting at the skip offset |
| PublicListing.Listing | servers/routes/main.js:13 | The listing holds every stored post, not owner-filtered, as a permutation of the collection, ordered by `createdAt` descending |
| PublicListing.Home | servers/routes/main.js:10-26 | The page defaults to 1. The view shows the window at `6 * page - 6` and the next-page link. A page below 1 (a negative `$skip`), or one whose `$skip` exceeds the signed 64-bit maximum (a page above 1537228672809129302), gives no response |
| PublicListing.ListingCount | servers/routes/main.js:18 | The listing has one entry per stored post, so its length is the document count |
| PublicListing.NextPageIffMorePosts | servers/routes/main.js:19-26 | A next-page link is offered exactly when the next page would show at least one post |
| PublicListing.FirstPagesArePrefix | servers/routes/main.js:14-15 | Pages 1 to k together show the first 6k posts, in order, with no gap or repeat |
| PublicListing.PagesCoverListing | servers/routes/main.js:13-20 | Paging from 1 to `ceil(count / 6)` shows every post exactly once |
| PublicListing.Sanitize | servers/routes/main.js:63 | The sanitised term holds only ASCII letters, digits and spaces (so no regular-expression metacharacter), and it is a subsequence of the input |
| PublicListing.SanitizeAppend | servers/routes/main.js:63 | Sanitising works character by character: it distributes over concatenation |
| PublicListing.SanitizeKeepsAllowed | servers/routes/main.js:63 | A term of allowed characters is left unchanged |
| PublicListing.SanitizeIdempotent | servers/routes/main.js:63 | Sanitising twice is sanitising once |
| PublicListing.ContainsIffOccurs | servers/routes/main.js:67-68 | The literal scan succeeds exactly when the pattern occurs at some position of the text |
| PublicListing.MatchesIffOccurs | servers/routes/main.js:65-70 | A post matches exactly when the case-folded term occurs in its case-folded title or description |
| PublicListing.EmptyTermMatchesAll | servers/routes/main.js:63-70 | A term that sanitises to nothing matches every post |
| PublicListing.MatchingPosts | servers/routes/main.js:65-70 | The filter keeps exactly the matching entries, in order |
| PublicListing.Search | servers/routes/main.js:62-70 | With a term present, search returns exactly the stored posts matching the sanitised term on title or description. A missing term gives no response |
| AdminRouter.Protected | servers/routes/admin.js:40-146 | The guarded handlers for the guard's user. The register form shows and clears the flash. The dashboard lists the user's own posts. Create stores the validated post and redirects, or answers "Error creating post" with nothing changed. The edit form shows the user's own post or "not found". Edit applies the unvalidated owner-filtered update and delete the owner-filtered delete, and both redirect to the dashboard. No handler changes the accounts or the cookie |
| AdminRouter.HandleAdmin | servers/routes/admin.js:34-151 | Views see the soft middleware's claims. The login page shows and clears the flash. Login and registration apply their decisions to the state, session, cookie and redirect. Logout clears the `token` cookie and redirects to `/admin`, changing nothing else. A guarded route without a valid token changes nothing and redirects to `/admin`; with one, it runs the guarded handler for the token's user. Only registration changes the accounts. Ids stay below the counter |
| AdminRouter.OwnershipConfined | servers/routes/admin.js:101-146 | No request changes or removes a post whose owner is not the guard's user |
| AdminRouter.NewPostsOwnedByActor | servers/routes/admin.js:101-106 | Every post a request adds belongs to the guard's user |
| AdminRouter.CreateIgnoresClaimedOwner | servers/routes/admin.js:103-105 | A `user` field in the create form has no effect on the outcome |
| AdminRouter.StructurePreserved | servers/routes/admin.js:46-146 | Every route, as written, keeps usernames unique, user ids strictly increasing and below their counter, and post ids below their counter |
| AdminRouter.InvariantPreservedExceptEdit | servers/routes/admin.js:34-146 | Every route other than the edit route also keeps every stored post valid |
| AdminRouter.OwnerBlankEditBreaksValidity | servers/routes/admin.js:125-131 | When the owner of a valid post submits title `"   "` to the edit route as written, the post is stored with title `""` and the reply is the usual dashboard redirect |
| AdminRouter.HandleAdminCorrected | servers/routes/admin.js:125-135 | With validators on the edit update, a patch that blanks a required field is answered with "Error updating post" and changes nothing. Any other edit, and every other request, is handled exactly as written |
| AdminRouter.CorrectedInvariantPreserved | servers/routes/admin.js:34-146 | With validated edits, every route keeps unique usernames, strictly increasing user ids, ids below their counters and every post valid |
| AdminRouter.CorrectedRefusesBlankTitle | servers/routes/admin.js:125-135 | With validated edits, a signed-in user's whitespace-only title is refused and the state is unchanged |
| AdminRouter.RegistrationGuardQuirk | servers/routes/admin.js:40-56 | An anonymous client is turned away from `GET /admin/register` but can still create an account with `POST /admin/register` |
| AdminRouter.RegisterConflictShownOnLoginPage | servers/routes/admin.js:34-52 | For an anonymous client, the "Username already taken" redirect is bounced by the guard. The message is then shown, and cleared, by the login page |
| AdminRouter.FailedLoginMessageShownOnce | servers/routes/admin.js:34-75 | A failed login's message is shown on the next login page and not on the one after |
| AdminRouter.LoginOpensDashboardForOneHour | servers/routes/admin.js:12-22 | The cookie from a successful login opens the user's dashboard for less than one hour after issue, and is redirected after that |
| AdminRouter.ForeignPostUntouchable | servers/routes/admin.js:114-146 | Another user's post looks missing on the edit form. Editing it with any fields, blank ones included, or deleting it changes nothing, but the reply still redirects to the dashboard |

## Left out

- Token cryptography and the secret: JWT signing, signature checking and `jsonwebtoken` are the oracles `sign` and `verify`. A malformed token, a bad signature and an expired token are only reasons the verifier may give.
- bcrypt: hashing and comparing are the oracles `hash` and `compare`. The random salt is folded into `hash`. The round trip `compare(p, hash(p))` is a hypothesis of the lemma that uses it.
- MongoDB I/O: the collections are in-memory values. The check-then-insert race between two concurrent registrations is concurrency and is not modelled.
- Unexpected store failures: the `catch` branches for database errors ("Internal Server Error", "Error loading dashboard", "Error deleting post") are not modelled. Validation failures are modelled.
- Post ids: they are natural numbers, so the CastError of a malformed id in the URL does not arise.
- Uploads: multer's disk storage and its `Date.now()`-based file names are left out. An upload is the stored file name.
- `app.js` wiring is left out: the session store, static files, view engine and start-up. Only its effect is modelled: the soft middleware runs before every route.
- Rendering is left out: view data shapes, HTTP status codes, response text other than the error bodies, and `console` logging.
- The page parameter: a non-numeric or fractional `page` query is out of scope (the `parseInt`/NaN coercions). The parameter is an optional integer, where absent or empty means 1.
- PublicListing.Home: `6 * page - 6` is computed exactly, while JavaScript computes it in double precision. For pages above 2^53 the rounded `$skip` can differ from the exact one near the 64-bit bound. Such pages show no posts either way.
- Clock units: one integer clock serves both the token claims, in seconds, and the post dates, which the system stores as `Date.now()` milliseconds. Only the order of post dates matters in the model, so posts created within the same second tie. The order among ties is left unstated anyway.
- Regular expressions: full regex semantics and Unicode case folding are left out. The sanitised term has no metacharacters, so matching is a literal substring test with ASCII case folding. The few non-ASCII characters that `i` folds onto ASCII letters (such as the Kelvin sign) are not modelled.
- Other routes: `GET /post/:id` and `GET /about` read a single post or a static page and are not part of this model. `servers/models/user.js` is not part of this model either.
- Form fields: username and password are plain strings. A missing form field on login or registration is not modelled.
- Edit form fields: a title or description missing from the edit form leaves that field unchanged. This assumes Mongoose drops `undefined` keys from an update, which Mongoose 7 and later always do; earlier versions did so only with `omitUndefined`. The source does not pin the Mongoose version.
- PostStore.ListByOwner: the order among posts with equal `date` is not stated, because the source leaves it unspecified. The contract requires the store invariant that every id lies below the id counter.
- PublicListing.Listing: the order among posts with equal `createdAt` is not stated, for the same reason.
- Accounts.FindByUsername: the contract states that a user of that name is returned, not that it is the first in natural order. With unique usernames, which registration keeps, there is only one.

## Findings

| source | as written | input that shows it | evidently intended | confidence | as-written member | corrected member |
|---|---|---|---|---|---|---|
| servers/routes/admin.js:128-130 | The edit route calls `findOneAndUpdate` without `runValidators`. The title's trim setter still runs, but the `required` validators do not. An owned post can therefore be given title `""` (from a whitespace-only title) or an empty description | `POST /admin/edit/:id` by the owner, with title `"   "` | The edit is refused as create refuses it (the "Error updating post" 500) and the post is left unchanged | medium, not executed | PostStore.UpdateOwnedAsWritten and AdminRouter.HandleAdmin (shown by PostStore.UpdateAsWrittenStoresBlankTitle and AdminRouter.OwnerBlankEditBreaksValidity) | PostStore.UpdateOwned and AdminRouter.HandleAdminCorrected (proved by PostStore.UpdateOwnedPreservesValidity and AdminRouter.CorrectedInvariantPreserved) |
