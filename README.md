# The Gruv, modelled in Dafny

The Gruv is a set of small Go services behind an API gateway, with two JavaScript
front ends. This project models the parts that hold logic:

- the account-age rule for video comments (`VideoValidation`);
- the in-memory stores and their HTTP handlers:
  - comments and reports (`CommentService`);
  - events with per-user RSVPs (`EventService`);
  - the second events service, which reads times as `2006-01-02T15:04` text (`EventsService`, `TimeLayout`);
  - the in-memory branch of the user store (`UserService`);
- the gateway's configuration, route table and request rewrite (`Gateway`);
- the pure helpers of the event page (`WebApp`), the feed (`Feed`) and the theme context (`Theme`).

Each store is a class holding a `map`. Each handler is a method that returns the
status and the payload, and its `ensures` state how the map changes.

- A handler's body is one atomic step; the mutexes are not modelled.
- Headers, decoded request bodies, `uuid.New()`, `time.Now()` and the user's
  account age are parameters.
- A Go `for … range` over a map visits keys in an unspecified order. The model
  picks keys with `:|` and proves the result for every order
  (`Base.CollectValues`, `EventService.CountByStatus`).

Shared pieces:

- `Base`: `Option` and the map-collecting loop.
- `Http`: the status codes and an `Outcome` (status plus value, or status plus error message).
- `Text`: decimal rendering, `padStart` and ASCII lower-casing.
- `NetUrl`: Go's `url.Parse` as the gateway calls it on each target URL: which targets parse and the host they carry.

In the gateway, each group registers one wildcard route, `/*proxyPath`. The forwarded path is the wildcard capture, which begins with `/`. The handler overwrites `Request.URL.Path` and never restores it (`Gateway.MatchRoute`, `Gateway.ServeProxy`).

## Model

| member | source | states |
|---|---|---|
| VideoValidation.GetMaxVideoDuration | comment-service/video_validation.go:21-47 | uploads are allowed exactly from 540 days (18 months of 30 days); a refused account gets 0; an allowed one gets a multiple of 5 between 5 and 20, and exactly 20 from 36 months on |
| VideoValidation.DurationSteps | comment-service/video_validation.go:37-44 | in the k-th six-month period after 18 months (k < 3) the ceiling is 5·(k+1) seconds |
| VideoValidation.DurationMonotonic | comment-service/video_validation.go:15-20 | an older account is allowed whenever a younger one is, and never gets a smaller ceiling |
| VideoValidation.RecordedCases | comment-service/video_validation_test.go:8-128 | the table of expected ceilings and verdicts in the unit test (17, 18, 24, 30, 36 and 48 months) |
| VideoValidation.ValidateVideoUpload | comment-service/video_validation.go:50-62 | valid iff uploads are allowed and the length is at most the ceiling; a valid verdict has an empty message; a too-young account gets (false, age message, 0); a too-long video gets (false, limit message, ceiling) |
| VideoValidation.BoundaryIsInclusive | comment-service/video_validation.go:57-61 | a video of exactly the ceiling is accepted and one second longer is refused |
| Base.CollectValues | comment-service/handlers.go:123-138 | whatever the visiting order, every kept map entry is returned exactly once, each under its own key; when every entry is kept, the count equals the map size |
| CommentService.CommentStore.CreateComment | comment-service/handlers.go:46-114 | the video rule runs only for a non-empty URL with positive duration, and a refused video adds nothing; a reply to an unknown parent is refused with the store unchanged; otherwise exactly one comment is added under the fresh id, carrying the request's user, content, video URL and parent, and no existing comment or report changes |
| CommentService.CommentStore.GetComments | comment-service/handlers.go:117-144 | returns exactly the comments the query selects: all for no query, top-level ones and replies to a parent literally named "null" for "null", otherwise the replies to that parent; each once, with total equal to the count |
| CommentService.CommentStore.GetComment | comment-service/handlers.go:147-160 | the stored comment for a known id, 404 "Comment not found" otherwise |
| CommentService.CommentStore.DeleteComment | comment-service/handlers.go:163-193 | 401 without a user, 404 for an unknown id, 403 for a caller who is neither owner nor admin, each leaving the store unchanged; otherwise exactly that id is removed, and replies and reports stay |
| CommentService.CommentStore.ReportComment | comment-service/handlers.go:196-236 | 404 for an unknown comment with reports unchanged; otherwise exactly one report is added, with that comment id; comments never change |
| CommentService.CommentStore.GetReports | comment-service/handlers.go:258-277 | 403 "Admin access required" unless X-Is-Admin is "true"; for an admin every report once, with total equal to the number of reports |
| EventService.EventStore.CreateEvent | event-service/event_handlers.go:20-62 | 400 when the end is not after the start (equal times included), checked before the 401 for a missing user; on success exactly one event is added, created by the header's user, with an empty RSVP map and the request's fields |
| EventService.EventStore.GetEvents | event-service/event_handlers.go:65-78 | every stored event once, with total equal to the store size |
| EventService.EventStore.GetEvent | event-service/event_handlers.go:81-96 | the stored event for a known id, 404 otherwise |
| EventService.EventStore.UpdateEvent | event-service/event_handlers.go:99-160 | 401, 404 and 403 (not the creator) leave the store unchanged; otherwise only the fields present in the request are overwritten, and id, creator, RSVPs and creation time are kept; a merged end not after the start gives 400 and nothing is written |
| EventService.EventStore.DeleteEvent | event-service/event_handlers.go:163-193 | only the creator deletes; exactly that id is removed and other events are untouched; failures leave the store unchanged |
| EventService.EventStore.RsvpToEvent | event-service/rsvp_handlers.go:11-61 | 401 and 404 leave the store unchanged; refused when now is strictly after the end, allowed at the end itself; otherwise an upsert of the caller's one entry with the status stored verbatim, and no other user or event changes |
| EventService.EventStore.GetEventRsvps | event-service/rsvp_handlers.go:64-94 | 404 for an unknown event; otherwise one count per status present, each the number of users holding it, and total equal to the number of entries, which is the sum of the counts |
| EventService.CountByStatus | event-service/rsvp_handlers.go:82-86 | the counting loop: exactly the statuses present, each with its number of users, the counts summing to the number of entries |
| EventService.SumRemove | event-service/rsvp_handlers.go:82-92 | the sum of the counts splits into any one count plus the rest, so the counts sum to the entries counted |
| EventService.EventStore.RemoveRsvp | event-service/rsvp_handlers.go:97-129 | 404 when the caller has no entry, with the map unchanged; otherwise exactly that entry is removed (a second remove fails) and nothing else changes |
| TimeLayout.Parse | events-service/handlers.go:54-64 | what the layout `2006-01-02T15:04` accepts is a valid calendar reading (month, day of month with leap years, hour, minute) written in 16 characters, or 15 with a one-digit hour |
| TimeLayout.ParseInLayout | events-service/handlers.go:54-64 | 16 characters with digits and separators in the layout's places are accepted exactly when the fields they spell form a valid reading, and then give that reading |
| TimeLayout.BeforeIsStrictTotalOrder | events-service/handlers.go:67 | `Before` on parsed readings is irreflexive, asymmetric, transitive and total |
| EventsService.EventRoute | events-service/handlers.go:20-28 | GET `/events` selects GetEvents and POST `/events` CreateEvent; GET, PUT and DELETE `/events/:id` (one non-empty segment) select GetEventByID, UpdateEvent and DeleteEvent with that segment as the id; each iff, so anything else is unrouted |
| EventsService.EventsStore.GetEvents | events-service/handlers.go:31-43 | every stored event once |
| EventsService.EventsStore.CreateEvent | events-service/handlers.go:46-96 | an unparsable start, then an unparsable end, then an end strictly before the start each give 400 with the store unchanged (equal times pass); otherwise exactly one event is added, created by "system", with the parsed times and the request's fields |
| EventsService.EventsStore.GetEventById | events-service/handlers.go:99-112 | the stored event for a known id, 404 otherwise |
| EventsService.EventsStore.UpdateEvent | events-service/handlers.go:115-162 | 404 for an unknown id before any parsing; bad times give 400 with the store unchanged; otherwise every editable field is replaced, id, creator and creation time are kept, and the end is not checked against the start |
| EventsService.EventsStore.DeleteEvent | events-service/handlers.go:165-182 | no authorization: 404 for an unknown id, otherwise exactly that id is removed |
| UserService.UserStore.FindUserByEmail | user-service/service.go:20-33 | finds a user iff some stored email equals the query ignoring case, otherwise ErrNoDocuments; with distinct emails the user found is the only match |
| UserService.UserStore.FindUserById | user-service/service.go:47-57 | a key lookup: the stored user, or ErrNoDocuments |
| UserService.UserStore.CreateUser | user-service/service.go:71-90 | ErrUserExists with the store unchanged when any stored email matches ignoring case; otherwise a zero id is replaced by the fresh one, a non-zero id is kept, only that key is written, and emails stay pairwise distinct ignoring case |
| Text.ToLowerIdempotent | user-service/service.go:21 | lower-casing twice is lower-casing once, so comparing lowered emails is an equivalence |
| Gateway.GetEnvOrDefault | api-gateway/main.go:74-79 | the environment value when it is non-empty, otherwise the default |
| Gateway.LoadConfig | api-gateway/main.go:39-40 | each service URL is its environment variable when that is set and non-empty, otherwise the localhost default |
| Gateway.DefaultConfig | api-gateway/main.go:39-40 | with neither variable set the targets are http://localhost:8081 and http://localhost:8083 |
| NetUrl.GetScheme | api-gateway/main.go:16 | a scheme is split off only when a ':' follows a run of scheme characters that starts with a letter; a leading ':' is an error |
| NetUrl.ParseSchemeHost | api-gateway/main.go:16 | `scheme://host[:port]path` with a plain host, an all-digit port and a plain path parses to the lower-cased scheme, exactly that host and that path |
| NetUrl.UserinfoDropped | api-gateway/main.go:16 | valid `userinfo@` before the host is dropped: the host is the text after the last '@' |
| NetUrl.QueryIgnored | api-gateway/main.go:16 | the host ends at '?': a query leaves host and path as without it |
| NetUrl.FragmentIgnored | api-gateway/main.go:16 | the host ends at '#': a fragment with valid escapes leaves host and path as without it |
| NetUrl.BadPortRefused | api-gateway/main.go:16-19 | text after the host's last ':' that is not all digits is the "invalid port" error |
| NetUrl.CredentialsDropped | api-gateway/main.go:16 | `http://u:p@svc:8081` has host `svc:8081` |
| NetUrl.NonNumericPortRefused | api-gateway/main.go:16-19 | `http://localhost:80a1` does not parse |
| NetUrl.Parse | api-gateway/main.go:16 | a parsed host holds only host characters, '%' and non-ASCII characters, so never '/', '?', '#' or '@' |
| Gateway.ReverseProxy | api-gateway/main.go:15-21 | a handler is built iff the target parses, bound to the parsed URL; otherwise start-up is fatal with "Failed to parse target URL" |
| Gateway.NonNumericPortFatal | api-gateway/main.go:16-19 | a target with a non-numeric port stops the gateway at start-up |
| Gateway.Start | api-gateway/main.go:35-60 | the gateway runs iff both configured targets parse, each proxy bound to its own parsed target |
| Gateway.StartsWithDefaults | api-gateway/main.go:39-60 | with the defaults the gateway starts, proxying users to localhost:8081 and collaboration to localhost:8083 |
| Gateway.MatchRoute | api-gateway/main.go:43-60 | GET /health is the health route; any of the nine verbs under `/api/users/` or `/api/collaboration/` is a proxy route whose group followed by the capture is the path, the capture starting with `/`; anything else is unrouted |
| Gateway.ServeProxy | api-gateway/main.go:23-31 | the request's host becomes the target's host and its path becomes the capture, and neither is restored |
| Gateway.Handle | api-gateway/main.go:43-60 | health answers {API Gateway, UP} without a backend, a proxy route forwards to its group's target, any other request is not found |
| WebApp.DefaultTimes | web-service/static/app.js:50-52 | the default start is one hour after now and the default end one hour after the start |
| WebApp.FormatDateTimeLocal | web-service/static/app.js:84-92 | the text starts with the year in decimal and, for a calendar reading, has exactly twelve characters after it (the parser round trip is FormatIsParsed) |
| WebApp.SuffixShape | web-service/static/app.js:84-92 | after the year come `-MM-DDTHH:MM` with the one-based month and every field as two zero-padded digits |
| WebApp.FormatIsParsed | web-service/static/app.js:84-92 | for a four-digit year the text is 16 characters and events-service's parser reads back the same year, month, day, hour and minute |
| WebApp.FormatParsesOnlyFourDigitYears | web-service/static/app.js:91 | events-service accepts the formatted text iff the year has four digits |
| WebApp.FormattedRangeAccepted | web-service/static/app.js:54-55 | two formatted readings with the end not before the start pass events-service's create checks |
| WebApp.EventData | web-service/static/app.js:97-112 | the location carries key `url` iff the type is 'online', `address` otherwise, with the form's location value; rsvp_enabled iff the value is exactly 'on'; the other fields are the form's values or null |
| WebApp.LocationLandsInOneField | web-service/static/app.js:105-108 | decoded by events-service, the location value lands in URL for an online event and in Address otherwise, never both |
| WebApp.DisplayEvents | web-service/static/app.js:158-172 | a missing or empty list shows the placeholder; otherwise one card per event, in input order |
| WebApp.CreateEventCard | web-service/static/app.js:174-204 | an image only for a non-empty image URL; the description or 'No description provided.'; the location label; the RSVP badge iff enabled |
| WebApp.LocationText | web-service/static/app.js:177-179 | an online event shows the fixed online label; otherwise the pin prefix followed by the address, or 'Physical Location' when it is empty |
| WebApp.LocationTextDistinguishes | web-service/static/app.js:177-179 | the label is the online label iff the event is online |
| Theme.ThemeFor | frontend/src/contexts/ThemeContext.jsx:74 | the named theme for male, female, other and default, the default theme for anything else |
| Theme.UnknownGenderIsDefault | frontend/src/contexts/ThemeContext.jsx:74 | any gender other than the three names gets the default theme |
| Theme.SharedColoursAgree | frontend/src/contexts/ThemeContext.jsx:4-57 | surface, text, textSecondary, success, warning and error are the same in every theme |
| Theme.ThemesDiffer | frontend/src/contexts/ThemeContext.jsx:6-45 | the four themes have four different primary colours |
| Theme.EntriesOf | frontend/src/contexts/ThemeContext.jsx:80 | every theme lists the same eleven keys in the same order |
| Theme.ThemeVars | frontend/src/contexts/ThemeContext.jsx:79-82 | applying a theme writes exactly `--color-<key>` for its eleven keys, each holding that key's colour |
| Theme.SwitchOverwrites | frontend/src/contexts/ThemeContext.jsx:79-82 | applying one theme after another leaves nothing of the first |
| Theme.ThemeProvider.UpdateTheme | frontend/src/contexts/ThemeContext.jsx:73-83 | records the argument as the gender even when it names no theme, selects the theme with fallback, and adds one property per entry to the style and changes nothing else |
| Theme.ThemeProvider.constructor | frontend/src/contexts/ThemeContext.jsx:70-88 | starts with gender 'default' and the default theme, and the mount effect applies it |
| Feed.AvatarMatchesTheme | frontend/src/components/Feed.jsx:50-57 | the avatar colour of every gender is the primary colour of the theme that gender selects, #374151 for unknown genders |
| Feed.AgoOf | frontend/src/components/Feed.jsx:59-69 | minutes below one hour, hours below one day, days otherwise, each the floor of the difference over the unit |
| Feed.FormatTimestamp | frontend/src/components/Feed.jsx:59-69 | the label ends in 'm ago', 'h ago' or 'd ago' as AgoOf picks the unit, and for a past timestamp the digits before it read back as AgoOf's count |
| Feed.AgoMonotonic | frontend/src/components/Feed.jsx:59-69 | an older post never shows a finer unit or a smaller count in the same unit |
| Feed.HandleLike | frontend/src/components/Feed.jsx:94-100 | the matching posts gain one like; every other post, the length and the order are unchanged |
| Feed.LikeTotal | frontend/src/components/Feed.jsx:94-100 | the total number of likes grows by the number of posts carrying the id |
| Feed.LikeAddsOne | frontend/src/components/Feed.jsx:94-100 | in a feed numbered 1..n, liking a listed id adds exactly one like, and liking another id changes nothing |
| Feed.TrimEmptyIffBlank | frontend/src/components/Feed.jsx:73 | a draft is ignored exactly when all its characters are JavaScript white space |
| Feed.NewPost | frontend/src/components/Feed.jsx:79-86 | id n+1, no likes, the text and time given; the user's name and gender when non-empty, otherwise 'You' and 'default' |
| Feed.HandleSubmit | frontend/src/components/Feed.jsx:71-92 | a blank draft changes nothing; otherwise the new post goes first, with id n+1, no likes, the untrimmed text, the current time and the name and gender with their 'You' and 'default' fallbacks, ahead of the unchanged list |
| Feed.OrElse | frontend/src/components/Feed.jsx:81-82 | the fallback ('You', 'default') exactly when the value is missing or empty |
| Feed.SubmitKeepsNumbering | frontend/src/components/Feed.jsx:79-88 | posting keeps the ids exactly 1..n |
| Feed.LikeKeepsNumbering | frontend/src/components/Feed.jsx:94-100 | liking keeps the ids exactly 1..n |
| Feed.FeedState.Like | frontend/src/components/Feed.jsx:94-100 | `setPosts` replaces the list with HandleLike of it, keeping the ids 1..n |
| Feed.FeedState.Submit | frontend/src/components/Feed.jsx:71-92 | `setPosts` replaces the list with HandleSubmit of it, keeping the ids 1..n |

## Left out

- Mutexes and concurrency. Each handler is one atomic step.
- Gin request binding and validation tags (`binding:"required"`, e-mail and length checks), JSON encoding, and header reading. Handlers take decoded values and header strings.
- JSON `null` for a Go nil slice: an empty listing is modelled as an empty sequence.
- `time.Now()`, `uuid.New()` and `primitive.NewObjectID()`: they are parameters.
  - In event-service, times are abstract integers.
  - In events-service, times are the parsed wall-clock readings.
- VideoValidation.GetMaxVideoDuration: takes the account age in whole days. The float conversion `Hours() / 24` is not modelled.
- GetVideoValidation's `accountAge` in 30.44-day months (comment-service/handlers.go:253): floating point.
- The `getUserByID` mock (comment-service/handlers.go:31-43): a stub. The account age is an input of `CreateComment`, and the 500 on a failed lookup is not modelled.
- The float `Coordinates` of an event-service location (event-service/models.go:40-43).
- Mongo branches of user-service/service.go, config.go, bcrypt, JWT and user-service/handlers.go: databases and external libraries. User ids are plain strings.
- Text.ToLower: lower-cases ASCII letters only. Go's `strings.ToLower` also folds other Unicode letters.
- NetUrl.Parse: a bracketed host (an IPv6 literal such as `[::1]:8081`) is refused. Go accepts one whose brackets close and whose port is numeric, so such a target is fatal here but not in Go.
- NetUrl.Parse: a host escape from `%80` to `%FF` decodes to the character with that code. Go decodes it to a raw byte, so a multi-byte UTF-8 escape gives a different host string.
- NetUrl.Parse: the path is kept as written, not unescaped, and the opaque part, the query, the fragment and the userinfo are checked but not recorded. The handler reads only the host.
- Gateway.MatchRoute: gin's redirect of `/api/users` to `/api/users/` and its 405 handling are not modelled. Such requests count as unrouted.
- `httputil.NewSingleHostReverseProxy` and `ServeHTTP`: network I/O, hop-by-hop headers and error mapping. A proxied request ends as a `Forwarded` reply carrying the rewritten host and path.
- The DOM and HTML markup in app.js:
  - `innerHTML`;
  - modal display;
  - `updateLocationField` labels;
  - `showMessage` and its five-second removal;
  - the locale start and end lines of a card.
- The fetch calls in app.js (`createEvent`, `loadEvents`) and their error messages: network I/O.
- WebApp.DefaultTimes: gives epoch milliseconds. The conversion to local calendar fields depends on the time zone and is not modelled; `FormatDateTimeLocal` takes the fields.
- WebApp.LocationText: the globe and pin labels are kept character for character as the source file holds them. The file stores the two emoji mis-decoded, as U+F8FF followed by Latin letters.
- Theme.ThemeFor: the JavaScript lookup `themes[gender]` also finds inherited object keys such as `constructor`. The model treats every name other than the four themes as unknown.
- React rendering and state hooks in Feed.jsx and ThemeContext.jsx. The posts list and the provider state are class fields replaced by the same values React would set.
- Feed.HandleSubmit: the one-second `setTimeout`, the `isPosting` flag and the stale `posts` captured by the timer are not modelled. A submit applies at once to the current list.
- The mock posts loaded on mount in Feed.jsx: demonstration data.
