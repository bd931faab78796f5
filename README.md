# FocusForge focus tracker and progress server, modelled in Dafny

FocusForge is a browser focus tracker with a small account server. The
page counts screen time once a second. A second counts as focused, and
earns half a point, unless the tab has been hidden for 60 seconds. Then
the page opens an inactivity prompt and counts one distraction. Points buy
avatar items from a fixed shop catalogue. The server keeps accounts (a
password hash and the last saved progress snapshot), login sessions keyed
by a random token in a cookie, and the JSON API that loads and saves
progress.

The model follows the `origin/main` side of `app.js`, the side that talks
to `server.js` (the file still holds merge-conflict markers). Its modules:

- `Wrappers` — `Option`.
- `Snapshot` — the progress record, its invariants (`points ≥ 0`, no
  duplicate owned ids, every equipped id owned, focus ≤ total), the
  default snapshot, and the `??` defaulting. The client's `applyProgress`
  and the server's `saveProgressForUser` share this defaulting, proved as
  a round trip with `serializeProgress`.
- `Economy` — the shop catalogue, buying and equipping as functions on
  the record, and the rule that enables a shop button.
- `Monitor` — the client's whole state as a value: the inactivity
  detector, `onActiveSignal`, `tick`, buying and equipping with their save
  requests. Event sequences are run over it, with lemmas about idle
  episodes and focus accounting.
- `Client` — the page's `state` record as the class `Tracker`. Its methods
  update the fields in place as the source does. Each is proved to reach
  the state the matching `Monitor` function describes.
- `Format` — `formatSeconds` and the displayed point count.
- `Cookies` — `parseCookies`: split on `;`, trim, drop empty parts, split
  each pair at its first `=`, and later names win.
- `Backend` — the server as the class `Server`, with the `users` database
  and the `sessions` table, one method per API route, the
  progress-saving helper and the session lookup.

Points are exact `real`s: they move in steps of 0.5 and costs are whole
numbers, so no rounding arises. A save request is recorded in the
`flushes` log as the snapshot it carries. `Remote` stands for
`saveProgress` (and the unload beacon), `Local` for `saveState`. The clock
(`Date.now()`), `document.hidden`, the password hash and the fresh session
token are inputs. The hash is a function value fixed when the server is
built.

## Model

| member | source | states |
|---|---|---|
| Snapshot.DefaultProgress | server.js:79-88 | the default snapshot has zero screen time, focus time, distractions and points, owns nothing, wears nothing and satisfies every record invariant |
| Snapshot.Normalize | app.js:114-119 | a payload with all six fields loads with its owned list and points kept as given |
| Snapshot.Serialize | app.js:123-132 | a serialized record has all six fields and loads back to the same record |
| Snapshot.SerializeAfterNormalize | app.js:114-132 | loading then serializing gives back the payload exactly when it had all six fields |
| Snapshot.NormalizeEmpty | app.js:450 | loading `{}`, as logout does, yields the default snapshot |
| Snapshot.NormalizeDefaults | server.js:94-99 | each missing field becomes 0, `[]` or the empty slots; a non-array `owned` becomes `[]`; given fields are kept |
| Economy.Purchase | app.js:235-238 | an owned or unaffordable item changes nothing; otherwise points drop by the cost, the id is appended, its slot is set, nothing else changes; the record invariants are kept |
| Economy.Equip | app.js:260-261 | an unowned item changes nothing; otherwise only the item's slot changes, to its id; the invariants are kept |
| Economy.OwnItem | app.js:230-232 | an item is owned when its id is in the owned list |
| Economy.CanBuy | app.js:235 | the purchase goes ahead when the item is not owned and the points are not below its cost |
| Economy.CanBuyIffPurchaseChanges | app.js:234-238 | the guard lets a purchase through exactly when the purchase changes the record |
| Economy.EquipIdempotent | app.js:259-261 | equipping the same item twice is the same as once |
| Economy.PurchaseOnce | app.js:234-238 | a second purchase of the same item changes nothing |
| Economy.ButtonEnabled | app.js:293-300 | an unowned item's button is enabled when the points cover its cost, an owned item's when it is not worn |
| Economy.Click | app.js:296-300 | a click on an item's button buys the item when it is not owned and equips it otherwise |
| Economy.ButtonEnabledIffEffective | app.js:293-300 | a shop button is enabled exactly when clicking it would change the record |
| Economy.CrownPurchaseScenario | app.js:234-238 | with 45 points the 40-point crown is bought, worn, and leaves 5 points |
| Economy.EquipUnownedScenario | app.js:260 | equipping an item not owned leaves the default record as it is |
| Monitor.CheckInactivity | app.js:316-349 | the idle timestamp is set on the first hidden check and never moved; no timestamp means not distracted; with the prompt closed, distracted iff 60 s have passed; with it open, always distracted and nothing changes; the count rises by one on the opening edge only, with a save to both tiers |
| Monitor.SaveProgress | app.js:165-175 | only the save log changes: one server save of the current snapshot when someone is logged in, nothing otherwise |
| Monitor.SaveState | app.js:185-197 | only the save log changes: one local save of the current snapshot |
| Monitor.OnActiveSignal | app.js:308-314 | activity clears the idle timestamp and closes the prompt, changing nothing else: the next visible check is not distracted and the next hidden one starts a new timestamp |
| Monitor.Tick | app.js:351-370 | logged out nothing changes; otherwise total +1, focus +1 and points +0.5 exactly when not distracted, the distraction count and episode state those the detector leaves, items and user unchanged, the invariants kept |
| Monitor.TickSaves | app.js:357-369 | a tick's save requests are exactly the detector's, made on the record with the second counted, then one server save of the new snapshot when the total is a multiple of ten; earlier requests are kept |
| Monitor.BuyItem | app.js:234-257 | the record becomes the purchase's result; a refused purchase changes nothing; a purchase by a logged-in user adds exactly one server save of the new snapshot, otherwise no save is made; the invariants are kept |
| Monitor.EquipItem | app.js:259-272 | the record becomes the equip's result; an unowned item changes nothing; an owned one adds a server save (when logged in) and then a local save, both of the new snapshot; the invariants are kept |
| Monitor.RunWellformed | app.js:351-362 | every event sequence keeps the invariants, so focus time never exceeds screen time |
| Monitor.VisibleTicksAreFocused | app.js:357-362 | with the tab visible and no episode open, n ticks add n seconds of total and focus time and n/2 points |
| Monitor.TenFocusedTicks | app.js:357-362 | ten focused ticks after login give total 10, focus 10 and 5 points |
| Monitor.HiddenStretch | app.js:316-349 | within a hidden stretch: one more second per tick, focus only before the 60 s mark, one distraction on crossing it |
| Monitor.OneDistractionPerEpisode | app.js:334-348 | an n-second hidden stretch counts exactly one distraction when n > 60 and none otherwise, and at most 60 focused seconds |
| Monitor.SixtyFiveHiddenSeconds | app.js:334-348 | 65 hidden seconds give one distraction, 65 s total, 60 s focus and 30 points |
| Monitor.TwoEpisodes | app.js:308-313 | an activity signal between two long hidden stretches makes them count two distractions |
| Client.Tracker.constructor | app.js:23-37 | the page starts with zero progress, no episode, nobody logged in and no saves |
| Client.Tracker.ApplyProgress | app.js:114-119 | every progress field is overwritten with the loaded snapshot and nothing else changes |
| Client.Tracker.SerializeProgress | app.js:123-132 | the snapshot has all six fields and loads back to the record |
| Client.Tracker.OwnItem | app.js:230-232 | true exactly when the id is in the owned list |
| Client.Tracker.SaveProgress | app.js:165-175 | a server save of the current snapshot is requested exactly when someone is logged in |
| Client.Tracker.SaveProgressBeacon | app.js:177-183 | at unload the same request is made, when the browser offers beacons |
| Client.Tracker.SaveState | app.js:185-197 | a local save of the current snapshot is requested |
| Client.Tracker.BuyItem | app.js:234-257 | the object reaches `Monitor.BuyItem`'s state; the repeated guard stops a second purchase |
| Client.Tracker.EquipItem | app.js:259-272 | the object reaches `Monitor.EquipItem`'s state |
| Client.Tracker.OnActiveSignal | app.js:308-314 | the object reaches `Monitor.OnActiveSignal`'s state |
| Client.Tracker.CheckInactivity | app.js:316-349 | the object and the answer are those of `Monitor.CheckInactivity` |
| Client.Tracker.Tick | app.js:351-370 | the object reaches `Monitor.Tick`'s state |
| Client.Tracker.SignIn | app.js:404-410 | after login the user is set and the returned snapshot loaded |
| Client.Tracker.SignOut | app.js:443-450 | a last server save, then nobody logged in and the default snapshot; the invariants are kept |
| Format.Digits | app.js:98-100 | `String(n)` of a whole number is one or more digits, a single one exactly below 10 |
| Format.ValueOfDigits | app.js:98-100 | the digits of n read back as n |
| Format.NumberString | app.js:98-100 | `String(n)`: a minus sign for a negative number, then the digits of its magnitude |
| Format.NumberStringReadsBack | app.js:98-100 | `String(n)` reads back as n: digits only for n ≥ 0, a minus sign and the digits of −n for n < 0 |
| Format.PadStart2 | app.js:98-100 | `padStart(2, '0')` gives max(2, length) characters |
| Format.PadStart2Pads | app.js:98-100 | the padded string ends with the original and everything in front is `0` |
| Format.JsRem | app.js:98-99 | JavaScript's `%` with a positive divisor: below the divisor in size, with the dividend's sign, Dafny's `%` for a non-negative dividend and the negated remainder of the magnitude otherwise |
| Format.TwoDigitField | app.js:98-99 | a field below 100 pads to exactly two digits that read back as its value |
| Format.HoursField | app.js:100 | the hours field has at least two digits and reads back as the hours |
| Format.ClockArithmetic | app.js:98-100 | hours·3600 + minutes·60 + seconds recombine to the input |
| Format.FormatSeconds | app.js:97-102 | a non-negative count renders to at least eight characters |
| Format.FormatSecondsReadsBack | app.js:97-102 | `HH:MM:SS` with two-digit minutes and seconds in 0-59 and h·3600 + m·60 + s equal to the input |
| Format.FormatSecondsExample | app.js:97-102 | 3725 seconds render as `01:02:05` |
| Format.DisplayedPoints | app.js:227 | the shown point count is the largest whole number not above the points |
| Cookies.TrimStart | server.js:39 | removes exactly the leading whitespace |
| Cookies.TrimEnd | server.js:39 | removes exactly the trailing whitespace |
| Cookies.Trim | server.js:39 | `trim()`: the leading, then the trailing white space removed |
| Cookies.TrimSlice | server.js:39 | `trim()` keeps a middle slice of the string |
| Cookies.TrimEnds | server.js:39 | the kept slice is empty or neither starts nor ends with white space |
| Cookies.TrimRemovesSpace | server.js:39 | everything removed after the kept slice is white space |
| Cookies.TrimLeadingSpace | server.js:39 | a space before a string with nothing to trim is removed and the string kept |
| Cookies.IndexOf | server.js:42 | the first position of the character, or -1 when it is absent |
| Cookies.Split | server.js:38 | at least one part, none containing the separator |
| Cookies.JoinSplit | server.js:38 | joining the parts with the separator gives back the input |
| Cookies.SplitConcat | server.js:38 | splitting `a;b` gives the parts of `a` then the parts of `b` |
| Cookies.TrimmedParts | server.js:39-40 | no kept part is empty |
| Cookies.TrimmedPartsSingle | server.js:39-40 | one part yields its trimmed text, or nothing when that is empty |
| Cookies.TrimmedPartsConcat | server.js:39-40 | trimming and filtering work part by part |
| Cookies.ParsePair | server.js:41-44 | with an `=`, the name has none and name `=` value rebuilds the pair; without one, the value is the whole pair and the name drops its last character |
| Cookies.SplitAtFirst | server.js:42-43 | cutting at the first `=` leaves a name without `=` and loses nothing |
| Cookies.TrimKeeps | server.js:39 | a part with no whitespace at either end is kept as it is |
| Cookies.ParsePairAt | server.js:41-44 | a pair whose name has no `=` splits back into that name and value |
| Cookies.ParseCookiesOnePart | server.js:35-46 | a header of one part with nothing to trim yields that part's one cookie |
| Cookies.ParsePairs | server.js:41-44 | one pair per part, in order |
| Cookies.ParseCookies | server.js:35-46 | the pairs of the non-empty trimmed `;`-parts, collected into a map |
| Cookies.FromEntries | server.js:36 | the keys are exactly the names of the pairs |
| Cookies.FromEntriesLastWins | server.js:36 | a name maps to the value of its last pair |
| Cookies.ParseCookiesLastWins | server.js:35-46 | a repeated cookie name takes its last value |
| Cookies.ParseCookiesConcat | server.js:35-46 | two headers joined by `;` parse to the union of their cookies, the later winning |
| Cookies.ParseCookiesLeadingSpace | server.js:38-40 | a space in front of a part changes none of its cookies |
| Cookies.ParseCookiesAfter | server.js:38-40 | a part after `; ` adds its cookies to those of the header before it |
| Cookies.ParseCookiesAppend | server.js:35-46 | `header; name=value` yields the header's cookies with `name` set to `value`, whatever the header holds |
| Cookies.ParseCookiesSingle | server.js:35-46 | `name=value` parses to that one cookie, even when the value holds `=` |
| Cookies.ParseCookiesEmpty | server.js:35 | a missing header has no cookies |
| Cookies.ParseCookiesBare | server.js:42-43 | a part without `=` maps its name less one character to the whole part |
| Backend.SaveFor | server.js:90-102 | an unknown user leaves the accounts alone; a known one gets the defaulted snapshot and keeps its hash; no other account changes |
| Backend.SaveForIdempotent | server.js:90-102 | saving the same snapshot twice equals saving it once |
| Backend.SaveForLastWins | server.js:93-99 | a later save replaces an earlier one whole |
| Backend.RegisterStatusAsWritten | server.js:116-119 | the register answer as written: 400 without a username or password; off the inherited names 409 exactly for an existing account and 201 otherwise; 409 for every inherited name |
| Backend.PrototypeNameRefused | server.js:119 | as written, registering `toString` on an empty database answers 409 |
| Backend.SessionCookieRoundTrip | server.js:134-136 | the cookie set at login brings its token back to the session lookup |
| Backend.SessionCookie | server.js:136 | the `session_token=<token>` pair the login response sets (a hex token is unchanged by `encodeURIComponent`) |
| Backend.HexToken | server.js:31-33 | the assumption the model makes about the token generator: `createToken` yields 48 lower-case hex digits (24 random bytes) |
| Backend.SessionToken | server.js:73-75 | the `session_token` cookie of the header when it is there and not empty |
| Backend.SessionCookieAfterOthers | server.js:73-75 | the login cookie is found after any other cookies the browser sends before it |
| Backend.RegisterLoginSaveReload | server.js:114-150 | register, login, save through the cookie, then `/api/session` returns the saved snapshot, defaulted |
| Backend.Server.constructor | server.js:11-13 | a fresh server has no users and no sessions |
| Backend.Server.UsernameFromSession | server.js:72-77 | a user exactly when the cookie carries a non-empty `session_token` known to the table, and then its user |
| Backend.Server.Register | server.js:114-124 | 400 without username or password, 409 for an existing user, each changing nothing; otherwise 201 and exactly one new account with the password's hash and the default snapshot |
| Backend.Server.Login | server.js:126-138 | 200 exactly when the user exists and the hash matches, mapping the fresh token to the user and returning the stored or default snapshot; 500 when an existing user sends no password; otherwise 401; sessions change only on success; accounts never |
| Backend.Server.Logout | server.js:140-144 | 200; exactly the presented token is forgotten and every other session kept |
| Backend.Server.Session | server.js:146-151 | 401 without a logged-in user; otherwise 200 with the user and the stored or default snapshot; nothing changes |
| Backend.Server.SaveProgressForUser | server.js:90-103 | true exactly for a known user; the accounts become `SaveFor`'s result |
| Backend.Server.PostProgress | server.js:153-169 | both progress routes: 401 without a session, 404 for a vanished user, otherwise 200 and the body's snapshot (or `{}`) saved |

## Left out

- All page rendering: element lookups, `renderShop`, `refreshStats`, `updateAvatar` and the modal dialog. These are UI. The button rule is kept as `Economy.ButtonEnabled`, and the floor shown for points as `Format.DisplayedPoints`.
- The Firebase side of the merge conflict in `app.js`. Only the `origin/main` side is modelled.
- `fetch`, `sendBeacon` and `localStorage` are foreign calls. Each save is recorded as a `Flush` entry carrying its snapshot. The server's answer to it is not modelled. Neither is `loadState`, which reads the browser store.
- `setInterval`, event-listener registration and async ordering. Ticks and events run one at a time, in the order given.
- The two `Date.now()` readings inside one `checkInactivity` are modelled as a single `now`.
- SHA-256 and random tokens are inputs: a hash function value and a token parameter. `decodeURIComponent` is the identity, so a malformed `%` escape, which throws and yields 500, is not modelled.
- The database file (`readDb`, `writeDb`, the data directory), request-body streaming and JSON parse errors, static file serving and `server.listen`. These are I/O. An unreadable database file reading as empty is also left out.
- The catch-all 500 for thrown errors is modelled only where the model can see the throw: a login with no password for an existing user.
- Backend.Server.Login: the username is a string. A request without one, which JavaScript looks up as the key `"undefined"`, is not modelled.
- Backend.Server.Login: it looks up users with `name in users`. For an inherited property name with no password, the source answers 500 where the model answers 401. This is the same lookup issue as the finding below.
- Backend.Server.SaveProgressForUser: the source tests `!db.users[username]`, a plain-object lookup that also finds inherited names. For a name such as `toString` with no account, the source assigns `.progress` on `Object.prototype.toString`, rewrites the unchanged file and returns true; the model returns false. The stored accounts agree either way. `/api/progress` never sees the difference: a session only holds a name that passed login, and login never succeeds for an inherited name.
- Snapshot.Normalize: a payload field is either absent or of the right type. JSON `null` is treated as absent, like `??` does. Numbers of the wrong type, strings in number fields and partial `equipped` objects are not modelled.
- Counters are unbounded integers and points exact reals. IEEE doubles agree with them for whole and half-point values, which is all that ticks and purchases produce. A loaded snapshot whose points are not such a value (0.1, say) would round in IEEE arithmetic. The model computes with it exactly, so that rounding is not modelled.
- A loaded snapshot is never checked against the record invariants. The source does not check either. `Monitor.RunWellformed` shows that events keep the invariants of a consistent state. It does not show that a login yields one, since the server may return any stored snapshot.
- The `owned` and `equipped` arrays are values, so aliasing between the page state and a loaded snapshot is not modelled.
- Client.Tracker.CheckInactivity: the second copy of the timestamp tests is replaced by an assertion that the timestamp is already set. That copy never changes anything.

## Findings

| source | as written | input that shows it | evidently intended | confidence | as-written member | corrected member |
|---|---|---|---|---|---|---|
| server.js:119 | `db.users[username]` is truthy for every name a plain object inherits (`toString`, `constructor`, `__proto__`, …), so registration answers 409 though no such user exists | `POST /api/register` with `{"username":"toString","password":"x"}` on an empty database | only registered names conflict: 201 and a new account | not executed | Backend.PrototypeNameRefused | Backend.Server.Register |
