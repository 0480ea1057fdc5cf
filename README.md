# URL shortener: the shortcode lifecycle in Dafny

This project models the core of a small URL shortener. The backend keeps one
record per shortcode. A record holds the target URL, the creation time, an
expiry time, a click counter and an embedded log of click events. Three route
handlers work on these records:

- **create** (`POST /shorturls`) checks the URL and computes the expiry. It
  then takes the custom shortcode or draws codes from a generator, up to five
  times, and saves a new record.
- **resolve** (`GET /:shortcode`) answers 404 or 410, or counts one click,
  appends one click event and redirects.
- **stats** (`GET /shorturls/:shortcode`) gives the same 404 and 410 answers,
  or returns a read-only view of the record without the visitors' addresses.

The model also covers the custom-shortcode validator, the record schema with
its unique index and expiry index, and the client form. The form holds up to
five rows. It checks each row before anything is sent, and its shortcode rule
is proved to agree with the server's.

Files and modules:

- `js.dfy`, module `Js`: the JavaScript value shapes that reach the handlers
  (truthiness of a body field) and `parseInt` as ECMA-262 section 19.2.5
  defines it.
- `shortcode.dfy`, module `Shortcode`: `isValidCustom`.
- `url_model.dfy`, module `UrlModel`: the `Click` and `UrlRecord` records, the
  store (a map keyed by the unique shortcode) and its invariant. It also has
  the `save()` of a new record, the click update and a pass of the expiry
  index.
- `shortener.dfy`, module `Shortener`: the expiry arithmetic and the three
  handlers. Each handler is a function of the store and the request. The
  class `UrlStore` runs the same handlers in place, with the
  generate-and-check loop as a `while` loop, and each method is proved equal
  to its function. The lemmas relate several requests.
- `shortener_page.dfy`, module `ShortenerPage`: `validate`, the body built for
  each row, the validate-everything-then-post order of `shortenUrls`, and the
  class `FormState` holding the rows that `handleChange` and `addField`
  update.

The clock is an integer parameter `now` in milliseconds. The foreign
libraries are parameters:

- `isUri: string -> bool` stands for `validUrl.isUri`.
- `lookup: string -> Option<string>` stands for the country that
  `geoip.lookup` finds for an address.
- `generate: nat -> string` stands for the generator: `generate(k)` is what
  `generateShortcode()` returns on its (k+1)-th call.

Some behaviour of the code that a reader may not expect, modelled as the
code has it:

- The custom-code conflict check looks at every stored record, expired or
  not. An expired record that has not been removed yet still blocks its code
  with 409 (`ExpiredCustomCodeStillTaken`).
- When all five generated candidates collide, the loop keeps the fifth one.
  The save then fails on the unique index, so the handler passes an error on
  that the server turns into a 500, not a 409. No existing record is
  overwritten (`ExhaustedGenerationFails`).
- A non-numeric but truthy `validity` gives a link of one minute, not 30.
  `validity` equal to `0` gives 30 minutes, because `0` is falsy.
- The URL check is whatever `validUrl.isUri` accepts. The code does not
  itself restrict URLs to http or https.

## Model

| member | source | states |
|---|---|---|
| `Shortcode.AllCodeChars` | backend/utils/shortcode.js:5 | the scan behind `^[A-Za-z0-9_-]+$` accepts exactly the strings whose every character is in the class |
| `Shortcode.IsValidCustom` | backend/utils/shortcode.js:7-12 | false for a falsy or non-string value, false below length 4 and above length 32; true exactly when the value is a string of length 4 to 32 over `[A-Za-z0-9_-]`. It is a function, so it has no state and gives the same answer on every call |
| `UrlModel.Insert` | backend/models/Url.js:12-15 | a save fails on a missing required shortcode or URL, then fails with DuplicateKey exactly when the code is already stored; otherwise it adds exactly that one record, changes no other record, and keeps the store invariant (unique codes, required fields, `clicks == |clickData|`) |
| `UrlModel.WithClick` | backend/routes/shortener.js:89-95 | the counter goes up by one and the event is appended at the end of the log; the other fields stay; a record whose counter matched its log still does |
| `UrlModel.Reap` | backend/models/Url.js:20 | a pass of the expiry index keeps exactly the records with `now < expireAt`, unchanged, and keeps the store invariant |
| `Shortener.ExpiryMinutes` | backend/routes/shortener.js:11 | the minute count is at least 1; for a number of at least 1 it is that number's floor; below 2, and for NaN or a falsy value, it is 1 |
| `Shortener.ComputeExpireAt` | backend/routes/shortener.js:10-13 | the expiry is a whole number of minutes, at least one, after `now` |
| `Shortener.RequestExpireAt` | backend/routes/shortener.js:27 | with the `validity \|\| 30` default: 30 minutes for an absent or zero validity, 1 minute for a non-numeric one, otherwise `max(1, floor(validity))` minutes, and never less than 60000 ms after `now` |
| `Shortener.PickFromIsFirstFree` | backend/routes/shortener.js:40-46 | from any round of the loop: it ends after at most five generator calls in all, on the last candidate drawn; every earlier candidate was taken; the result is free unless five calls were made |
| `Shortener.PickGenerated` | backend/routes/shortener.js:40-46 | the loop calls the generator between 1 and 5 times, stops at the first candidate that is not stored, and after five collisions keeps the fifth candidate |
| `Shortener.CreateOutcome` | backend/routes/shortener.js:23-54 | 400 with the URL message exactly when the URL is missing, not a string or refused by `isUri`; 400 with the shortcode message exactly when a truthy custom code fails `isValidCustom`; 409 exactly when a valid custom code is stored; a save error exactly when the generated code is stored or empty; a new link exactly when the URL is accepted and either the custom code is valid and free or, with no custom code, the generated code is free and non-empty; nothing changes on any failure; on success exactly one record is added, under the chosen code, with the given URL, `createdAt == now`, the computed expiry, no clicks and an empty log, and no other record changes |
| `Shortener.ClickOf` | backend/routes/shortener.js:83-95 | the event has the current time, the forwarded address if one is given and the socket address otherwise, the referrer or null, and the looked-up country or "Unknown" |
| `Shortener.ResolveOutcome` | backend/routes/shortener.js:73-99 | 404 exactly for an unknown code and 410 exactly when `expireAt <= now`, both leaving the store unchanged; otherwise a redirect to the stored URL, that record's counter up by exactly one and exactly one event appended at the end, nothing else changed, and the invariant `clicks == |clickData|` kept |
| `Shortener.PublicClicks` | backend/routes/shortener.js:126-130 | the projection has the same length and order as the log, and each entry keeps only the timestamp, referrer and location |
| `Shortener.StatsOutcome` | backend/routes/shortener.js:110-131 | the same 404 and 410 conditions as resolve; otherwise the view carries the record's code, URL, creation time and expiry, `totalClicks` equal to the counter and to the number of listed clicks, and one public entry per logged click in order |
| `Shortener.CreateThenResolve` | backend/routes/shortener.js:49-81 | a created link redirects to its URL with one click counted at every moment before its expiry, its statistics show no clicks right after creation, and from its expiry on both resolve and stats answer 410 |
| `Shortener.SameCustomCodeTwice` | backend/routes/shortener.js:34-38 | of two creates with the same free, valid custom code, the first succeeds and the second gets 409 and changes nothing |
| `Shortener.ExpiredCustomCodeStillTaken` | backend/routes/shortener.js:34-37 | a custom code held by an expired but still stored record gets 409 although resolving it gives 410; after a pass of the expiry index the same create succeeds |
| `Shortener.ExhaustedGenerationFails` | backend/routes/shortener.js:40-54 | when all five candidates are stored, the loop keeps the fifth and the create fails with DuplicateKey, leaving the store, and so the record holding that code, unchanged |
| `Shortener.ReapOnlyHidesExpired` | backend/models/Url.js:20 | removing expired records changes no answer about a live code and turns every 410 into a 404, for resolve and for stats; resolving then removing gives the same store as removing then resolving |
| `Shortener.StatsIgnoreAddresses` | backend/routes/shortener.js:120-131 | two stores that differ only in the addresses of their clicks give the same statistics, so the view never depends on an address |
| `Shortener.Run` | backend/routes/shortener.js:16-137 | after any sequence of creates, resolves, stats reads and expiry passes (the index of backend/models/Url.js:20), codes are still unique, required fields are present and every counter equals its log length |
| `Shortener.RunKeepsLogs` | backend/routes/shortener.js:89-97 | between expiry passes no record disappears; its URL, creation time and expiry never change; its log only grows at the end and its counter never decreases |
| `Shortener.UrlStore.GenerateCode` | backend/routes/shortener.js:40-46 | the do-while loop with its `attempts` counter settles on the candidate and the number of calls that `PickGenerated` describes |
| `Shortener.UrlStore.Create` | backend/routes/shortener.js:16-61 | the handler, run in place on the store, gives the response and the new store that `CreateOutcome` gives, and keeps the store invariant |
| `Shortener.UrlStore.Resolve` | backend/routes/shortener.js:69-99 | the handler, with `clicks += 1`, the push and the save done in place, gives the response and the new store that `ResolveOutcome` gives, and keeps the store invariant |
| `Shortener.UrlStore.Stats` | backend/routes/shortener.js:106-133 | the handler reads the store without changing it and answers what `StatsOutcome` answers |
| `Js.ParseInt` | frontend/src/pages/ShortenerPage.js:25 | `parseInt` is NaN exactly when, after white space and one sign, no digit follows; after a `0x`/`0X` prefix the digit must be a hexadecimal one |
| `Js.ParseIntOfDecimal` | frontend/src/pages/ShortenerPage.js:36 | `parseInt` reads back the decimal numeral of any natural number followed by text that does not start with a digit, nor, after the numeral "0", with `x` or `X` (`"15min"` and `"15x"` give 15) |
| `Js.ParseIntOfNegative` | frontend/src/pages/ShortenerPage.js:36 | the same with a minus sign in front, under the same condition on the text that follows: `"-3"` gives -3 |
| `ShortenerPage.RepeatMatchMeans` | frontend/src/pages/ShortenerPage.js:26 | the pattern `[a-zA-Z0-9_-]{lo,hi}$` matches a whole string exactly when its length is between `lo` and `hi` and every character is in the class |
| `ShortenerPage.ClientAgreesWithServer` | frontend/src/pages/ShortenerPage.js:26 | on every non-empty string the client's shortcode pattern accepts exactly what the server's `isValidCustom` accepts |
| `ShortenerPage.Validate` | frontend/src/pages/ShortenerPage.js:22-28 | checks in order: "Invalid URL" exactly when the URL is not `http://` or `https://` followed by a character that is not a line terminator; then "Validity must be integer" exactly when the validity is non-empty and `parseInt` gives NaN; then "Invalid shortcode" exactly when the shortcode is non-empty and `isValidCustom` refuses it; null exactly when all three pass |
| `ShortenerPage.FirstInvalid` | frontend/src/pages/ShortenerPage.js:31-33 | the rows before the returned index all pass `validate`, and the row at that index, if there is one, fails it: the index is that of the first failing row |
| `ShortenerPage.Submit` | frontend/src/pages/ShortenerPage.js:30-43 | bodies are posted exactly when every row passes `validate`, one body per row in order; otherwise the error is that of the first failing row and nothing is posted |
| `ShortenerPage.ValidRowReachesServer` | frontend/src/pages/ShortenerPage.js:31-39 | a row that passes `validate` reaches the server with a shortcode the server accepts or none; its link lasts 30 minutes for an empty or zero validity and otherwise the parsed minutes, at least one |
| `ShortenerPage.FormState.constructor` | frontend/src/pages/ShortenerPage.js:9 | the form starts with one blank row |
| `ShortenerPage.FormState.HandleChange` | frontend/src/pages/ShortenerPage.js:12-16 | field `f` of row `i` becomes `v`; the other fields of that row, the other rows and the number of rows stay the same |
| `ShortenerPage.FormState.AddField` | frontend/src/pages/ShortenerPage.js:18-20 | one blank row is appended only when there are fewer than five, so there are never more than five rows |

## Left out

- Concurrency: the read-then-save races in create (`findOne`, then `save`) and in resolve (a lost click update under concurrent saves). The handlers are modelled as running one at a time; their atomicity belongs to the database and cannot be seen from this code.
- The foreign libraries `shortid`, `valid-url` and `geoip-lite` are parameters, so nothing is proved about what they return. In particular the model does not show that generated codes satisfy `isValidCustom` or have a given length.
- `Date.now()` and `new Date()` are the parameter `now`. Whether the `now` of two requests grows over time is left to the caller of the lemmas.
- JavaScript numbers are exact reals and integers in the model. Floating-point rounding, `Infinity`, very large `parseInt` results and the range limit of `Date` are not modelled. A `validity` whose `Number()` is infinite is outside the model.
- Falsy non-string body values (`null`, `false`, `0`) share the case `Absent`, and truthy non-strings share `Other`, because the handlers treat each group alike. `null` as a validity gives the same expiry as an absent one.
- String length counts Unicode scalar values, whereas JavaScript counts UTF-16 units. The two differ only for characters outside the shortcode alphabet, which are refused either way.
- The timing of the background expiry pass is not modelled. `UrlModel.Reap` is one pass at a given time.
- HTTP framing is left out: status codes as numbers, JSON bodies, the `shortLink` built from the protocol and host, `res.redirect`, and the error middleware that turns a save error into a 500.
- Server bootstrapping, the Mongo connection, CORS and helmet, both pino loggers, the `withLogging` wrapper, the stats page, React rendering, the posting through axios and the `results` state are left out.
- ShortenerPage.FormState.HandleChange: `copy[index][field] = value` also changes the row object that the previous state shares. The model works on row values, so it does not show that aliasing.
- ShortenerPage.FormState.HandleChange: the inputs only pass the index of a row they render, so an index past the end, which would throw in the source, is excluded by a precondition.
- An `AllocationExhausted` answer after five collisions is not modelled; the code has none.
