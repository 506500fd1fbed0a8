# Credential and template server: a Dafny model

This project models the server side of a small web application in which users register API
platforms (base URL, key, model list) and "agents" (named sets of environment variables with
`$BASE_URL`, `$API_KEY` and `$MODEL` placeholders), and then generate or run test calls
against those platforms. The server has four route files:

- `src/routes/auth.ts`: register, login, verify and logout over a `users` table and a `sessions` table.
  Sessions last 24 hours and are never extended.
- `src/routes/platforms.ts`: list, create, update and delete of the caller's platforms. Every request first
  passes a session check.
- `src/routes/agents.ts`: the same four operations for agents, whose `env_vars` is a JSON value.
- `src/routes/tests.ts`:
  - the curl command shown for a platform;
  - the `/agent-vars` placeholder resolver;
  - the `/execute` call to the platform's chat-completions endpoint.

The database is one Dafny `class Store` (module `Store`). It holds:

- the four tables, as sequences of records in insertion order;
- an id counter;
- an integer clock `now`;
- the password-hash function.

Each route is a method that takes the store and the request and returns a `Response(status, body)`. The methods that write
state declare `modifies st` and state the whole new store. The session check, which the source
copies into three routers, is defined once (`Store.Authenticate`). The identity it yields is
passed explicitly to the queries, each of which is conditioned on the caller's `user_id`.

Modules, one per source file plus shared ones:

- `Common`: Option/Result, JSON values, JavaScript truthiness (`!field`), `Object.entries`.
- `Strings`: JavaScript `String.prototype.replace`:
  - with a string pattern (first occurrence only, `RemoveFirst`);
  - with a global regular expression, including the `$$`, `$&`, `` $` `` and `$'` substitution patterns (`ReplaceGlobal`, `Expand`);
  - the plain literal replacement `ReplaceAll` that it reduces to.
- `Tables`: the owner-scoped registry queries shared by platforms and agents (SELECT/UPDATE/DELETE with
  `id = ? AND user_id = ?`, `meta.changes`, listing newest first) and the table invariants.
- `Store`: records, response bodies, the store class and the session check.
- `Auth`, `Platforms`, `Agents`, `TestRoutes`: the routes.

Behaviour of the code that the lemmas make explicit:

- **The bearer token is not parsed as a prefix.** The token is the header with its first `Bearer ` removed wherever it
  stands, so `xBearer t` authenticates as the token `xt` (`Store.BearerNotAPrefix`).
- **The resolver runs three passes in sequence.** Each pass re-scans what the previous ones inserted: a base URL
  containing `$MODEL` gets the model substituted into it (`TestRoutes.ResolveRescansSubstitution`).
- **Resolving is not idempotent** (`TestRoutes.ResolveNotIdempotent`).
- **Replacement strings are not inserted verbatim.** `$$` in a key becomes a single `$`
  (`TestRoutes.ResolveCollapsesDollars`). When the substituted strings contain none of
  `$$ $& $` $'`, the resolver is exactly three literal global replacements
  (`TestRoutes.ResolveIsLiteralComposition`).
- **The two registries differ on update.**
  - A platform update checks existence and ownership first (404). Its "zero rows changed" 400 branch is kept in the
    method but cannot be reached after that check (`Tables.CountWhereFind`).
  - An agent update has no pre-check. It answers 404 for both a foreign and a missing id. It rejects a name clash only
    when the statement matched a row.

## Model

| member | source | states |
|---|---|---|
| Store.FindUser | src/routes/platforms.ts:14-19 | the join finds a user exactly when one has the session's `user_id`, and returns that user |
| Store.FindSession | src/routes/auth.ts:91-96 | an identity is found iff some session with this token, not yet expired (`expires_at > now`), joins a user; it is that user's id and name |
| Store.Authenticate | src/routes/platforms.ts:7-31 | no header or an empty token gives 401 "unauthorized"; a token without a live session gives 401 "expired"; otherwise it yields exactly a user granted by a live session |
| Store.BearerToken | src/routes/platforms.ts:8 | the token is the header unchanged or the header shortened by exactly `Bearer `; a header without a `B` is the token itself |
| Store.BearerTokenFirstOccurrence | src/routes/platforms.ts:8 | the token is the header with its first `Bearer ` cut out, wherever it stands, and the header itself when it holds no `Bearer ` |
| Store.BearerHeader | src/routes/platforms.ts:8 | `Bearer <token>` authenticates exactly as the session `<token>` does |
| Store.BearerNotAPrefix | src/routes/platforms.ts:8 | text before `Bearer ` stays in the token: the scheme is not checked as a prefix |
| Strings.RemoveFirst | src/routes/platforms.ts:8 | `replace` with a string pattern removes one occurrence or nothing: the result is the input or shorter by exactly the pattern, and the input when the pattern's first character is absent |
| Strings.RemoveFirstFirstOccurrence | src/routes/platforms.ts:8 | for every string, `replace` with a string pattern cuts out exactly the occurrence at the smallest index, and returns a string without an occurrence unchanged |
| Strings.RemoveFirstPrefix | src/routes/platforms.ts:8 | `replace` with a string pattern removes a leading occurrence and keeps the rest |
| Strings.RemoveFirstSkip | src/routes/platforms.ts:8 | a prefix that cannot start the pattern is kept and the first occurrence after it is removed |
| Strings.ReplaceAllNoOccurrence | src/routes/tests.ts:179-181 | literal replacement leaves a string without an occurrence of the pattern unchanged |
| Strings.ReplaceAllSkip | src/routes/tests.ts:179-181 | literal replacement copies a prefix that cannot start the pattern |
| Strings.ReplaceAllMatch | src/routes/tests.ts:179-181 | literal replacement replaces a leading occurrence and resumes after it |
| Strings.Expand | src/routes/tests.ts:179-181 | a replacement string without `$$`, `$&`, `` $` `` or `$'` is inserted as it is |
| Strings.ReplaceAllFrom | src/routes/tests.ts:179-181 | the global scan from a position copies a suffix without the pattern's first character, and equals literal replacement of the suffix when the replacement holds no special `$` pattern |
| Strings.ReplaceGlobal | src/routes/tests.ts:179-181 | `replace(/p/g, r)` leaves a string without the pattern's first character unchanged, whatever `r` is, and equals literal global replacement when `r` holds no special `$` pattern |
| Tables.Listing | src/routes/platforms.ts:36-38 | the listing holds exactly the owner's rows, with ids strictly decreasing (newest first) |
| Tables.FindRow | src/routes/platforms.ts:81 | a row is found iff one has both this id and this owner, and the row found is one of them |
| Tables.DeleteWhere | src/routes/platforms.ts:111 | exactly the rows matching id and owner are removed; the number removed is `meta.changes` |
| Tables.UpdateWhere | src/routes/platforms.ts:86-90 | rows matching id and owner take the new name and data and keep id and owner; every other row is unchanged, and positions are kept |
| Tables.CountWhere | src/routes/platforms.ts:94 | `meta.changes` never exceeds the number of rows |
| Tables.CountWhereNone | src/routes/platforms.ts:94 | a statement changes no row exactly when no row has both the id and the owner |
| Tables.CountWhereFind | src/routes/platforms.ts:94 | with unique ids a statement on one id changes at most one row, and one exactly when the lookup finds it |
| Tables.ListingInsert | src/routes/platforms.ts:53-58 | a new row heads its owner's listing; other owners' listings are unchanged |
| Tables.ListingDeleteOthers | src/routes/platforms.ts:111 | a delete by one owner leaves every other owner's listing unchanged |
| Tables.ListingUpdateOthers | src/routes/platforms.ts:86-90 | an update by one owner leaves every other owner's listing unchanged |
| Tables.InsertWellFormed | src/routes/platforms.ts:53-61 | appending a fresh id with a name the owner does not use keeps ids increasing and names unique per owner |
| Tables.DeleteWellFormed | src/routes/platforms.ts:111 | deleting keeps the table invariants |
| Tables.AppendWellFormed | src/routes/platforms.ts:111 | a row kept after a delete, with a larger id than every row before it and a name its owner does not use there, keeps the table invariants |
| Tables.UpdateWellFormed | src/routes/platforms.ts:86-90 | renaming a row to a name no other row of its owner has keeps the table invariants |
| Tables.UpdateNoMatch | src/routes/agents.ts:83-91 | an update that matches no row leaves the table unchanged |
| Auth.FindUserByName | src/routes/auth.ts:50-52 | a user is found iff the name is taken, and it has that name |
| Auth.RemoveSession | src/routes/auth.ts:114 | exactly the sessions with this id are removed |
| Auth.Register | src/routes/auth.ts:7-39 | empty username or password: 400 and no user added; a taken username: 400, users unchanged; otherwise exactly one user appended with the hashed password, its new id returned; sessions and registries unchanged |
| Auth.Login | src/routes/auth.ts:42-81 | empty fields: 400; unknown user and wrong password give the same 401 body and add no session; on a match exactly one session is appended (new token, that user, `now + 24h`) and nothing else changes |
| Auth.Verify | src/routes/auth.ts:84-107 | no sessionId: 401 `valid: false`; otherwise `valid: true` with the user's id and name iff the session query finds a live session; the store is not modified |
| Auth.Logout | src/routes/auth.ts:110-118 | always 200 `success: true`; a given sessionId's session is deleted, and nothing else changes |
| Auth.UniqueUsername | src/routes/auth.ts:15-21 | the username check keeps usernames unique, so two users with one name are the same user |
| Auth.UniqueUserId | src/routes/auth.ts:27-32 | user ids are unique |
| Auth.RemoveSessionUnique | src/routes/auth.ts:114 | deleting a session keeps session ids unique |
| Auth.SessionLifetime | src/routes/auth.ts:66-96 | a login session grants its user's identity at every time before `now + 24h` and at no time after |
| Auth.LoggedOutTokenRejected | src/routes/auth.ts:110-118 | after logout the token is rejected at every time |
| Auth.LogoutIdempotent | src/routes/auth.ts:113-114 | a second logout of the same token changes nothing |
| Platforms.Presence | src/routes/platforms.ts:74-76 | the `details` flags are all true iff the request is complete |
| Platforms.AdminUrlOrNull | src/routes/platforms.ts:90 | an absent, null or empty `admin_url` is stored as null, any other string as given |
| Platforms.List | src/routes/platforms.ts:34-41 | auth failure is the session check's 401; otherwise exactly the caller's platforms, newest first; nothing changes |
| Platforms.Create | src/routes/platforms.ts:44-62 | auth failure and a missing field (400) add nothing; the failed insert's 400 "name exists" answers both a name the caller already uses and an absent `admin_url` (bound as `undefined`), adding nothing; otherwise one row owned by the caller is appended with `admin_url` as given (null or a string) and its id returned with "created"; table invariants kept |
| Platforms.Update | src/routes/platforms.ts:65-104 | missing field: 400 with per-field presence; no row with that id and owner: 404; name used by another of the caller's rows: 400; otherwise only that row takes the new values with `admin_url || null`; the store otherwise unchanged |
| Platforms.Delete | src/routes/platforms.ts:107-118 | exactly the row with that id and owner is removed; 404 when none matched |
| Agents.List | src/routes/agents.ts:34-47 | exactly the caller's agents, newest first, with the stored `env_vars` values; nothing changes |
| Agents.Create | src/routes/agents.ts:50-69 | falsy name or envVars (any truthy value passes, `{}` included): 400; a name the caller uses: 400; neither adds a row; otherwise one row appended with `envVars` and its id returned with "created" |
| Agents.Update | src/routes/agents.ts:72-98 | falsy field: 400; no row with that id and owner (another owner's or none): 404, table unchanged; a name clash: 400; otherwise only that row changes |
| Agents.Delete | src/routes/agents.ts:101-112 | exactly the row with that id and owner is removed; 404 when none matched |
| Agents.EnvVarsRoundTrip | src/routes/agents.ts:41-63 | the newest agent in its owner's listing carries exactly the `env_vars` value it was created with |
| TestRoutes.StripTrailingSlash | src/routes/tests.ts:53 | at most one trailing `/` is removed |
| TestRoutes.CommandIgnoresTrailingSlash | src/routes/tests.ts:52-66 | a base URL with and without one trailing `/` give the identical command |
| TestRoutes.GenerateTestCommand | src/routes/tests.ts:52-66 | the command contains `"<url>/chat/completions"`, `"Authorization: Bearer <key>"` and `"model": "<model>"` verbatim |
| TestRoutes.ResolveValue | src/routes/tests.ts:177-184 | non-string values pass through unchanged; strings stay strings |
| TestRoutes.Resolve | src/routes/tests.ts:177-181 | a value containing no `$` is unchanged |
| TestRoutes.ResolveIsLiteralComposition | src/routes/tests.ts:179-181 | with substitutions free of special `$` patterns, the resolver is `ReplaceAll(ReplaceAll(ReplaceAll(v, $BASE_URL, base), $API_KEY, key), $MODEL, model)` |
| TestRoutes.ResolveBaseUrlThenText | src/routes/tests.ts:179-181 | `$BASE_URL<text>` resolves to the base URL followed by the text |
| TestRoutes.KeyThenModelKeepsBase | src/routes/tests.ts:179 | the `$BASE_URL` pass does not touch `$API_KEY<sep>$MODEL` |
| TestRoutes.KeyThenModelTakesKey | src/routes/tests.ts:180 | the `$API_KEY` pass replaces only the leading key placeholder |
| TestRoutes.ResolveKeyThenModel | src/routes/tests.ts:179-181 | `$API_KEY<sep>$MODEL` resolves to key, separator, model |
| TestRoutes.TextThenModelKeepsBase | src/routes/tests.ts:179 | the `$BASE_URL` pass does not touch `<text>$MODEL` |
| TestRoutes.TextThenModelLastPasses | src/routes/tests.ts:180-181 | the `$API_KEY` and `$MODEL` passes turn `<text>$MODEL` into the text followed by the model |
| TestRoutes.ResolveTextThenModel | src/routes/tests.ts:179-181 | `<text>$MODEL` resolves to the text followed by the model |
| TestRoutes.ResolveRescansSubstitution | src/routes/tests.ts:179-181 | a `$MODEL` inside the base URL is replaced by the later pass |
| TestRoutes.ResolveNotIdempotent | src/routes/tests.ts:179-181 | resolving a resolved value can change it again |
| TestRoutes.ResolveCollapsesDollars | src/routes/tests.ts:180 | a key `$$` is inserted as `$` |
| Common.Entries | src/routes/tests.ts:176 | `Object.entries(v \|\| {})`: an object gives its fields in order; an array gives `(i, items[i])` and a string `(i, s[i])` for every index `i`, keyed by the decimal index; null, booleans and numbers give nothing |
| TestRoutes.ResolvedMap | src/routes/tests.ts:176-186 | the resolved map has exactly the keys of the entries |
| TestRoutes.ResolvedMapStep | src/routes/tests.ts:176-186 | each entry writes its resolved value over the map built so far |
| TestRoutes.ResolvedMapAt | src/routes/tests.ts:176-186 | under each key the map holds the resolution of the last entry with that key |
| TestRoutes.ResolvedMapOfThree | src/routes/tests.ts:176-186 | three entries give the map that writes their resolved values in order |
| TestRoutes.ResolveSampleAgent | src/routes/tests.ts:176-186 | `{A: "$BASE_URL/chat", B: "$API_KEY-$MODEL", C: <plain>}` resolves to `{A: base + "/chat", B: key + "-" + model, C: <plain>}` |
| TestRoutes.ResolveSampleAgentConcrete | src/routes/tests.ts:176-186 | with `https://x.test/v1`, `K`, `gpt-4` the sample resolves to `https://x.test/v1/chat`, `K-gpt-4`, `plain` |
| TestRoutes.ResolveVars | src/routes/tests.ts:176-186 | the loop builds the map of the reduce: exactly the keys of `Object.entries(envVars \|\| {})`, each with the resolution of its last entry |
| TestRoutes.ChatRequest | src/routes/tests.ts:113-133 | a POST to exactly the endpoint the command shows, with the JSON content type and `Bearer <key>` headers, a body holding the model (the one the command shows), the single user message with the fixed greeting, and `max_tokens: 50` |
| TestRoutes.Normalize | src/routes/tests.ts:135-148 | every completed exchange, any status included, is `success: true` (200) with that status and body; a thrown error is `success: false` with 500 and its message, or "request failed" when the thrown value carries none |
| TestRoutes.CommandRoute | src/routes/tests.ts:69-91 | falsy platformId or model: 400; platform not the caller's: 404; otherwise the command for that platform and model |
| TestRoutes.ExecuteRoute | src/routes/tests.ts:94-149 | falsy platformId or model: 400; platform not the caller's: 404; otherwise the normalised outcome of the chat request built from that platform |
| TestRoutes.AgentVarsRoute | src/routes/tests.ts:152-192 | falsy platformId, model or agentId: 400; platform or agent not the caller's: 404; otherwise the resolved map and the stored value untouched |

## Left out

- SHA-256 with hex encoding is the store's `hash` function, a parameter of the constructor. It is not computed.
- `crypto.randomUUID` is the `uuid` argument of `Auth.Login`. Login requires that no existing session already has that id.
- `fetch` and `response.json()` are the `upstream` function argument of `TestRoutes.ExecuteRoute`. It returns a completed exchange
  with its parsed body, or a thrown error.
- The timestamp encoding is not modelled: time is an integer and a session is live while `expiresAt > now`.
  - The source writes `expires_at` as an ISO 8601 string and compares it as text with SQLite's `datetime('now')`,
    whose format has a space where ISO has `T`.
  - So on the expiry date the text comparison keeps the session live until that day ends (UTC). The model does not
    carry this behaviour.
- The JSON text of `env_vars` is not modelled. The table stores the JSON value itself, so serialise-on-write and
  parse-on-read are the identity, and a corrupt stored text (a `JSON.parse` failure) cannot arise.
- JSON numbers are integers. `Object.entries` yields object fields in the order stored; JavaScript's ordering of
  integer-like keys first is not modelled. The resolved value is a map, so the order only decides which of two equal
  keys wins.
- `Common.Entries` splits a string into Unicode characters; JavaScript's `Object.entries` splits it into UTF-16 code
  units, so a character outside the Basic Multilingual Plane gives two entries there and one here.
- An `env_vars` key `__proto__`, which a JavaScript object would treat specially, is not modelled.
- A request body that is not a JSON object is not modelled. `c.req.json()` and the destructuring then throw outside any
  `try`, so the framework answers 500 (src/routes/auth.ts:8, src/routes/platforms.ts:45 and 67, src/routes/agents.ts:51
  and 74, src/routes/tests.ts:70, 95 and 153).
- Request fields are absent or of the expected type (string, integer or JSON). Other JSON types in those fields are
  not modelled.
- Route `:id` parameters are integers. The source binds the text and SQLite converts it. `Platforms.Update`'s response carries the id back as the
  integer, where the source echoes the text.
- The `created_at` and `updated_at` columns are not fields of a row, and the `updated_at = CURRENT_TIMESTAMP` write of
  both updates is not modelled; only the order `created_at` gives the listings is.
- `created_at` ordering is modelled as insertion order. Two rows created in the same second sort in an order SQLite leaves unspecified.
  The model lists the later insert first.
- Row ids come from one counter shared by all tables, which never reuses an id. SQLite gives each table its own rowid
  sequence; without `AUTOINCREMENT` it may reuse the largest id after a delete.
- The per-owner uniqueness of names lives in a schema that is not part of this model. An insert or update fails exactly
  when it would give the owner two rows with one name, and any such failure answers with the route's fixed message.
  `Platforms.CONSTRAINT_MESSAGE` stands for the driver's error text.
- `/execute` ignores `prompt` and `variables` in the source too, and they are not modelled. `responseTime` (`Date.now()`) is left out of the success body.
- `src/index.ts` is not part of this model: CORS, logging, route mounting and static assets.
  - Logging (`console.log`/`console.error`) is left out.
  - Concurrency is left out: the register check-then-insert race, `Promise.all` and interleaved updates are outside this sequential model.
- The client (`client/src/**`) is not part of this model.
