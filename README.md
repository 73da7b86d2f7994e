# Style Advisor backend: accounts, outfit generation and outfit history

This project models the three request handlers at the core of the Style Advisor backend, an
Express server, in Dafny:

- **routes/auth.js**: an in-memory account list and a session map from token to user id.
  Its handlers are register, login, logout, "who am I" and a profile merge.
- **routes/outfits.js**: generation of up to five outfits from a per-gender catalog, with
  image URLs attached to every item. It also owns the per-user outfit history (newest
  first, at most 50 entries) and the custom-outfit store.
- **routes/history.js**: listing a user's history, with type and occasion filters and a
  limit; removing an outfit id; clearing the history.

The two stores the handlers mutate are classes whose fields the handlers update in place:

- `Auth.AuthStore` holds `users: seq<User>` and `sessions: map<string, string>`. The
  handlers of routes/auth.js are its methods.
- `Outfits.HistoryStore` holds `history` and `custom`, both of type
  `map<string, seq<Object>>`. The handlers of routes/outfits.js are its methods. The
  handlers of routes/history.js, which import that store, are module-level methods of
  `History` that take the store as a parameter and declare `modifies store`.

Each handler becomes a method with `modifies` and an `ensures` that gives the whole new
state. Each handler that only reads becomes a function. JSON objects are `map<string, Json>`,
and the spread `{...a, ...b}` is the right-biased union `a + b`. JavaScript behaviour the
handlers rely on is written out in `Common`:

- truthiness;
- `trim` over the ECMAScript white-space set;
- `toLowerCase`;
- `Array.prototype.find`, `filter` and `slice`;
- `unshift` inside `forEach`.

Things the handlers get from outside become parameters:

- the catalog file read from disk;
- the ids from `uuidv4`;
- the tokens;
- the ISO timestamp.

Files:

- `common.dfy`: JSON values, responses, and the JavaScript built-ins above, with their
  properties.
- `auth.dfy`: accounts and sessions.
- `outfits.dfy`: catalog, generation, history entries and the history store.
- `history.dfy`: the history routes.

Behaviour of the code worth knowing:

- **Usernames can repeat.** The duplicate check compares the name as sent, ignoring case, but
  the stored name is trimmed. `Auth.TrimQuirk` builds two users with the same name.
  `Register` keeps names distinct only for names that arrive already trimmed.
- **A generated batch is stored last to first.** Each outfit is `unshift`ed in turn, so
  the last outfit of the batch is first in the history (`Outfits.Recorded`).
- **Remove drops every matching entry.** When several history entries carry the outfit id,
  all of them go.
- **Saved custom outfits go to the front** of the custom list, newest first.
- **Image URLs live under `/api/images/`**, followed by the lower-cased gender, the
  lower-cased occasion, the item's category and its file.

## Model

| member | source | states |
|---|---|---|
| Common.Lower | routes/auth.js:19 | lower-casing keeps the length and maps every character by the ASCII case map |
| Common.Trim | routes/auth.js:43 | the result is no longer than the input, has no white space at either end, and is the input itself when the input has none at its ends |
| Common.TrimKeepsMiddle | routes/auth.js:43 | the trimmed name is a slice of the input with only white space before and after it: `trim` removes edge white space and nothing else |
| Common.FirstWhere | routes/auth.js:18-24 | `find` returns the first index satisfying the predicate, and nothing exactly when no element does |
| Common.Filter | routes/history.js:20-25 | `filter` keeps exactly the elements satisfying the predicate, each as often as in the input, in their order (a subsequence) |
| Common.FilterKeepsAll | routes/history.js:47-49 | when every element passes, `filter` returns its input unchanged |
| Common.FilterDrops | routes/history.js:47-51 | when some element fails, `filter` returns a strictly shorter array |
| Common.SubsequenceTransitive | routes/history.js:17-28 | filtering a filtered array keeps the order of the original (subsequence is transitive) |
| Common.PrefixIsSubsequence | routes/history.js:26-28 | a slice from 0 keeps the order of the original |
| Common.Capped | routes/outfits.js:80 | `slice(0, n)` has length min(length, n) and is a prefix |
| Common.Reversed | routes/outfits.js:76-78 | elements last to first: position i holds element length-1-i |
| Auth.ExtractToken | routes/auth.js:134-138 | a token exists exactly when the header starts with "Bearer ", and the header is that prefix followed by the token |
| Auth.ExtractTokenRoundTrip | routes/auth.js:134-138 | any token sent after "Bearer " is read back unchanged |
| Auth.FindUser | routes/auth.js:18-20 | the found user is the first whose name equals the given one ignoring case; none is found exactly when no name matches |
| Auth.GetUserById | routes/auth.js:22-24 | the found user has the id; none is found exactly when no user has it |
| Auth.FoundIffRegistered | routes/auth.js:22-24 | the lookup by id succeeds exactly for ids of registered users |
| Auth.IdsAppend | routes/auth.js:49 | pushing a user adds exactly its id to the registered ids |
| Auth.IdsUpdate | routes/auth.js:129 | replacing a user's record by one with the same id keeps the registered ids |
| Auth.RegisterConsistent | routes/auth.js:41-52 | a new user with a fresh id and a session for it keep ids unique and non-empty and every session owned by a registered user |
| Auth.NamesAppend | routes/auth.js:37-49 | appending a user whose name matches no earlier name ignoring case keeps names distinct |
| Auth.AuthStore.SessionToken | routes/auth.js:108 | the guard `!token \|\| !sessions[token]` over the session map's own keys: a session opens exactly when the header carries a non-empty "Bearer " token that maps to a non-empty user id |
| Auth.AuthStore.constructor | routes/auth.js:8-9 | the stores start empty and consistent |
| Auth.AuthStore.Register | routes/auth.js:30-60 | 400 exactly when username or password is falsy; 409 exactly when an existing name equals the given one ignoring case; otherwise 201, the user with the trimmed name is appended and the new token maps to the new id; the store stays consistent; names stay distinct when the name arrives trimmed |
| Auth.AuthStore.Login | routes/auth.js:66-88 | 400 on a missing field; 401 when no user matches or the first matching user has another password; otherwise a new session for that user and its record in the reply; users unchanged |
| Auth.AuthStore.Logout | routes/auth.js:94-100 | always 200; removes exactly the header's token from the sessions and nothing else; afterwards the header opens no session |
| Auth.AuthStore.Me | routes/auth.js:106-115 | 401 exactly when the header opens no session; on 200 the view is the session user's id, name and profile; in a consistent store 404 cannot happen |
| Auth.AuthStore.MeAsWritten | routes/auth.js:106-115 | the handler with the prototype-inheriting lookup agrees with `Me` on every header that opens a session; in a consistent store it differs from `Me` exactly for a token named after an Object.prototype member that is not a session token, and there it answers 404 "User not found." |
| Auth.AuthStore.UpdateProfile | routes/auth.js:121-131 | 401 without a session and nothing changes; otherwise exactly the session user's profile becomes the old profile merged with the body, the reply is that profile, and sessions are unchanged |
| Auth.ProfileMerge | routes/auth.js:129 | the merged profile has the keys of both, body values win, other old values stay |
| Auth.InheritedNameReachesNotFound | routes/auth.js:106-112 | in a consistent store, "Bearer constructor" reaches the 404 of the handler as written, while the own-key lookup answers 401 |
| Auth.PaddedName | routes/auth.js:37-43 | a trimmed name padded with a leading space trims back to the name yet differs from it ignoring case |
| Auth.RegisterFirst | routes/auth.js:30-60 | registering into an empty store yields one user and one session |
| Auth.RegisterPadded | routes/auth.js:37-49 | registering a name and then the same name with a leading space both succeed and both users carry the same name |
| Auth.TrimQuirk | routes/auth.js:66-76 | after RegisterPadded, names are not distinct and the second user cannot log in with its own password |
| Outfits.ImageUrl | routes/outfits.js:31-33 | the URL starts with the images root and ends with the file, and its length is the parts' lengths plus three separators |
| Outfits.ImageUrlDeterminesParts | routes/outfits.js:31-33 | with no '/' in gender, occasion and category, the image URL determines all four parts |
| Outfits.SplitAtSlash | routes/outfits.js:32 | a path segment without '/' is recovered from the joined path |
| Outfits.MakeOutfit | routes/outfits.js:60-71 | a generated outfit has index i+1, the default name "Outfit i+1" when the name is falsy, empty tags when missing, gender and occasion as sent, and every item with all its fields plus an image URL from the lower-cased gender and occasion |
| Outfits.ImageUrlRemovable | routes/outfits.js:67-70 | when the catalog item has no `imageUrl` of its own, dropping `imageUrl` from the generated item gives back the catalog item (the spread overwrites an `imageUrl` the item already has) |
| Outfits.DefaultNames | routes/outfits.js:63 | default names within a batch of five are "Outfit 1" … "Outfit 5" |
| Outfits.Generate | routes/outfits.js:40-71 | 400 exactly when gender or occasion is falsy; 404 with the gender message when the catalog is missing, and with the occasion message when the lower-cased occasion holds no array; otherwise the first min(5, n) catalog entries turned into outfits, in order |
| Outfits.GenerateReadsFirstFive | routes/outfits.js:60 | entries past the fifth do not affect the result |
| Outfits.GeneratedEntry | routes/outfits.js:77 | a history entry of a generated outfit has exactly the outfit's keys plus type "generated" and the timestamp, and every outfit field keeps its value |
| Outfits.GeneratedEntries | routes/outfits.js:76-78 | one entry per outfit, in order |
| Outfits.SavedEntry | routes/outfits.js:97-102 | a custom entry has the payload keys plus id, type and savedAt; type "custom" and the timestamp always win; a payload id overrides the generated one; other payload fields are kept |
| Outfits.Recorded | routes/outfits.js:74-81 | after a batch is unshifted one by one and cut to 50, the history has min(batch + prior, 50) entries, the batch last to first at the front, then the earlier history |
| Outfits.BoundedUpdate | routes/outfits.js:80 | replacing one history by one of at most 50 entries keeps every history within 50 |
| Outfits.HistoryStore.Stored | routes/history.js:17 | `historyStore[userId] \|\| []`: the user's entries, empty for a user without history, at most 50 in a valid store |
| Outfits.HistoryStore.constructor | routes/outfits.js:8-11 | both stores start empty |
| Outfits.HistoryStore.GenerateOutfits | routes/outfits.js:40-84 | the reply is `Generate`'s; with a truthy user id on success, the user's history becomes `Recorded` of the batch's entries over the earlier history; otherwise nothing changes; the custom store never changes; every history stays within 50 |
| Outfits.HistoryStore.RecordGenerated | routes/outfits.js:74-81 | the forEach of unshifts followed by the cut leaves exactly `Recorded(entries, prior)` for the user and changes no other user |
| Outfits.HistoryStore.CustomSave | routes/outfits.js:90-114 | 400 exactly when user id or outfit is missing and nothing changes; otherwise 201 with the saved entry, the history becomes `Recorded([saved], prior)` and the custom list gets the entry in front; histories stay within 50 |
| History.OfType | routes/history.js:20-22 | exactly the entries of that type, in order, with their multiplicities |
| History.OfOccasion | routes/history.js:23-25 | exactly the entries whose occasion equals the filter ignoring case, in order |
| History.Filtered | routes/history.js:17-25 | the filtered history is a subsequence of the stored one and holds exactly the stored entries that pass the given filters, each as often as stored |
| History.ApplyLimit | routes/history.js:26-28 | a prefix; no limit keeps everything; NaN gives nothing; a non-negative n gives min(n, 100, length) entries; a negative n drops that many from the end |
| History.Listed | routes/history.js:17-28 | the listing is a prefix of the filtered history: all of it without a limit, none for NaN, min(n, 100, filtered) entries for a non-negative n, and the filtered history less its last -n entries for a negative n |
| History.List | routes/history.js:9-35 | 400 exactly for an empty user id; 500 exactly when an occasion filter meets a type-passing entry whose occasion is neither a string nor null; otherwise the outfits are `Listed` of the stored history (so every limit case above holds), the count equals their number, and they pass the filters in stored order; an unknown user gets an empty list |
| History.WithoutId | routes/history.js:48 | every entry with the id goes and every other stays, in order; the result is shorter exactly when some entry has the id, and is the input when none has |
| History.Remove | routes/history.js:41-55 | 404 "no history" exactly when the user has no history; otherwise the history loses exactly the entries with the id; 200 exactly when one existed, else 404 with the history unchanged |
| History.Clear | routes/history.js:61-65 | the user's history becomes empty (created when missing), no other user changes, clearing twice changes nothing more |
| History.ClearThenRemove | routes/history.js:41-65 | after a clear, a remove answers "Outfit not found in history." |

## Left out

- The catalog files under `data/` and `loadOutfitData`'s file I/O and `JSON.parse` are
  left out. The parsed catalog is a parameter of `Outfits.Generate`, and a missing or
  unreadable file is `None`.
- `uuidv4`, `generateToken` and `new Date().toISOString()` are parameters. Register and
  Login require the new id and token to be fresh, as the UUIDs make them in practice.
- Outfits.HistoryStore.GenerateOutfits: all entries of a batch share one timestamp. The
  source reads the clock once per entry.
- Common.Lower: lower-cases ASCII letters only. JavaScript's `toLowerCase` also maps
  non-ASCII letters.
- Request fields whose JSON type the handlers do not expect are not modelled. A username or
  occasion that is not a string makes `trim` or `toLowerCase` throw.
- A catalog entry without `items` is not modelled. The `map` call then throws.
- The `historyStore` and `customStore` objects are plain objects like `sessions`, but the
  model reads them by their own keys only. A user id named after an Object.prototype
  member, such as "constructor", changes these replies, which the model does not capture:
  - `GET /api/history/constructor` with no filters finds the inherited `Object` function
    and answers `count: 1`, not 0;
  - `custom-save` with that user id throws at the `unshift` and answers 500;
  - `generate-outfits` with that user id answers 500 on its success path. It throws at the
    `unshift`, or at the `slice` when the batch is empty. Its 400 and 404 paths do not
    touch the store and answer as modelled;
  - `DELETE /api/history/constructor/<id>` throws at the `filter` and answers 500.
- History.Clear: the source's clear with the user id `__proto__` writes through the
  inherited `__proto__` setter, so the empty array becomes the prototype of
  `historyStore`. That changes other users' replies. For example, `GET /api/history/push`
  then finds `Array.prototype.push` and answers `count: 1` where it answered `count: 0`
  before. The model's `Clear` promises that no other user changes; it does not capture
  this write.
- Query parameters that arrive as arrays are not modelled. The `limit` parameter is given
  after `parseInt`, as the `Limit` datatype.
- JSON numbers are integers.
- The constant `message` texts of the success replies of register, login, profile update
  and custom-save ("Account created successfully.", "Logged in successfully.", "Profile
  updated.", "Outfit saved.") are not part of the modelled reply bodies. The other fields
  of those replies are.
- Passwords are compared as plain text, as the source stores them.
- Concurrency is left out. The handlers run one at a time, so each is one atomic step.
- The Express routing, the middleware in server.js, the static assets of routes/assets.js
  and generate-placeholders.js are not part of this model.
- Auth.AuthStore.UpdateProfile and Auth.AuthStore.Logout use the own-key session lookup of
  the corrected `Me` (see Findings). For a prototype-named token, the source's
  UpdateProfile answers 404 and Logout deletes nothing. Neither has a separate as-written
  member.

## Findings

| source | as written | input that shows it | evidently intended | confidence | as-written member | corrected member |
|---|---|---|---|---|---|---|
| routes/auth.js:106-112 | `sessions` is a plain object, so `sessions[token]` finds members inherited from Object.prototype; such a member is truthy, passes the 401 guard, and is no user's id | `GET /api/auth/me` with `Authorization: Bearer constructor` answers 404 "User not found." | a token that opens no session answers 401 "Not authenticated." | high, not executed | Auth.InheritedNameReachesNotFound | Auth.AuthStore.Me |
