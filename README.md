# Pokedex BFF: user table and auth decision chains

This project models the two stateable pieces of a small backend-for-frontend
for a Pokédex web app. Nearly everything else in it is glue around Express,
Passport, bcrypt, JWT and axios.

1. **The JSON user table of `lib/db.js`** (module `UserDb`). A `Store` object holds the
   ordered list of user records, which is the content of `data/db.json` with the file I/O
   removed. It has three operations:
   - `getUserByEmail` returns the first record with that email, or nothing.
   - `createUser` appends a record without checking uniqueness.
   - `updateUser` merges a patch over the first record with that email. It returns
     `null` when there is none.

   A record is a JavaScript object: a map from property names to values. A missing
   property reads as `undefined`. With this representation, `Object.assign({}, old, patch)`
   is map override.
2. **The decision chains in `index.js`** (module `Handlers`): register, login, the
   Google strategy's find-or-create callback, the bearer-token handling of
   `authMiddleware` and the checks of `/api/friends/add`. Foreign calls are
   parameters of these members:
   - bcrypt hash and compare;
   - JWT sign and verify;
   - the random short code;
   - `getUserByCode`.

   Module `Text` holds the two string rules the handlers use:
   - `auth.replace('Bearer ', '')` cuts out only the first occurrence of `"Bearer "`,
     wherever it stands in the header;
   - `email.split('@')[0]` is the text before the first `@`.

Handlers that only read the user table (`Login`, `AddFriend`) have no `modifies` clause.
The verifier therefore guarantees that they leave the store unchanged. `Register` and
`GoogleVerify` state that every failing path leaves the store unchanged, and that each
of them keeps emails unique. Four client methods at the end of `handlers.dfy` prove
end-to-end scenarios from the handlers' contracts alone:
- registering and then logging in returns the same summary and a token for the same email;
- a second registration with the same email is refused;
- an account created through Google cannot log in with a password;
- a second Google login returns the same record and adds nothing.

Records written by register and the Google strategy have no `id` property. In JavaScript,
`undefined === undefined` is true. So if a `getUserByCode` existed and returned such a
record, the `friend.id === user.id` check of `/api/friends/add` would answer "Cannot add
yourself" for any caller stored the same way. `AddFriend`'s contract states this through
`IdOf`, and `CreatedRecordsShareUndefinedId` records it.

`createUser` does not reject a duplicate email: the JSON store has no unique constraint
(lib/db.js:24-28). Uniqueness holds only because register and the Google strategy look
the email up first.

`index.js` imports `getUserByCode`, `addFriend`, `getFriends` and the favorites and teams
operations from `lib/db.js`, but that file does not define them (lib/db.js:40). The model
takes `getUserByCode` as an abstract lookup, and `AddFriend` ends at the point where
`addFriend` would be called. See `Handlers.AddFriend` under "## Left out" for what this
means for the program as written.

## Model

| member | source | states |
|---|---|---|
| `UserDb.FirstIndexOf` | lib/db.js:33 | the result is none exactly when no record has the email; otherwise it is the index of the first record with that email |
| `UserDb.Store.FindIndex` | lib/db.js:33 | `findIndex` returns -1 exactly when no record matches; otherwise it returns the first matching index (loop invariant: nothing before the cursor matches) |
| `UserDb.Lookup` | lib/db.js:19-22 | none exactly when no record has the email; otherwise the record at the first matching index |
| `UserDb.Store.GetUserByEmail` | lib/db.js:19-22 | returns `Lookup` of the current list: nothing when no record has the email; otherwise a stored record with that email, the first one |
| `UserDb.Store.Load` | lib/db.js:6-13 | a store that cannot be read or parsed (`None`) is an empty user list; otherwise its list is used as is |
| `UserDb.Store.CreateUser` | lib/db.js:24-29 | the list grows by exactly one, the new record is last, earlier records are unchanged, the record is returned |
| `UserDb.AppendDuplicateBreaksUnique` | lib/db.js:24-28 | appending a record whose email is already present leaves two records with that email: no uniqueness check |
| `UserDb.LookupAppend` | lib/db.js:19-29 | after an append, a lookup finds the same record as before if one existed; otherwise it finds the new record exactly when it carries the email |
| `UserDb.Assign` | lib/db.js:35 | the merged record has the union of the keys; every patch property wins; every other property is kept from the old record |
| `UserDb.Store.UpdateUser` | lib/db.js:31-38 | no match: returns none and the list is unchanged. Match: same length, only the first matching index replaced by the merge, every other index untouched, and the stored merged record returned |
| `UserDb.LookupAfterUpdate` | lib/db.js:33-37 | after an update whose patch keeps the email, a lookup by that email returns the merged record |
| `UserDb.AppendFreshKeepsUnique` | lib/db.js:24-28 | appending a record whose emails are all absent from a list with unique emails keeps them unique (register and the Google strategy use it after their failed lookup) |
| `Text.FirstOccurrence` | index.js:100 | the reported index is an occurrence of the pattern and none occurs earlier; none means the pattern occurs nowhere |
| `Text.RemoveFirst` | index.js:100 | without an occurrence the string is unchanged; otherwise the result is shorter by the pattern's length, and reinserting the pattern at the first occurrence gives back the input |
| `Text.RemoveFirstAfter` | index.js:100 | when no occurrence can start inside `p`, the header `p + pat + t` becomes `p + t` |
| `Text.BeforeFirst` | index.js:66 | `split(c)[0]` is a prefix without `c`, followed in the input by `c` unless it is the whole input |
| `Handlers.ProfileName` | index.js:66 | the display name when it is non-empty; otherwise the email's text before its first `@` |
| `Handlers.Summary` | index.js:128 | the reply's user object has only the email, name and code properties of the record, with the record's values |
| `Handlers.Register` | index.js:114-129 | missing or empty email or password gives 400 "Email and password required"; an existing email gives 400 "User exists"; both leave the store unchanged. Otherwise exactly one record is appended: the given email, the name or `''`, the password `hash(password)`, the code. The reply is the token for the email and the summary. Unique emails are preserved |
| `Handlers.Login` | index.js:131-141 | the checks come in a fixed order: missing fields (400), no user ("Invalid credentials"), empty stored password ("Please use Google Sign-In for this account"), compare fails ("Invalid credentials"). Only then is the token for the email issued with the stored user's summary. The store is never written |
| `Handlers.GoogleVerify` | index.js:57-77 | a profile without emails is an error and the store is unchanged. An existing user is returned unchanged with no insert. Otherwise exactly one record is appended, with password `''` and name `ProfileName`, and returned. Unique emails are preserved |
| `Handlers.Authenticate` | index.js:97-108 | 401 "No token" exactly when the header is missing or empty; otherwise the token is the header with its first `"Bearer "` removed: 401 "Invalid token" when it fails to verify, else the decoded email |
| `Handlers.BearerPrefixStripped` | index.js:100 | the header `"Bearer " + t` yields the token `t` |
| `Handlers.BearerHeaderVerified` | index.js:97-104 | for the header `"Bearer " + t` the middleware accepts exactly when `t` verifies |
| `Handlers.BearerRemovedInside` | index.js:100 | `"Bearer "` is removed from inside the header too: for any `p` without a `B`, the header `p + "Bearer " + t` yields `p + t` (so `"Token Bearer abc"` yields `"Token abc"`) |
| `Handlers.AddFriend` | index.js:304-312 | with `getUserByCode` given as a defined lookup, the checks come in order: missing code (400), unknown code (404), caller not in the store (`user.id` throws: 500), equal ids (400 "Cannot add yourself"). Only then is `addFriend` called, with the caller's and the friend's ids |
| `Handlers.CreatedRecordsShareUndefinedId` | index.js:311 | records created by register and by the Google strategy both have an undefined `id`, so they compare equal |
| `Handlers.RegisterThenLogin` | index.js:114-140 | registering a fresh email and then logging in with the same password returns the same summary, and a token for the same email signed at login time |
| `Handlers.RegisterTwice` | index.js:114-129 | a second registration of the same email gets 400 "User exists", whatever the store held before |
| `Handlers.GoogleThenLogin` | index.js:57-136 | an account created by the Google strategy gets "Please use Google Sign-In for this account" on password login |
| `Handlers.GoogleTwice` | index.js:57-73 | the first Google login adds at most one record; the second returns the record the first one produced and leaves the list length as the first left it |

## Left out

- File I/O and JSON (de)serialisation in `readDB`/`writeDB`: the store is an in-memory list. A parsed file without a `users` array (where `db.users.find` would throw) is not modelled.
- JSON values other than strings and integer numbers in records (booleans, `null`, arrays, objects, and non-integer numbers), and request bodies whose `email`, `password`, `name` or `code` are not strings: not modelled.
- `UserDb.Assign`: a patch property whose value is `undefined` (which `Object.assign` copies) cannot be expressed. No route calls `updateUser`.
- bcrypt, JWT (including the 7-day expiry) and `Math.random()` code generation: these are foreign calls, taken as parameters. A rejected `bcrypt.hash`/`compare` or a failed file write in register and login (no `try`, so no reply) is not modelled.
- `Handlers.GoogleVerify`: a failed `createUser` write, and profile emails whose `value` is `undefined`, are not modelled; only a profile with no emails takes the error path.
- Express routing, CORS, sessions, Passport serialise/deserialise, the `/auth/google/callback` redirect and logout: framework wiring.
- The PokeAPI proxies (and the `toLowerCase` of the name search): outbound HTTP.
- The battle simulator and its `power()` formula: floating point and randomness.
- Favorites, teams, `getFriends` and the storage side of `addFriend`: `lib/db.js` defines none of them, so there is no behaviour to model.
- `Handlers.AddFriend`: in the repository as written, `getUserByCode` is `undefined` (index.js:12 destructures a name that lib/db.js:40 does not export). So `await getUserByCode(code)` at index.js:309 throws a `TypeError`, and the `catch` at index.js:315-317 answers 500 "Database error" to every request that carries a code. The 404 and "Cannot add yourself" replies are reachable only once such a lookup exists. The model takes the lookup as a parameter and does not capture this 500.
- Concurrent read-modify-write cycles on the JSON file: concurrency.
