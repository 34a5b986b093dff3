# Users and favorites of the 90s Movies API, modelled in Dafny

The service keeps its user accounts in the MongoDB collection `users`. Five
routes change that collection:

- register (`POST /users/add`);
- update profile (`PUT /user/:userName`);
- add a favorite movie (`POST /users/:userName/favMovies/:favoriteMovies`);
- remove a favorite movie (`DELETE /users/:userName/Movies/:favoriteMovies`);
- deregister (`DELETE /users/delete/:userName`).

Of these five routes, add-favorite, remove-favorite and deregister sit behind
the passport `jwt` guard (index.js:270, 295, 319); register and update do not.

This project models those five handlers as the methods of one class,
`Directory.UserDirectory`. The class holds the collection as a sequence of user
documents in natural order. Each method returns the handler's response (status
and body) and states the new collection in terms of the old one.

The collection is a sequence, not a map keyed by user name, because the update
route never checks the new name. Two documents can therefore end up sharing a
name. MongoDB's `findOne`, `findOneAndUpdate` and `findOneAndRemove` then act on
the first match, which `Users.FirstIndex` models.

`Users.WellFormed` is the state registration alone would produce: unique names,
each one accepted by the validators. Every handler except update preserves it.

Modules:

- `Favorites`: the `favoriteMovies` array and the two MongoDB operators applied to it. `$push` appends. `$pull` (`Pull`) removes every equal element.
- `Validation`: the four express-validator chains and the error list the register handler returns with status 422.
- `Users`: documents, request bodies, responses, the lookup by name, and the well-formedness lemmas.
- `Directory`: the route handlers, plus `UpdateChecked`, the corrected update route (see Findings).
- `Findings`: concrete requests on which the update route as written goes wrong.
- `Scenario`: a client session of register, conflict, unauthenticated add, double add and double remove. It is derived from the handlers' contracts alone.

Collaborators whose code is not part of this model are parameters of the
class:

- `hashPassword` stands for `User.hashPassword`. database/models.js is not part of this model.
- `isEmail` stands for express-validator's e-mail syntax test.
- `authenticated` stands for the verdict of the `jwt` strategy. helpers/passport.js and middlewares/auth.js are not part of this model.

No handler reads the identity inside the token. The document acted on is always
the one named in the path, so a caller holding any valid token can change any
user's favorites or delete any user.

Three behaviours of the handlers are easy to misread, and the model keeps them as written:

- Update never answers 422. Its four validators are declared at index.js:234-237, but the handler never calls `validationResult`.
- Deregister answers a missing user with 400 "… was not found." (index.js:323). Update, add-favorite and remove-favorite instead pass the `null` result of `findOneAndUpdate` to `res.json`, which answers 200 with JSON `null`.
- Add-favorite uses `$push` with no membership check (index.js:272). Repeated adds give repeated ids, and remove-favorite's `$pull` drops all of them.

## Model

| member | source | states |
|---|---|---|
| `Validation.VisibleLength` | index.js:184 | The length `isLength` measures: never more than the number of code points, and equal to it exactly when the name has no U+FE0E/U+FE0F presentation selector. |
| `Validation.VisibleLengthAppend` | index.js:184 | One character measures 0 if it is U+FE0E or U+FE0F and 1 otherwise, and the measure of a concatenation is the sum of the measures. Together these fix the measure of every string: code points less selectors. |
| `Validation.AlphanumericLength` | index.js:184-185 | For a name that passes the alphanumeric check, the measured length is its plain length. |
| `Validation.RegistrationErrors` | index.js:183-194 | The error list is empty exactly when the name has a measured length of at least 5 and is non-empty ASCII alphanumeric, the password is non-empty, and the e-mail passes `isEmail`. Each chain's error (location "body", parameter, message and value) is present exactly when that chain's test fails. There are at most four errors. |
| `Validation.RegistrationErrorsExact` | index.js:184-193 | The list's length is exactly the number of failing chains, and its entries appear in the order the chains are declared (length, alphanumeric, password, e-mail). With the membership clauses of `RegistrationErrors`, the list holds exactly the failing chains' errors, in declaration order. |
| `Users.FirstIndex` | index.js:198 | Models the lookup `{userName: name}`. None exactly when no document has the name. Otherwise the index of a document with that name, with no earlier document having it. |
| `Users.FoundAfterInsert` | index.js:198-209 | After a document is appended under a name no document had, a lookup of that name finds the appended document. |
| `Users.InsertKeepsWellFormed` | index.js:196-209 | Appending a document with a validated, untaken name keeps names unique and valid. |
| `Users.RemoveKeepsWellFormed` | index.js:320 | Removing a document from a well-formed collection keeps it well formed and leaves no document with the removed name. |
| `Users.ReplaceKeepsWellFormed` | index.js:242-249 | Replacing a document by one whose name is valid and held by no other document keeps the collection well formed. |
| `Directory.UserDirectory.Register` | index.js:183-222 | On validation errors: 422 with the error list, collection unchanged. If the name is taken: 400 "The username … already exist. …", collection unchanged. Otherwise: 200 with the new document, appended as the only change. The new document holds the given name, `hashPassword(password)` (not the plaintext), e-mail and birth date, and no favorites. A later lookup of the name finds it. Well-formedness is preserved. |
| `Directory.UserDirectory.Update` | index.js:233-258 | No token and no validation. A missing user gives 200 with `null` and no change. Otherwise the first document with the path name gets the request's name, `hashPassword(password)`, e-mail and birth date, keeping its favorites. Nothing else changes, and the updated document is returned. |
| `Directory.UserDirectory.UpdateChecked` | index.js:233-258 | The corrected update route. Without a token: 401 and no change. On validation errors: 422 and no change. If another document holds the new name: 400 and no change. Otherwise it behaves like `Update`. It preserves well-formedness. |
| `Directory.UserDirectory.AddFavorite` | index.js:270-283 | Without a token: 401 and no change. A missing user gives 200 with `null` and no change. Otherwise the first document with the path name gets favorites `old + [movie]` (no membership check) and is returned. Every other field and document is unchanged, and well-formedness is preserved. |
| `Directory.UserDirectory.RemoveFavorite` | index.js:295-308 | Without a token: 401 and no change. A missing user gives 200 with `null` and no change. Otherwise that document's favorites become `Pull(old, movie)` and the document is returned. Every other field and document is unchanged, and well-formedness is preserved. |
| `Directory.UserDirectory.Deregister` | index.js:319-328 | Without a token: 401 and no change. A missing user gives 400 "… was not found." and no change. Otherwise exactly the first document with that name is removed and the answer is 200 "… was deleted.". In a well-formed collection no document with that name remains. |
| `Favorites.Pull` | index.js:296-297 | The result of `$pull` holds no copy of the value, is shorter by the number of copies removed, and holds only elements of the original. |
| `Favorites.PushCount` | index.js:271-272 | `$push` raises the count of the pushed id by one and leaves every other id's count unchanged. |
| `Favorites.PullCount` | index.js:296-297 | `$pull` sets the count of the pulled id to zero and leaves every other id's count unchanged. |
| `Favorites.PullAbsent` | index.js:296-297 | Pulling an id the list does not hold returns the list unchanged. |
| `Favorites.PullIdempotent` | index.js:296-297 | Pulling the same id twice gives the same list as pulling it once. |
| `Favorites.PullConcat` | index.js:296-297 | `$pull` on a concatenation is the concatenation of the two pulls. |
| `Favorites.PullIsSubsequence` | index.js:296-297 | What `$pull` leaves is a subsequence of the original: the remaining elements keep their relative order. |
| `Favorites.AddThenRemove` | index.js:270-299 | Adding an id and then pulling it gives the same list as pulling it outright. |
| `Findings.UpdateIgnoresValidation` | index.js:233-240 | From a well-formed collection, update answers 200 and returns a document named "al ice", which its own declared chains reject. That document is in the collection afterwards, which is then no longer well formed. `UpdateChecked` answers the same request with 422 and leaves the collection as it was. |
| `Findings.UpdateDuplicatesUserName` | index.js:242-249 | From a well-formed collection {alice1, bobby2}, renaming alice1 to bobby2 leaves two documents named bobby2. `UpdateChecked` answers 400 and leaves the collection as it was. |
| `Findings.UpdateNeedsNoToken` | index.js:233 | A request carrying no token replaces alice1's password digest and e-mail with 200. `UpdateChecked` answers 401. |
| `Scenario.RegisterAlice` | index.js:183-222 | Registering alice1 into an empty collection gives 200 and a collection holding only her record: the digest of her password, her e-mail and no favorites. Registering her again gives 400. |
| `Scenario.AliceSession` | index.js:183-308 | The scenario alice1 with password Secret123! and e-mail a@b.com runs as follows. Register gives 200 and leaves alice1 with no favorites. Registering again gives 400. Add without a token gives 401. Add with a token gives 200, leaving favorites ["movie42"]. A second add leaves ["movie42", "movie42"]. A remove leaves []. A second remove gives 200 and still []. |

## Left out

- The movie read routes (index.js:101-172), the welcome route and documentation page (index.js:89-91, 339-341), Swagger, CORS, morgan, dotenv, the Mongoose connection and `app.listen`. They are plain storage reads or configuration. The 201 status of the movie list and the `null` dereference on a missing genre or director are not modelled.
- Password hashing and verification are not modelled: `hashPassword` is an uninterpreted parameter. Its salting and its behaviour on an absent password are in database/models.js, which is not part of this model.
- Login, JWT issuing, signing, expiry and the passport strategies are not modelled: the `jwt` guard is the boolean `authenticated`. helpers/passport.js and middlewares/auth.js are not part of this model.
- E-mail syntax is not modelled: `isEmail` is an uninterpreted parameter, because it is express-validator library code.
- The 500 branches are not modelled: storage errors and exceptions raised by hashing or by Mongoose casting. Neither is the missing `.catch` in deregister, which leaves a failed removal unanswered.
- Concurrency and the atomicity of `findOneAndUpdate` under parallel requests are not modelled. Handlers run one at a time.
- The user schema (database/models.js) is not part of this model. So are its defaults, `required` rules, possible unique index, and the generated `_id`/`__v` fields. The model assumes a created user starts with an empty favorites list and no index rejects a duplicate name.
- Absent text fields are modelled as "". Mongoose's treatment of `undefined` in `$set` is not modelled. `birthDate` is kept as the request's text (`None` when absent), not cast to a date.
- `Validation.RegistrationErrors`: the length count follows validator 13.7 and later, which discounts U+FE0E/U+FE0F. Earlier validator releases count them, and then a four-letter name followed by a selector gets no "Username is required" error. Either way such a name fails the alphanumeric check, so only the error list differs, not whether registration is refused.
- Fields are read from the request body only. express-validator's `check` also looks at params, query, cookies and headers.
- Responses are modelled as a status and a body value, not as serialised JSON or text.

## Findings

| source | as written | input that shows it | evidently intended | confidence | as-written member | corrected member |
|---|---|---|---|---|---|---|
| index.js:233-240 | The update route declares the four validation chains but never calls `validationResult`, so any input is stored. | A well-formed collection with alice1; `PUT /user/alice1` with userName "al ice". | Answer 422 with the errors, as register does. | high, not executed | `Findings.UpdateIgnoresValidation` | `Directory.UserDirectory.UpdateChecked` |
| index.js:242-249 | The new `userName` is written without checking that another user holds it. | A collection with alice1 and bobby2; `PUT /user/alice1` with userName "bobby2". | Answer 400 "already exist", as register does, keeping names unique. | medium (a unique index in database/models.js would turn this into a 500), not executed | `Findings.UpdateDuplicatesUserName` | `Directory.UserDirectory.UpdateChecked` |
| index.js:233 | The update route has no `passport.authenticate("jwt")` guard, unlike every other route that changes a user. | `PUT /user/alice1` without a token, with a new password and e-mail. | Answer 401 without a valid token. | medium, not executed | `Findings.UpdateNeedsNoToken` | `Directory.UserDirectory.UpdateChecked` |
