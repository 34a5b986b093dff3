/**
 * The documents of the `users` collection, the bodies and responses of the
 * user routes, and the lookup MongoDB performs for `{userName: name}`.
 * The collection is a sequence in natural order: nothing in the update route
 * stops two documents from sharing a user name, and a lookup then takes the
 * first of them.
 */
module Users {
  import opened Wrappers
  import opened Favorites
  import opened Validation

  /** A stored password digest, as `User.hashPassword` (database/models.js, not part of this model) returns it. */
  datatype Digest = Digest(text: string)

  /** A document of the `users` collection; `birthDate` is `None` when the request had none. */
  datatype User = User(
    userName: string,
    password: Digest,
    email: string,
    birthDate: Option<string>,
    favoriteMovies: seq<MovieId>)

  /** The body of a register or update request; an absent text field reads as "". */
  datatype Credentials = Credentials(
    userName: string,
    password: string,
    email: string,
    birthDate: Option<string>)

  /** What a handler writes back: a user as JSON, JSON `null`, a text or the validation errors. */
  datatype Body = UserJson(user: User) | NullJson | Message(text: string) | ErrorList(errors: seq<FieldError>)

  datatype Response = Response(status: int, body: Body)

  /** What the `jwt` strategy answers when the request carries no valid token. */
  const UNAUTHORIZED := Response(401, Message("Unauthorized"))

  function AlreadyExists(name: string): string {
    "The username " + name + " already exist. Please choose another username."
  }

  function NotFound(name: string): string {
    name + " was not found."
  }

  function WasDeleted(name: string): string {
    name + " was deleted."
  }

  /** `findOne({userName: name})`: the position of the first document with that name. */
  function FirstIndex(users: seq<User>, name: string): (r: Option<nat>)
    ensures r.None? <==> forall i :: 0 <= i < |users| ==> users[i].userName != name
    ensures r.Some? ==> r.value < |users| && users[r.value].userName == name
    ensures r.Some? ==> forall j :: 0 <= j < r.value ==> users[j].userName != name
  {
    if users == [] then None
    else if users[0].userName == name then Some(0)
    else match FirstIndex(users[1..], name)
      case None => None
      case Some(k) => Some(k + 1)
  }

  /** No two documents share a user name. */
  predicate Unique(users: seq<User>) {
    forall i, j :: 0 <= i < j < |users| ==> users[i].userName != users[j].userName
  }

  /** The collection as registration alone would leave it: names unique and accepted by the validators. */
  predicate WellFormed(users: seq<User>) {
    && Unique(users)
    && forall i :: 0 <= i < |users| ==> ValidUserName(users[i].userName)
  }

  /** A document appended under a name no other document has is what a later lookup of that name finds. */
  lemma {:induction false} FoundAfterInsert(users: seq<User>, u: User)
    requires FirstIndex(users, u.userName).None?
    ensures FirstIndex(users + [u], u.userName) == Some(|users|)
  {
    if users != [] {
      assert (users + [u])[1..] == users[1..] + [u];
      FoundAfterInsert(users[1..], u);
    }
  }

  /** Appending a validated document under a name not yet taken keeps the collection well formed. */
  lemma InsertKeepsWellFormed(users: seq<User>, u: User)
    requires WellFormed(users)
    requires FirstIndex(users, u.userName).None? && ValidUserName(u.userName)
    ensures WellFormed(users + [u])
  {
  }

  /** Removing the document at `k` keeps the collection well formed and leaves no document with its name. */
  lemma RemoveKeepsWellFormed(users: seq<User>, k: nat)
    requires WellFormed(users) && k < |users|
    ensures WellFormed(users[..k] + users[k + 1..])
    ensures FirstIndex(users[..k] + users[k + 1..], users[k].userName).None?
  {
  }

  /** Replacing the document at `k` by one whose name is valid and taken by no other document keeps the collection well formed. */
  lemma ReplaceKeepsWellFormed(users: seq<User>, k: nat, u: User)
    requires WellFormed(users) && k < |users|
    requires ValidUserName(u.userName)
    requires FirstIndex(users, u.userName).None? || FirstIndex(users, u.userName) == Some(k)
    ensures WellFormed(users[k := u])
  {
  }
}
