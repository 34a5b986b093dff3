/**
 * The user routes of the service as operations on the `users` collection.
 * Each method is one route handler: it reads the request, answers with a
 * status and a body, and changes the collection by insert, field `$set`,
 * array `$push`/`$pull` or removal. Guarded routes take `authenticated`, the
 * verdict of the `jwt` strategy; the token's own identity is not an input,
 * because no handler reads it: the document acted on is the one named in
 * the path.
 */
module Directory {
  import opened Wrappers
  import opened Favorites
  import opened Validation
  import opened Users

  class UserDirectory {
    /** `User.hashPassword`, defined in database/models.js, which is not part of this model. */
    const hashPassword: string -> Digest
    /** express-validator's `isEmail()`, a library test not modelled here. */
    const isEmail: string -> bool
    /** The `users` collection in natural order. */
    var users: seq<User>

    constructor (hashPassword: string -> Digest, isEmail: string -> bool, users: seq<User>)
      ensures this.hashPassword == hashPassword && this.isEmail == isEmail
      ensures this.users == users
    {
      this.hashPassword := hashPassword;
      this.isEmail := isEmail;
      this.users := users;
    }

    /** POST /users/add: validate, refuse a taken name, else insert a new user without favorites. */
    method Register(req: Credentials) returns (res: Response)
      modifies this`users
      ensures var errors := RegistrationErrors(req.userName, req.password, req.email, isEmail);
        if errors != [] then
          res == Response(422, ErrorList(errors)) && users == old(users)
        else if FirstIndex(old(users), req.userName).Some? then
          res == Response(400, Message(AlreadyExists(req.userName))) && users == old(users)
        else
          var created := User(req.userName, hashPassword(req.password), req.email, req.birthDate, []);
          res == Response(200, UserJson(created)) && users == old(users) + [created]
      ensures res.status == 200 ==> FirstIndex(users, req.userName) == Some(|old(users)|)
      ensures old(WellFormed(users)) ==> WellFormed(users)
    {
      var errors := RegistrationErrors(req.userName, req.password, req.email, isEmail);
      if errors != [] {
        return Response(422, ErrorList(errors));
      }
      var hashed := hashPassword(req.password);
      if FirstIndex(users, req.userName).Some? {
        return Response(400, Message(AlreadyExists(req.userName)));
      }
      var created := User(req.userName, hashed, req.email, req.birthDate, []);
      FoundAfterInsert(users, created);
      if WellFormed(users) {
        InsertKeepsWellFormed(users, created);
      }
      users := users + [created];
      res := Response(200, UserJson(created));
    }

    /**
     * PUT /user/:userName as written: no token is asked for, the declared
     * validators are never read, and the new name is not checked against the
     * other documents. The first document named in the path gets the four
     * request fields; a missing user is answered with JSON `null`.
     */
    method Update(userName: string, req: Credentials) returns (res: Response)
      modifies this`users
      ensures match FirstIndex(old(users), userName)
        case None =>
          res == Response(200, NullJson) && users == old(users)
        case Some(i) =>
          var updated := User(req.userName, hashPassword(req.password), req.email, req.birthDate,
                              old(users)[i].favoriteMovies);
          res == Response(200, UserJson(updated)) && users == old(users)[i := updated]
    {
      var hashed := hashPassword(req.password);
      match FirstIndex(users, userName)
      case None =>
        res := Response(200, NullJson);
      case Some(i) =>
        var updated := User(req.userName, hashed, req.email, req.birthDate, users[i].favoriteMovies);
        users := users[i := updated];
        res := Response(200, UserJson(updated));
    }

    /**
     * PUT /user/:userName as its declarations intend it: behind the `jwt`
     * guard, answering 422 with the validation errors, and 400 when another
     * document already holds the new name.
     */
    method UpdateChecked(authenticated: bool, userName: string, req: Credentials) returns (res: Response)
      modifies this`users
      ensures var errors := RegistrationErrors(req.userName, req.password, req.email, isEmail);
        if !authenticated then
          res == UNAUTHORIZED && users == old(users)
        else if errors != [] then
          res == Response(422, ErrorList(errors)) && users == old(users)
        else match FirstIndex(old(users), userName)
          case None =>
            res == Response(200, NullJson) && users == old(users)
          case Some(i) =>
            var other := FirstIndex(old(users), req.userName);
            if other.Some? && other.value != i then
              res == Response(400, Message(AlreadyExists(req.userName))) && users == old(users)
            else
              var updated := User(req.userName, hashPassword(req.password), req.email, req.birthDate,
                                  old(users)[i].favoriteMovies);
              res == Response(200, UserJson(updated)) && users == old(users)[i := updated]
      ensures old(WellFormed(users)) ==> WellFormed(users)
    {
      if !authenticated {
        return UNAUTHORIZED;
      }
      var errors := RegistrationErrors(req.userName, req.password, req.email, isEmail);
      if errors != [] {
        return Response(422, ErrorList(errors));
      }
      var hashed := hashPassword(req.password);
      match FirstIndex(users, userName)
      case None =>
        res := Response(200, NullJson);
      case Some(i) =>
        var other := FirstIndex(users, req.userName);
        if other.Some? && other.value != i {
          return Response(400, Message(AlreadyExists(req.userName)));
        }
        var updated := User(req.userName, hashed, req.email, req.birthDate, users[i].favoriteMovies);
        if WellFormed(users) {
          ReplaceKeepsWellFormed(users, i, updated);
        }
        users := users[i := updated];
        res := Response(200, UserJson(updated));
    }

    /** POST /users/:userName/favMovies/:favoriteMovies: `$push` the movie onto the named user's favorites. */
    method AddFavorite(authenticated: bool, userName: string, movie: MovieId) returns (res: Response)
      modifies this`users
      ensures if !authenticated then
          res == UNAUTHORIZED && users == old(users)
        else match FirstIndex(old(users), userName)
          case None =>
            res == Response(200, NullJson) && users == old(users)
          case Some(i) =>
            var updated := old(users)[i].(favoriteMovies := old(users)[i].favoriteMovies + [movie]);
            res == Response(200, UserJson(updated)) && users == old(users)[i := updated]
      ensures old(WellFormed(users)) ==> WellFormed(users)
    {
      if !authenticated {
        return UNAUTHORIZED;
      }
      match FirstIndex(users, userName)
      case None =>
        res := Response(200, NullJson);
      case Some(i) =>
        var updated := users[i].(favoriteMovies := users[i].favoriteMovies + [movie]);
        users := users[i := updated];
        res := Response(200, UserJson(updated));
    }

    /** DELETE /users/:userName/Movies/:favoriteMovies: `$pull` every copy of the movie from the named user's favorites. */
    method RemoveFavorite(authenticated: bool, userName: string, movie: MovieId) returns (res: Response)
      modifies this`users
      ensures if !authenticated then
          res == UNAUTHORIZED && users == old(users)
        else match FirstIndex(old(users), userName)
          case None =>
            res == Response(200, NullJson) && users == old(users)
          case Some(i) =>
            var updated := old(users)[i].(favoriteMovies := Pull(old(users)[i].favoriteMovies, movie));
            res == Response(200, UserJson(updated)) && users == old(users)[i := updated]
      ensures old(WellFormed(users)) ==> WellFormed(users)
    {
      if !authenticated {
        return UNAUTHORIZED;
      }
      match FirstIndex(users, userName)
      case None =>
        res := Response(200, NullJson);
      case Some(i) =>
        var updated := users[i].(favoriteMovies := Pull(users[i].favoriteMovies, movie));
        users := users[i := updated];
        res := Response(200, UserJson(updated));
    }

    /** DELETE /users/delete/:userName: remove the first document with that name, or report it missing. */
    method Deregister(authenticated: bool, userName: string) returns (res: Response)
      modifies this`users
      ensures if !authenticated then
          res == UNAUTHORIZED && users == old(users)
        else match FirstIndex(old(users), userName)
          case None =>
            res == Response(400, Message(NotFound(userName))) && users == old(users)
          case Some(i) =>
            res == Response(200, Message(WasDeleted(userName)))
            && users == old(users)[..i] + old(users)[i + 1..]
      ensures old(WellFormed(users)) ==> WellFormed(users)
      ensures authenticated && old(WellFormed(users)) ==> FirstIndex(users, userName).None?
    {
      if !authenticated {
        return UNAUTHORIZED;
      }
      match FirstIndex(users, userName)
      case None =>
        res := Response(400, Message(NotFound(userName)));
      case Some(i) =>
        if WellFormed(users) {
          RemoveKeepsWellFormed(users, i);
        }
        users := users[..i] + users[i + 1..];
        res := Response(200, Message(WasDeleted(userName)));
    }
  }
}
