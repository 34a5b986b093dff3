/** A client session against the user routes, derived from their contracts alone. */
module Scenario {
  import opened Wrappers
  import opened Favorites
  import opened Validation
  import opened Users
  import opened Directory

  /** Register alice1, then register her again: the first is accepted and the second refused. */
  method RegisterAlice(hashPassword: string -> Digest, isEmail: string -> bool)
    returns (d: UserDirectory, first: Response, second: Response)
    requires isEmail("a@b.com")
    ensures fresh(d) && d.hashPassword == hashPassword && d.isEmail == isEmail
    ensures first.status == 200 && second.status == 400
    ensures d.users == [User("alice1", hashPassword("Secret123!"), "a@b.com", None, [])]
  {
    d := new UserDirectory(hashPassword, isEmail, []);
    var request := Credentials("alice1", "Secret123!", "a@b.com", None);
    AlphanumericLength(request.userName);
    assert RegistrationErrors(request.userName, request.password, request.email, isEmail) == [];
    first := d.Register(request);
    second := d.Register(request);
  }

  /**
   * Register alice1, register her again, add a favorite without a token and
   * then with one, add it a second time, and remove it twice: the statuses
   * answered and the favorites after registration and after each accepted
   * favorite change.
   */
  method AliceSession(hashPassword: string -> Digest, isEmail: string -> bool)
    returns (statuses: seq<int>, favorites: seq<seq<MovieId>>)
    requires isEmail("a@b.com")
    ensures statuses == [200, 400, 401, 200, 200, 200, 200]
    ensures favorites == [[], ["movie42"], ["movie42", "movie42"], [], []]
  {
    var d, r1, r2 := RegisterAlice(hashPassword, isEmail);
    var f1 := d.users[0].favoriteMovies;
    var r3 := d.AddFavorite(false, "alice1", "movie42");
    var r4 := d.AddFavorite(true, "alice1", "movie42");
    var f4 := d.users[0].favoriteMovies;
    assert |d.users| == 1 && d.users[0].userName == "alice1" && f4 == ["movie42"];
    var r5 := d.AddFavorite(true, "alice1", "movie42");
    var f5 := d.users[0].favoriteMovies;
    assert |d.users| == 1 && d.users[0].userName == "alice1" && f5 == ["movie42", "movie42"];
    var r6 := d.RemoveFavorite(true, "alice1", "movie42");
    var f6 := d.users[0].favoriteMovies;
    assert |d.users| == 1 && d.users[0].userName == "alice1" && f6 == [];
    var r7 := d.RemoveFavorite(true, "alice1", "movie42");
    var f7 := d.users[0].favoriteMovies;
    statuses := [r1.status, r2.status, r3.status, r4.status, r5.status, r6.status, r7.status];
    favorites := [f1, f4, f5, f6, f7];
  }
}
