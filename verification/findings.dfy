/**
 * Inputs on which the update route, as written, does what its own
 * declarations and the rest of the service rule out, each set beside what
 * `UpdateChecked` answers to the same request.
 */
module Findings {
  import opened Wrappers
  import opened Validation
  import opened Users
  import opened Directory

  function Alice(hashPassword: string -> Digest): User {
    User("alice1", hashPassword("Secret123"), "alice@example.com", None, [])
  }

  function Bob(hashPassword: string -> Digest): User {
    User("bobby2", hashPassword("Hunter22"), "bob@example.com", None, ["movie42"])
  }

  /** The update route stores a user name its own validators reject. */
  method UpdateIgnoresValidation(hashPassword: string -> Digest, isEmail: string -> bool)
    returns (before: seq<User>, res: Response, after: seq<User>, checked: Response, afterChecked: seq<User>)
    ensures WellFormed(before)
    ensures res.status == 200 && res.body.UserJson? && !ValidUserName(res.body.user.userName)
    ensures res.body.user in after && !WellFormed(after)
    ensures checked.status == 422 && afterChecked == before
  {
    AlphanumericLength("alice1");
    before := [Alice(hashPassword)];
    var request := Credentials("al ice", "Secret123", "alice@example.com", None);
    var asWritten := new UserDirectory(hashPassword, isEmail, before);
    res := asWritten.Update("alice1", request);
    after := asWritten.users;
    assert !IsAlphanumericChar(request.userName[2]);
    assert after[0] == res.body.user;
    var corrected := new UserDirectory(hashPassword, isEmail, before);
    checked := corrected.UpdateChecked(true, "alice1", request);
    afterChecked := corrected.users;
  }

  /** The two-user collection the duplicate-name witness starts from: each name found where it stands. */
  lemma AliceAndBobFound(hashPassword: string -> Digest)
    ensures var users := [Alice(hashPassword), Bob(hashPassword)];
      FirstIndex(users, "alice1") == Some(0) && FirstIndex(users, "bobby2") == Some(1)
  {
  }

  /** The two-user collection the duplicate-name witness starts from is well formed. */
  lemma AliceAndBobWellFormed(hashPassword: string -> Digest)
    ensures WellFormed([Alice(hashPassword), Bob(hashPassword)])
  {
    AlphanumericLength("alice1");
    AlphanumericLength("bobby2");
  }

  /** The update route gives a second document a name that is already taken. */
  method UpdateDuplicatesUserName(hashPassword: string -> Digest, isEmail: string -> bool)
    returns (before: seq<User>, after: seq<User>, checked: Response, afterChecked: seq<User>)
    requires isEmail("alice@example.com")
    ensures WellFormed(before) && !Unique(after)
    ensures checked.status == 400 && afterChecked == before
  {
    before := [Alice(hashPassword), Bob(hashPassword)];
    AliceAndBobFound(hashPassword);
    var request := Credentials("bobby2", "Secret123", "alice@example.com", None);
    AlphanumericLength(request.userName);
    assert RegistrationErrors(request.userName, request.password, request.email, isEmail) == [];
    var asWritten := new UserDirectory(hashPassword, isEmail, before);
    var _ := asWritten.Update("alice1", request);
    after := asWritten.users;
    assert after[0].userName == after[1].userName;
    var corrected := new UserDirectory(hashPassword, isEmail, before);
    checked := corrected.UpdateChecked(true, "alice1", request);
    afterChecked := corrected.users;
    AliceAndBobWellFormed(hashPassword);
  }

  /** The update route lets a request without any token overwrite another user's password and e-mail. */
  method UpdateNeedsNoToken(hashPassword: string -> Digest, isEmail: string -> bool)
    returns (res: Response, after: seq<User>, checked: Response)
    ensures res.status == 200 && |after| == 1
    ensures after[0].userName == "alice1" && after[0].email == "mallory@example.com"
    ensures after[0].password == hashPassword("stolen")
    ensures checked == UNAUTHORIZED
  {
    var before := [Alice(hashPassword)];
    var request := Credentials("alice1", "stolen", "mallory@example.com", None);
    var asWritten := new UserDirectory(hashPassword, isEmail, before);
    res := asWritten.Update("alice1", request);
    after := asWritten.users;
    var corrected := new UserDirectory(hashPassword, isEmail, before);
    checked := corrected.UpdateChecked(false, "alice1", request);
  }
}
