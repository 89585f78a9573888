/** bank/user/Authentication.java: credential checks against the stored
    user records, and the password change. A Java null argument is None. */
module Authentication {
  import opened Options
  import opened Users
  import opened Repository

  /** String.trim().isEmpty(): trim strips every character up to and
      including the space from both ends, so a blank text consists of such
      characters only. */
  predicate IsBlank(s: string)
  {
    forall i :: 0 <= i < |s| ==> s[i] <= ' '
  }

  /** The position of the first record with that username, |s| when none. */
  function UsernameIndex(s: seq<User>, username: string): (k: nat)
    ensures k <= |s|
    ensures k < |s| ==> s[k].username == username
    ensures forall i :: 0 <= i < k ==> s[i].username != username
  {
    if s == [] then 0
    else if s[0].username == username then 0
    else 1 + UsernameIndex(s[1..], username)
  }

  /** What changePassword reports. Java returns false for bad credentials
      and true on success; `NotListed` is the IllegalArgumentException
      update throws when the record found by id is missing from the list. */
  datatype PasswordChange = Changed | Rejected | NotListed

  class Authentication {
    const repository: JsonUserRepository

    constructor (repository: JsonUserRepository)
      ensures this.repository == repository
    {
      this.repository := repository;
    }

    /** authenticateByUsername: only the first listed record with that
        username is considered, and it is returned exactly when its stored
        password equals the given one. */
    function AuthenticateByUsername(username: Option<string>, password: Option<string>): (r: Option<User>)
      reads repository.store
      ensures username.None? || password.None? || IsBlank(username.value) ==> r.None?
      ensures r.Some? ==> r.value.username == username.value && r.value.password == password.value
      ensures r.Some? ==> UsernameIndex(repository.store.users, username.value) < |repository.store.users|
                          && r.value == repository.store.users[UsernameIndex(repository.store.users, username.value)]
      ensures username.Some? && password.Some? && !IsBlank(username.value)
        && UsernameIndex(repository.store.users, username.value) < |repository.store.users|
        && repository.store.users[UsernameIndex(repository.store.users, username.value)].password == password.value
        ==> r.Some?
    {
      if username.None? || password.None? || IsBlank(username.value) then None
      else
        var users := repository.GetAll();
        var k := UsernameIndex(users, username.value);
        if k == |users| then None
        else if password.value != users[k].password then None
        else Some(users[k])
    }

    /** authenticateById: the record USER_MAP holds for the id, exactly when
        a password is given and equals the stored one. */
    function AuthenticateById(userId: int, password: Option<string>): (r: Option<User>)
      reads repository.store
      ensures r.Some? <==> password.Some? && userId in repository.store.byId
                           && repository.store.byId[userId].password == password.value
      ensures r.Some? ==> r.value == repository.store.byId[userId]
    {
      if password.None? then None
      else
        var user := repository.GetById(userId);
        if user.None? then None
        else if password.value != user.value.password then None
        else user
    }

    /** userExists: false for a missing or blank username, otherwise whether
        any stored record has exactly that username. */
    function UserExists(username: Option<string>): (r: bool)
      reads repository.store
      ensures r <==> username.Some? && !IsBlank(username.value)
                     && exists i :: 0 <= i < |repository.store.users| && repository.store.users[i].username == username.value
    {
      if username.None? || IsBlank(username.value) then false
      else UsernameIndex(repository.GetAll(), username.value) < |repository.GetAll()|
    }

    /** changePassword: after the current password authenticates by id, a
        copy of the record that differs only in its password, and shares
        the same account list, is written with update and then saved again. */
    method ChangePassword(userId: int, currentPassword: Option<string>, newPassword: string) returns (r: PasswordChange)
      modifies repository.store
      ensures r == Rejected <==> old(AuthenticateById(userId, currentPassword)).None?
      ensures r != Changed ==> repository.store.users == old(repository.store.users)
                               && repository.store.saves == old(repository.store.saves)
      ensures r == Changed ==>
        var user := old(repository.store.byId[userId]);
        var k := IdIndex(old(repository.store.users), user.id);
        && k < |old(repository.store.users)|
        && repository.store.users == old(repository.store.users)[k := user.(password := newPassword)]
        && repository.store.saves == old(repository.store.saves) + 2
      ensures r == NotListed ==>
        IdIndex(old(repository.store.users), old(repository.store.byId[userId]).id) == |old(repository.store.users)|
      ensures repository.store.byId == old(repository.store.byId)
    {
      var authResult := AuthenticateById(userId, currentPassword);
      if authResult.None? {
        return Rejected;
      }
      var user := authResult.value;
      var updatedUser := User(user.id, user.username, user.name, user.role, newPassword, user.email, user.accounts);
      var found := repository.Update(updatedUser);
      if !found {
        return NotListed;
      }
      repository.Save();
      return Changed;
    }
  }

  /** A later record with the same username never authenticates, even with
      its own password, when the first such record has another password. */
  lemma {:induction false} ShadowedUsername(auth: Authentication, i: nat, j: nat)
    requires i < j < |auth.repository.store.users|
    requires forall m :: 0 <= m < i ==> auth.repository.store.users[m].username != auth.repository.store.users[i].username
    requires auth.repository.store.users[i].username == auth.repository.store.users[j].username
    requires auth.repository.store.users[i].password != auth.repository.store.users[j].password
    ensures auth.AuthenticateByUsername(Some(auth.repository.store.users[j].username),
                                        Some(auth.repository.store.users[j].password)).None?
  {
    var users := auth.repository.store.users;
    var k := UsernameIndex(users, users[j].username);
    assert k == i;
  }

  /** Whoever authenticates by username has a username that exists. */
  lemma AuthenticatedExists(auth: Authentication, username: Option<string>, password: Option<string>)
    requires auth.AuthenticateByUsername(username, password).Some?
    ensures auth.UserExists(username)
  {
    var users := auth.repository.store.users;
    var k := UsernameIndex(users, username.value);
    assert users[k].username == username.value;
  }
}
