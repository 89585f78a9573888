/** bank/user/UserManager.java: the role-permission rule for creating users,
    the operations that push a rebuilt user record into the repository, and
    the "copy with one change" helpers on user records. */
module UserManager {
  import opened Options
  import opened Ids
  import opened Roles
  import Users
  import opened Repository
  import Domain

  /** Why an operation threw. */
  datatype Failure =
    | NotAllowed   // the performing role lacks the right
    | UnknownUser  // no record under that id
    | NotListed    // update found no listed record with that id
    | UnknownRole  // the stored role text names no Role constant

  datatype Result<T> = Success(value: T) | Failure(error: Failure)

  /** validateUserCreationRights: an administrator may create customers,
      tellers and administrators, a teller only customers, nobody else
      anything. */
  function CanCreate(current: Role, target: Role): bool
  {
    match current
    case ADMIN => target == CUSTOMER || target == TELLER || target == ADMIN
    case TELLER => target == CUSTOMER
    case _ => false
  }

  /** The permission table read the other way round: who may create each
      role. Nobody may create a manager, and nobody but an administrator may
      create an administrator or a teller. */
  lemma {:induction false} CreationRights(current: Role, target: Role)
    ensures CanCreate(current, target) <==>
      (current == ADMIN && target != MANAGER) || (current == TELLER && target == CUSTOMER)
    ensures !CanCreate(current, MANAGER)
    ensures CanCreate(current, target) ==> current == ADMIN || current == TELLER
  {
    match current
    case ADMIN =>
      assert CanCreate(current, target) <==> target != MANAGER by {
        match target
        case CUSTOMER =>
        case TELLER =>
        case MANAGER =>
        case ADMIN =>
      }
    case TELLER =>
    case CUSTOMER =>
    case MANAGER =>
  }

  /** The accounts the stream filter of removeAccount lets through: as
      written it keeps the accounts WITH the given number, and drops all
      the others. */
  function KeepNumbered(s: seq<Users.Account>, number: string): (r: seq<Users.Account>)
    ensures |r| <= |s|
    ensures forall i :: 0 <= i < |r| ==> r[i].number == number
    ensures forall i :: 0 <= i < |s| && s[i].number == number ==> s[i] in r
    ensures forall a :: a in r ==> a in s
  {
    if s == [] then []
    else if s[0].number == number then [s[0]] + KeepNumbered(s[1..], number)
    else KeepNumbered(s[1..], number)
  }

  /** The accounts after updateAccount's map: every account numbered like
      `updated` is replaced by it, all others stay where they are. */
  function ReplaceNumbered(s: seq<Users.Account>, updated: Users.Account): (r: seq<Users.Account>)
    ensures |r| == |s|
    ensures forall i :: 0 <= i < |s| && s[i].number == updated.number ==> r[i] == updated
    ensures forall i :: 0 <= i < |s| && s[i].number != updated.number ==> r[i] == s[i]
  {
    if s == [] then []
    else [if s[0].number == updated.number then updated else s[0]] + ReplaceNumbered(s[1..], updated)
  }

  /** The accounts after addTransaction's map: each account with that
      number gets `tx` appended to a copy of its history; balances, and the
      other accounts, are untouched. */
  function AppendNumbered(s: seq<Users.Account>, number: string, tx: Users.Transaction): (r: seq<Users.Account>)
    ensures |r| == |s|
    ensures forall i :: 0 <= i < |s| && s[i].number == number ==>
      r[i] == s[i].(transactions := s[i].transactions + [tx])
    ensures forall i :: 0 <= i < |s| && s[i].number != number ==> r[i] == s[i]
    ensures Users.Total(r) == Users.Total(s)
  {
    if s == [] then []
    else
      var a := s[0];
      [if a.number == number then Users.Account(a.number, a.kind, a.balance, a.transactions + [tx]) else a]
      + AppendNumbered(s[1..], number, tx)
  }

  /** addTransaction appends an entry without moving the balance, so the
      matched account no longer reconciles with its history unless the
      entry's amount is zero. */
  lemma AppendNumberedShiftsOpening(s: seq<Users.Account>, number: string, tx: Users.Transaction, i: int)
    requires 0 <= i < |s| && s[i].number == number
    ensures AppendNumbered(s, number, tx)[i].balance == s[i].balance
    ensures Users.Opening(AppendNumbered(s, number, tx)[i]) == Users.Opening(s[i]) - tx.amount
  {
    var t := s[i].transactions;
    assert (t + [tx])[..|t|] == t;
  }

  class UserManager {
    const repository: JsonUserRepository

    constructor (repository: JsonUserRepository)
      ensures this.repository == repository
    {
      this.repository := repository;
    }

    /** validateUserCreationRights. */
    function ValidateUserCreationRights(current: Role, target: Role): (r: bool)
      ensures r <==> (current == ADMIN && target != MANAGER) || (current == TELLER && target == CUSTOMER)
    {
      CreationRights(current, target);
      CanCreate(current, target)
    }

    /** convertToPersistence: the domain user's id, credentials and role
        name, with a new empty account list. */
    method ConvertToPersistence(user: Domain.User) returns (r: Users.User)
      ensures fresh(r.accounts) && r.accounts.items == []
      ensures r.id == user.id && r.role == Name(user.role)
      ensures r.username == user.details.username && r.name == user.details.name
      ensures r.password == user.details.password && r.email == user.details.email
    {
      var accounts := new Users.AccountList([]);
      r := Users.User(user.id, user.details.username, user.details.name, Name(user.role),
                      user.details.password, user.details.email, accounts);
    }

    /** convertFromPersistence: a new domain user built from the record's
        credentials, then given the record's id and role. Building it draws
        an id from the user counter, as the subclass constructors do; a role
        text that names no constant throws. */
    method ConvertFromPersistence(record: Users.User, ids: IdCounter, now: int) returns (r: Result<Domain.User>)
      requires ids.Valid()
      modifies ids
      ensures ids.Valid()
      ensures r.Failure? <==> ValueOf(record.role).None?
      ensures r.Failure? ==> r.error == UnknownRole && ids.last == old(ids.last)
      ensures r.Success? ==> fresh(r.value) && fresh(r.value.details)
      ensures r.Success? ==> Some(r.value.role) == ValueOf(record.role) && r.value.id == record.id
      ensures r.Success? ==> r.value.details.username == record.username && r.value.details.name == record.name
      ensures r.Success? ==> r.value.details.password == record.password && r.value.details.email == record.email
      ensures r.Success? ==> r.value.accounts == []
    {
      var role := ValueOf(record.role);
      if role.None? {
        return Failure(UnknownRole);
      }
      var details := new Domain.UserDetails(record.username, record.password, record.email, record.name, 0, "");
      var user := new Domain.User(details, role.value, ids, now);
      user.id := record.id;
      user.role := role.value;
      return Success(user);
    }

    /** createUser: refused, with nothing stored, unless the performing
        role may create the target role. Otherwise a new domain user with a
        copy of the details and the next id is made, its record appended to
        the repository with `add` (which saves) and saved once more. */
    method CreateUser(details: Domain.UserDetails, targetRole: Role, currentRole: Role, ids: IdCounter, now: int)
      returns (r: Result<Domain.User>)
      requires ids.Valid()
      modifies repository.store, ids
      ensures ids.Valid()
      ensures r.Failure? <==> !ValidateUserCreationRights(currentRole, targetRole)
      ensures r.Failure? ==> r.error == NotAllowed && ids.last == old(ids.last)
      ensures r.Failure? ==> repository.store.users == old(repository.store.users)
                             && repository.store.byId == old(repository.store.byId)
                             && repository.store.saves == old(repository.store.saves)
      ensures r.Success? ==>
        && fresh(r.value) && r.value.role == targetRole && r.value.id == ids.last
        && r.value.details.username == old(details.username) && r.value.details.password == old(details.password)
        && r.value.details.email == old(details.email) && r.value.details.name == old(details.name)
        && |repository.store.users| == |old(repository.store.users)| + 1
        && repository.store.users[..|old(repository.store.users)|] == old(repository.store.users)
        && var record := repository.store.users[|old(repository.store.users)|];
           && record.id == r.value.id && record.role == Name(targetRole)
           && record.username == old(details.username) && record.password == old(details.password)
           && record.name == old(details.name) && record.email == old(details.email)
           && fresh(record.accounts) && record.accounts.items == []
           && repository.store.byId == old(repository.store.byId)[record.id := record]
      ensures r.Success? ==> repository.store.saves == old(repository.store.saves) + 2
    {
      if !ValidateUserCreationRights(currentRole, targetRole) {
        return Failure(NotAllowed);
      }
      var copy := new Domain.UserDetails(details.username, details.password, details.email, details.name, 0, "");
      var newUser := new Domain.User(copy, targetRole, ids, now);
      newUser.role := targetRole;
      var record := ConvertToPersistence(newUser);
      repository.Add(record);
      repository.Save();
      return Success(newUser);
    }

    /** updateUser: throws for an id unknown to USER_MAP. Otherwise a record
        with the same id and role, the new username, name, password and
        email, and a new list holding either the converted new accounts or
        the old record's accounts, replaces the listed record with that id;
        the result is that record converted back. */
    method UpdateUser(userId: int, newDetails: Domain.UserDetails, newAccounts: Option<seq<Domain.Account>>, ids: IdCounter, now: int)
      returns (r: Result<Domain.User>)
      requires ids.Valid()
      modifies repository.store, ids
      ensures ids.Valid()
      ensures repository.store.byId == old(repository.store.byId)
      ensures |repository.store.users| == |old(repository.store.users)|
      ensures r == Failure(UnknownUser) <==> userId !in old(repository.store.byId)
      ensures userId !in old(repository.store.byId) ==>
        repository.store.users == old(repository.store.users) && repository.store.saves == old(repository.store.saves)
      ensures userId in old(repository.store.byId) ==>
        var record := old(repository.store.byId[userId]);
        var k := IdIndex(old(repository.store.users), record.id);
        && (r == Failure(NotListed) <==> k == |old(repository.store.users)|)
        && (k == |old(repository.store.users)| ==> repository.store.users == old(repository.store.users))
        && (k < |old(repository.store.users)| ==>
             var updated := repository.store.users[k];
             && repository.store.users == old(repository.store.users)[k := updated]
             && repository.store.saves == old(repository.store.saves) + 1
             && updated.id == record.id && updated.role == record.role
             && updated.username == old(newDetails.username) && updated.name == old(newDetails.name)
             && updated.password == old(newDetails.password) && updated.email == old(newDetails.email)
             && fresh(updated.accounts)
             && (newAccounts.None? ==> updated.accounts.items == old(record.accounts.items))
             && (newAccounts.Some? ==> |updated.accounts.items| == |newAccounts.value|)
             && (r.Success? <==> ValueOf(record.role).Some?)
             && (r.Success? ==> r.value.id == record.id && Some(r.value.role) == ValueOf(record.role)))
    {
      var found := repository.GetById(userId);
      if found.None? {
        return Failure(UnknownUser);
      }
      var record := found.value;
      var accountsToUse: seq<Users.Account>;
      if newAccounts.Some? {
        accountsToUse := ConvertAccountsToPersistence(newAccounts.value);
      } else {
        accountsToUse := record.accounts.items;
      }
      var copy := new Users.AccountList(accountsToUse);
      var updatedRecord := Users.User(record.id, newDetails.username, newDetails.name, record.role,
                                      newDetails.password, newDetails.email, copy);
      var listed := repository.Update(updatedRecord);
      if !listed {
        return Failure(NotListed);
      }
      r := ConvertFromPersistence(updatedRecord, ids, now);
    }

    /** convertAccountsToPersistence: number, type and balance of each
        domain account, in order, with an empty history. */
    static method ConvertAccountsToPersistence(accounts: seq<Domain.Account>) returns (r: seq<Users.Account>)
      ensures |r| == |accounts|
      ensures forall i :: 0 <= i < |accounts| ==>
        r[i] == Users.Account(accounts[i].accountNumber, accounts[i].accountType, accounts[i].balance, [])
    {
      r := [];
      var i := 0;
      while i < |accounts|
        invariant i <= |accounts| && |r| == i
        invariant forall j :: 0 <= j < i ==>
          r[j] == Users.Account(accounts[j].accountNumber, accounts[j].accountType, accounts[j].balance, [])
      {
        r := r + [Users.Account(accounts[i].accountNumber, accounts[i].accountType, accounts[i].balance, [])];
        i := i + 1;
      }
    }

    /** assignRole: only an administrator may, and only for an id known to
        USER_MAP. The new record differs from the old one only in its role
        name and in holding a copy of the account list. */
    method AssignRole(userId: int, newRole: Role, performedBy: Role, ids: IdCounter, now: int)
      returns (r: Result<Domain.User>)
      requires ids.Valid()
      modifies repository.store, ids
      ensures ids.Valid()
      ensures repository.store.byId == old(repository.store.byId)
      ensures |repository.store.users| == |old(repository.store.users)|
      ensures r == Failure(NotAllowed) <==> performedBy != ADMIN
      ensures r == Failure(UnknownUser) <==> performedBy == ADMIN && userId !in old(repository.store.byId)
      ensures r.Failure? && r.error != NotListed ==>
        repository.store.users == old(repository.store.users) && repository.store.saves == old(repository.store.saves)
      ensures r != Failure(UnknownRole)
      ensures performedBy == ADMIN && userId in old(repository.store.byId) ==>
        var record := old(repository.store.byId[userId]);
        var k := IdIndex(old(repository.store.users), record.id);
        && (r == Failure(NotListed) <==> k == |old(repository.store.users)|)
        && (k == |old(repository.store.users)| ==> repository.store.users == old(repository.store.users))
        && (k < |old(repository.store.users)| ==>
             var updated := repository.store.users[k];
             && repository.store.users == old(repository.store.users)[k := updated]
             && repository.store.saves == old(repository.store.saves) + 1
             && updated == record.(role := Name(newRole), accounts := updated.accounts)
             && fresh(updated.accounts) && updated.accounts.items == old(record.accounts.items)
             && r.Success? && r.value.id == record.id && r.value.role == newRole)
    {
      if performedBy != ADMIN {
        return Failure(NotAllowed);
      }
      var found := repository.GetById(userId);
      if found.None? {
        return Failure(UnknownUser);
      }
      var record := found.value;
      var copy := new Users.AccountList(record.accounts.items);
      var updatedRecord := Users.User(record.id, record.username, record.name, Name(newRole),
                                      record.password, record.email, copy);
      var listed := repository.Update(updatedRecord);
      if !listed {
        return Failure(NotListed);
      }
      r := ConvertFromPersistence(updatedRecord, ids, now);
    }

    /** addAccount: a copy of the record whose new account list is the old
        one followed by the account. */
    method AddAccount(user: Users.User, account: Users.Account) returns (r: Users.User)
      ensures fresh(r.accounts)
      ensures r == user.(accounts := r.accounts)
      ensures r.accounts.items == user.accounts.items + [account]
    {
      var updatedAccounts := new Users.AccountList(user.accounts.items + [account]);
      r := Users.User(user.id, user.username, user.name, user.role, user.password, user.email, updatedAccounts);
    }

    /** removeAccount, as written: a copy of the record keeping only the
        accounts whose number EQUALS the argument. */
    method RemoveAccount(user: Users.User, accountNumber: string) returns (r: Users.User)
      ensures fresh(r.accounts)
      ensures r == user.(accounts := r.accounts)
      ensures r.accounts.items == KeepNumbered(user.accounts.items, accountNumber)
    {
      var updatedAccounts := new Users.AccountList(KeepNumbered(user.accounts.items, accountNumber));
      r := Users.User(user.id, user.username, user.name, user.role, user.password, user.email, updatedAccounts);
    }

    /** updateAccount: a copy of the record in which every account numbered
        like the argument is replaced by it. */
    method UpdateAccount(user: Users.User, updatedAccount: Users.Account) returns (r: Users.User)
      ensures fresh(r.accounts)
      ensures r == user.(accounts := r.accounts)
      ensures r.accounts.items == ReplaceNumbered(user.accounts.items, updatedAccount)
    {
      var updatedAccounts := new Users.AccountList(ReplaceNumbered(user.accounts.items, updatedAccount));
      r := Users.User(user.id, user.username, user.name, user.role, user.password, user.email, updatedAccounts);
    }

    /** addTransaction: a copy of the record in which each account with
        that number has `tx` appended to its history. */
    method AddTransaction(user: Users.User, accountNumber: string, tx: Users.Transaction) returns (r: Users.User)
      ensures fresh(r.accounts)
      ensures r == user.(accounts := r.accounts)
      ensures r.accounts.items == AppendNumbered(user.accounts.items, accountNumber, tx)
    {
      var updatedAccounts := new Users.AccountList(AppendNumbered(user.accounts.items, accountNumber, tx));
      r := Users.User(user.id, user.username, user.name, user.role, user.password, user.email, updatedAccounts);
    }
  }

  /** removeAccount followed by a lookup of any other number finds nothing:
      as written, the operation meant to drop one account drops every other
      one instead. */
  lemma {:induction false} RemoveAccountKeepsOnlyMatches(s: seq<Users.Account>, number: string, other: string)
    requires other != number
    ensures Users.FirstNumbered(KeepNumbered(s, number), other).None?
    ensures |KeepNumbered(s, number)| <= 1 <== forall i, j :: 0 <= i < j < |s| ==> s[i].number != s[j].number
  {
    var r := KeepNumbered(s, number);
    assert Users.NumberIndex(r, other) == |r|;
    if forall i, j :: 0 <= i < j < |s| ==> s[i].number != s[j].number {
      AtMostOneNumbered(s, number);
    }
  }

  lemma {:induction false} AtMostOneNumbered(s: seq<Users.Account>, number: string)
    requires forall i, j :: 0 <= i < j < |s| ==> s[i].number != s[j].number
    ensures |KeepNumbered(s, number)| <= 1
  {
    if s != [] {
      AtMostOneNumbered(s[1..], number);
      if s[0].number == number {
        assert forall i :: 0 <= i < |s[1..]| ==> s[1..][i].number != number;
        NoneNumbered(s[1..], number);
      }
    }
  }

  lemma {:induction false} NoneNumbered(s: seq<Users.Account>, number: string)
    requires forall i :: 0 <= i < |s| ==> s[i].number != number
    ensures KeepNumbered(s, number) == []
  {
    if s != [] {
      NoneNumbered(s[1..], number);
    }
  }

  /** The filter distributes over concatenation: the kept accounts appear in
      their original order, each as often as in the list. */
  lemma {:induction false} KeepNumberedAppend(s: seq<Users.Account>, t: seq<Users.Account>, number: string)
    ensures KeepNumbered(s + t, number) == KeepNumbered(s, number) + KeepNumbered(t, number)
  {
    if s == [] {
      assert s + t == t;
    } else {
      assert (s + t)[1..] == s[1..] + t;
      KeepNumberedAppend(s[1..], t, number);
    }
  }
}
