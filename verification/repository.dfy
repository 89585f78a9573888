/** bank/user/repository/JsonUserRepository.java: the user repository
    UserManager and Authentication work through. It keeps no state of its
    own; every call goes to the Users store. */
module Repository {
  import opened Options
  import opened Users

  /** The position of the first user record with that id, |s| when none. */
  function IdIndex(s: seq<User>, id: int): (k: nat)
    ensures k <= |s|
    ensures k < |s| ==> s[k].id == id
    ensures forall i :: 0 <= i < k ==> s[i].id != id
  {
    if s == [] then 0
    else if s[0].id == id then 0
    else 1 + IdIndex(s[1..], id)
  }

  class JsonUserRepository {
    const store: Store

    /** The Java constructor loads the JSON file into the store; here the
        store is handed over already loaded. */
    constructor (store: Store)
      ensures this.store == store
    {
      this.store := store;
    }

    method Save()
      modifies store
      ensures store.users == old(store.users) && store.byId == old(store.byId)
      ensures store.saves == old(store.saves) + 1
    {
      store.Save();
    }

    /** getAll: the live USERS list. */
    function GetAll(): (r: seq<User>)
      reads store
      ensures r == store.users
    {
      store.GetAll()
    }

    /** getById: looked up in USER_MAP, not in the list. */
    function GetById(id: int): (r: Option<User>)
      reads store
      ensures r.Some? <==> id in store.byId
      ensures r.Some? ==> r.value == store.byId[id]
    {
      store.Get(id)
    }

    /** add: Users.add followed by one save; the record is then found by
        its id. */
    method Add(user: User)
      modifies store
      ensures store.users == old(store.users) + [user]
      ensures store.byId == old(store.byId)[user.id := user]
      ensures GetById(user.id) == Some(user)
      ensures store.saves == old(store.saves) + 1
    {
      store.Add(user);
      store.Save();
    }

    /** update: the first listed record with the same id is overwritten in
        place and the store saved once; with no such record Java throws
        IllegalArgumentException, here `found` is false, and nothing changes.
        Only the list is written: USER_MAP keeps the record it had, so a
        later getById still returns the old record. */
    method Update(updated: User) returns (found: bool)
      modifies store
      ensures found <==> IdIndex(old(store.users), updated.id) < |old(store.users)|
      ensures found ==> store.users == old(store.users)[IdIndex(old(store.users), updated.id) := updated]
      ensures found ==> store.saves == old(store.saves) + 1
      ensures !found ==> store.users == old(store.users) && store.saves == old(store.saves)
      ensures |store.users| == |old(store.users)|
      ensures store.byId == old(store.byId)
    {
      var allUsers := GetAll();
      var i := 0;
      while i < |allUsers|
        invariant i <= |allUsers|
        invariant forall j :: 0 <= j < i ==> allUsers[j].id != updated.id
        invariant store.users == allUsers
      {
        if allUsers[i].id == updated.id {
          store.users := allUsers[i := updated];
          Save();
          return true;
        }
        i := i + 1;
      }
      return false;
    }
  }
}
