/** The session (src/contexts/AuthContext.jsx): two independent optional
    slots, the signed-in user and the signed-in admin, each mirrored into
    the browser's key-value storage under its own key. */
module Auth {
  import opened Wrappers
  import opened Json

  const UserKey := "user"
  const AdminKey := "admin"

  /** The browser's `localStorage`, holding records directly. */
  class LocalStorage {
    var items: map<string, Record>

    constructor (items: map<string, Record>)
      ensures this.items == items
    {
      this.items := items;
    }
  }

  /** `localStorage.getItem(key)`, parsed; `None` when the key is absent. */
  function Lookup(items: map<string, Record>, key: string): Option<Record>
  {
    if key in items then Some(items[key]) else None
  }

  /** What logout leaves in storage. */
  function LoggedOut(items: map<string, Record>): (r: map<string, Record>)
    ensures r.Keys == items.Keys - {UserKey, AdminKey}
    ensures forall k :: k in r ==> r[k] == items[k]
  {
    items - {UserKey, AdminKey}
  }

  /** Logging out twice leaves storage as logging out once. */
  lemma LogoutIdempotent(items: map<string, Record>)
    ensures LoggedOut(LoggedOut(items)) == LoggedOut(items)
    ensures Lookup(LoggedOut(items), UserKey) == None && Lookup(LoggedOut(items), AdminKey) == None
  {
  }

  class Provider {
    var user: Option<Record>
    var admin: Option<Record>
    var loading: bool
    const storage: LocalStorage

    /** Memory and storage agree on both slots (absent means null). */
    ghost predicate Mirrored()
      reads this, storage
    {
      user == Lookup(storage.items, UserKey) && admin == Lookup(storage.items, AdminKey)
    }

    /** Once the stored session has been restored, memory mirrors storage. */
    ghost predicate Valid()
      reads this, storage
    {
      !loading ==> Mirrored()
    }

    constructor (storage: LocalStorage)
      ensures this.storage == storage
      ensures user == None && admin == None && loading && Valid()
    {
      this.storage := storage;
      user, admin, loading := None, None, true;
    }

    /** The mount effect: each slot is taken from storage when its key is
        present, and otherwise keeps its value; loading ends. */
    method Restore()
      modifies this`user, this`admin, this`loading
      ensures user == (if UserKey in storage.items then Some(storage.items[UserKey]) else old(user))
      ensures admin == (if AdminKey in storage.items then Some(storage.items[AdminKey]) else old(admin))
      ensures !loading
      ensures old(user).None? && old(admin).None? ==> Mirrored() && Valid()
    {
      var storedUser := Lookup(storage.items, UserKey);
      var storedAdmin := Lookup(storage.items, AdminKey);
      if storedUser.Some? {
        user := storedUser;
      }
      if storedAdmin.Some? {
        admin := storedAdmin;
      }
      loading := false;
    }

    /** login: sets the user slot and its storage entry; the admin slot is
        untouched. */
    method Login(userData: Record)
      modifies this`user, storage`items
      ensures user == Some(userData) && admin == old(admin) && loading == old(loading)
      ensures storage.items == old(storage.items)[UserKey := userData]
      ensures old(Valid()) ==> Valid()
    {
      user := Some(userData);
      storage.items := storage.items[UserKey := userData];
    }

    /** adminLogin: sets the admin slot and its storage entry; the user slot
        is untouched. */
    method AdminLogin(adminData: Record)
      modifies this`admin, storage`items
      ensures admin == Some(adminData) && user == old(user) && loading == old(loading)
      ensures storage.items == old(storage.items)[AdminKey := adminData]
      ensures old(Valid()) ==> Valid()
    {
      admin := Some(adminData);
      storage.items := storage.items[AdminKey := adminData];
    }

    /** logout: clears both slots and removes both storage keys; memory and
        storage agree afterwards whatever they held before. */
    method Logout()
      modifies this`user, this`admin, storage`items
      ensures user == None && admin == None && loading == old(loading)
      ensures storage.items == LoggedOut(old(storage.items))
      ensures Mirrored() && Valid()
    {
      user := None;
      admin := None;
      storage.items := storage.items - {UserKey};
      storage.items := storage.items - {AdminKey};
    }

    /** `isAuthenticated: !!user`; once the session is restored, a user is
        signed in exactly when storage holds the `'user'` entry. */
    function IsAuthenticated(): (b: bool)
      reads this, storage
      ensures b <==> user.Some?
      ensures !loading && Valid() ==> (b <==> UserKey in storage.items)
    {
      user.Some?
    }

    /** `isAdmin: !!admin`; once the session is restored, an admin is
        signed in exactly when storage holds the `'admin'` entry. */
    function IsAdmin(): (b: bool)
      reads this, storage
      ensures b <==> admin.Some?
      ensures !loading && Valid() ==> (b <==> AdminKey in storage.items)
    {
      admin.Some?
    }
  }
}
