/** The authentication calls of the store client (src/services/api.js).
    The store is a sequence of records per collection and a query is an
    exact-equality filter over it that keeps the store's order. A store
    call that fails gives its error, which every call passes on unchanged. */
module Api {
  import opened Wrappers
  import opened Json
  import Seqs

  const DuplicateEmail := "User with this email already exists"
  const BadUserCredentials := "Invalid email or password"
  const BadAdminCredentials := "Invalid username or password"

  /** The query `?email=…&password=…` of loginUser. */
  function UserCredentials(email: string, password: string): Record -> bool
  {
    (r: Record) => Get(r, "email") == Some(Str(email)) && Get(r, "password") == Some(Str(password))
  }

  /** The query `?username=…&password=…` of loginAdmin. */
  function AdminCredentials(username: string, password: string): Record -> bool
  {
    (r: Record) => Get(r, "username") == Some(Str(username)) && Get(r, "password") == Some(Str(password))
  }

  /** The query `?email=…` of signupUser. */
  function SameEmail(userData: Record): Record -> bool
  {
    (r: Record) => Get(r, "email") == Get(userData, "email")
  }

  /** The store's answer to a query: the matching records in store order;
      it is empty exactly when no record matches. */
  function Query(records: seq<Record>, p: Record -> bool): (r: seq<Record>)
    ensures Seqs.SelectsInOrder(r, records, p)
    ensures r == [] <==> forall i :: 0 <= i < |records| ==> !p(records[i])
  {
    Seqs.FilterSelectsInOrder(records, p);
    Seqs.SelectionHead(Seqs.Filter(records, p), records, p);
    Seqs.Filter(records, p)
  }

  /** `response.data[0]` of a query, or `failure` when the answer is empty;
      a failed store call passes its own error through. */
  function FirstMatch(records: Reply<seq<Record>>, p: Record -> bool, failure: string): (r: Reply<Record>)
    ensures records.Err? ==> r == Err(records.error)
    ensures records.Ok? ==> (r.Ok? <==> exists i :: 0 <= i < |records.value| && p(records.value[i]))
    ensures records.Ok? && r.Ok? ==>
              exists i :: 0 <= i < |records.value| && r.value == records.value[i] && p(records.value[i]) &&
                          Seqs.IsFirst(records.value, p, i)
    ensures records.Ok? && r.Err? ==> r.error == failure
  {
    if records.Err? then Err(records.error)
    else
      var found := Query(records.value, p);
      Seqs.SelectionHead(found, records.value, p);
      if found == [] then Err(failure) else Ok(found[0])
  }

  /** loginUser over the users collection (`users`, or the error reaching
      it): succeeds exactly when some user has both that email and that
      password, and then gives the first such user in store order. */
  function LoginUser(users: Reply<seq<Record>>, email: string, password: string): (r: Reply<Record>)
    ensures users.Err? ==> r == Err(users.error)
    ensures users.Ok? ==>
              (r.Ok? <==> exists i :: 0 <= i < |users.value| &&
                            Get(users.value[i], "email") == Some(Str(email)) &&
                            Get(users.value[i], "password") == Some(Str(password)))
    ensures users.Ok? && r.Ok? ==>
              exists i :: 0 <= i < |users.value| && r.value == users.value[i] &&
                          Get(r.value, "email") == Some(Str(email)) &&
                          Get(r.value, "password") == Some(Str(password)) &&
                          forall j :: 0 <= j < i ==> !UserCredentials(email, password)(users.value[j])
    ensures users.Ok? && r.Err? ==> r.error == BadUserCredentials
  {
    FirstMatch(users, UserCredentials(email, password), BadUserCredentials)
  }

  /** loginAdmin over the admins collection: succeeds exactly when some
      admin has both that username and that password, and then gives the
      first such admin in store order. */
  function LoginAdmin(admins: Reply<seq<Record>>, username: string, password: string): (r: Reply<Record>)
    ensures admins.Err? ==> r == Err(admins.error)
    ensures admins.Ok? ==>
              (r.Ok? <==> exists i :: 0 <= i < |admins.value| &&
                            Get(admins.value[i], "username") == Some(Str(username)) &&
                            Get(admins.value[i], "password") == Some(Str(password)))
    ensures admins.Ok? && r.Ok? ==>
              exists i :: 0 <= i < |admins.value| && r.value == admins.value[i] &&
                          Get(r.value, "username") == Some(Str(username)) &&
                          Get(r.value, "password") == Some(Str(password)) &&
                          forall j :: 0 <= j < i ==> !AdminCredentials(username, password)(admins.value[j])
    ensures admins.Ok? && r.Err? ==> r.error == BadAdminCredentials
  {
    FirstMatch(admins, AdminCredentials(username, password), BadAdminCredentials)
  }

  /** The two login failures are told apart by their messages. */
  lemma LoginFailuresDistinct()
    ensures BadUserCredentials != BadAdminCredentials
  {
  }

  /** Appending a matching record to records none of which match makes it
      the only answer to the query. */
  lemma AppendUnmatched(records: seq<Record>, x: Record, p: Record -> bool)
    requires Query(records, p) == [] && p(x)
    ensures Query(records + [x], p) == [x]
  {
    assert (records + [x])[..|records|] == records;
  }

  /** The store's users collection, the one collection sign-up changes. */
  class Store {
    var users: seq<Record>

    constructor (users: seq<Record>)
      ensures this.users == users
    {
      this.users := users;
    }

    /** signupUser: looks the email up and, when no user has it, posts the
        new user, which the store keeps under the fresh id `newId`.
        `lookupFault` and `postFault` are the errors of the two store calls,
        when they fail. */
    method SignupUser(userData: Record, newId: Value, lookupFault: Option<string>, postFault: Option<string>)
      returns (r: Reply<Record>)
      modifies this`users
      ensures lookupFault.Some? ==> r == Err(lookupFault.value) && users == old(users)
      ensures lookupFault.None? && (exists i :: 0 <= i < |old(users)| && SameEmail(userData)(old(users)[i])) ==>
                r == Err(DuplicateEmail) && users == old(users)
      ensures lookupFault.None? && (forall i :: 0 <= i < |old(users)| ==> !SameEmail(userData)(old(users)[i])) ==>
                if postFault.Some? then r == Err(postFault.value) && users == old(users)
                else && r == Ok(userData["id" := newId])
                     && users == old(users) + [userData["id" := newId]]
                     && |Query(users, SameEmail(userData))| == 1
    {
      if lookupFault.Some? {
        return Err(lookupFault.value);
      }
      var existing := Query(users, SameEmail(userData));
      if |existing| > 0 {
        return Err(DuplicateEmail);
      }
      if postFault.Some? {
        return Err(postFault.value);
      }
      var created := userData["id" := newId];
      AppendUnmatched(users, created, SameEmail(userData));
      users := users + [created];
      r := Ok(created);
    }
  }
}
