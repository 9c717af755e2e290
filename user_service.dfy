/** The JSON API over user accounts (services/users.js). */
module UserService {
  import opened Results
  import opened UserModel
  import Ordering

  /** GET /users: every account once, password left out. */
  method GetAllUsers(table: UserTable) returns (views: seq<UserView>)
    requires table.Valid()
    ensures |views| == |table.docs|
    ensures forall i :: 0 <= i < |views| ==> views[i].email in table.docs && views[i] == ViewOf(table.docs[views[i].email])
    ensures forall e :: e in table.docs ==> ViewOf(table.docs[e]) in views
    ensures Ordering.Distinct(views)
  {
    var users := table.FindAll();
    ghost var docs := table.docs;
    views := seq(|users|, i requires 0 <= i < |users| => ViewOf(users[i]));
    forall i | 0 <= i < |views| ensures views[i].email in docs && views[i] == ViewOf(docs[views[i].email]) {
      assert users[i] in users;
    }
    forall e | e in docs ensures ViewOf(docs[e]) in views {
      var u := docs[e];
      assert u.email in docs && docs[u.email] == u;
      var i :| 0 <= i < |users| && users[i] == u;
      assert views[i] == ViewOf(u);
    }
    forall i, j | 0 <= i < j < |views| ensures views[i] != views[j] {
      assert users[i] in users && users[j] in users;
      assert users[i] != users[j];
    }
  }

  /** GET /users/{email}: the account without its password, or 404. */
  method GetUserByEmail(table: UserTable, email: string) returns (status: Status, user: Option<UserView>)
    requires table.Valid()
    ensures status == Ok <==> NormalizeEmail(email) in table.docs
    ensures status != Ok ==> status == NotFound && user == None
    ensures status == Ok ==> user == Some(ViewOf(table.docs[NormalizeEmail(email)]))
  {
    var found := table.FindOne(email);
    if found.Some? {
      return Ok, Some(ViewOf(found.value));
    }
    return NotFound, None;
  }

  /**
   * POST /users: 400 when the email is taken (the collection is unchanged), 500 when
   * validation fails, otherwise 201 with the new account, password left out of the reply
   * and stored as its hash.
   */
  method CreateUser(table: UserTable, username: string, email: string, password: string)
    returns (status: Status, created: Option<UserView>)
    requires table.Valid()
    modifies table
    ensures table.Valid()
    ensures NormalizeEmail(email) in old(table.docs) ==> status == Duplicate
    ensures status == Ok <==> NormalizeEmail(email) !in old(table.docs) && HasRequiredFields(NewUser(username, email, password))
    ensures NormalizeEmail(email) !in old(table.docs) && !HasRequiredFields(NewUser(username, email, password))
            ==> status == StoreError
    ensures status == Ok ==> && created == Some(ViewOf(NewUser(username, email, password)))
                             && table.docs == old(table.docs)[NormalizeEmail(email) := NewUser(username, email, table.hash(password))]
    ensures status != Ok ==> created == None && table.docs == old(table.docs)
  {
    var existing := table.FindOne(email);
    if existing.Some? {
      return Duplicate, None;
    }
    var saved := table.SaveNew(username, email, password);
    if saved.None? {
      return StoreError, None;
    }
    return Ok, Some(ViewOf(saved.value));
  }

  /** The update body once a truthy password has been replaced by its hash. */
  function HashPassword(p: UserPatch, hash: string -> string): (q: UserPatch)
    ensures q.username == p.username && q.email == p.email
    ensures p.password.Some? && p.password.value != [] ==> q.password == Some(hash(p.password.value))
    ensures p.password.None? || p.password.value == [] ==> q.password == p.password
  {
    if p.password.Some? && p.password.value != [] then p.(password := Some(hash(p.password.value))) else p
  }

  /**
   * PUT /users/{email}: a supplied password is hashed first and stored only as its hash;
   * then the update runs with validators: 500 on a failed validator or a taken email, 404 on
   * an unknown email, otherwise the supplied fields replace the stored ones.
   */
  method UpdateUser(table: UserTable, email: string, p: UserPatch) returns (status: Status, updated: Option<UserView>)
    requires table.Valid()
    modifies table
    ensures table.Valid()
    ensures PatchPassesValidators(HashPassword(p, table.hash)) && NormalizeEmail(email) !in old(table.docs)
            ==> status == NotFound
    ensures !PatchPassesValidators(HashPassword(p, table.hash)) ==> status == StoreError
    ensures PatchPassesValidators(HashPassword(p, table.hash)) && NormalizeEmail(email) in old(table.docs) ==>
      var key := NormalizeEmail(email);
      var r := ApplyPatch(old(table.docs)[key], HashPassword(p, table.hash));
      status == (if r.email != key && r.email in old(table.docs) then StoreError else Ok)
    ensures status == Ok ==>
      var key := NormalizeEmail(email);
      var r := ApplyPatch(old(table.docs)[key], HashPassword(p, table.hash));
      && key in old(table.docs)
      && updated == Some(ViewOf(r))
      && table.docs == (old(table.docs) - {key})[r.email := r]
    ensures status == Ok && p.password.Some? ==>
      table.docs[updated.value.email].password == table.hash(p.password.value)
    ensures status != Ok ==> updated == None && table.docs == old(table.docs)
  {
    var q := HashPassword(p, table.hash);
    var u;
    status, u := table.FindOneAndUpdate(email, q);
    updated := if u.Some? then Some(ViewOf(u.value)) else None;
  }

  /** DELETE /users/{email}: 404 on an unknown email, otherwise that account and only it goes. */
  method DeleteUser(table: UserTable, email: string) returns (status: Status)
    requires table.Valid()
    modifies table
    ensures table.Valid()
    ensures status == Ok <==> NormalizeEmail(email) in old(table.docs)
    ensures status != Ok ==> status == NotFound
    ensures table.docs == old(table.docs) - {NormalizeEmail(email)}
  {
    var deleted := table.FindOneAndDelete(email);
    if deleted.Some? {
      return Ok;
    }
    return NotFound;
  }
}
