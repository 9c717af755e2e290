/** The web forms over user accounts (controllers/usersController.js). */
module UsersController {
  import opened Results
  import opened UserModel
  import Text

  /** The status a handler reports together with the user collection it leaves behind. */
  datatype UserOutcome = UserOutcome(status: Status, docs: map<string, User>)

  /**
   * POST of the add form: a password that differs from its confirmation, or an email already
   * used, re-renders the form and stores nothing; otherwise the account is saved with its
   * password hashed.
   */
  method CreateUser(table: UserTable, username: string, email: string, password: string, passwordConfirm: string)
    returns (status: Status)
    requires table.Valid()
    modifies table
    ensures table.Valid()
    ensures password != passwordConfirm ==> status == Mismatch
    ensures password == passwordConfirm && NormalizeEmail(email) in old(table.docs) ==> status == Duplicate
    ensures status == Ok <==> && password == passwordConfirm
                              && NormalizeEmail(email) !in old(table.docs)
                              && HasRequiredFields(NewUser(username, email, password))
    ensures (password == passwordConfirm && NormalizeEmail(email) !in old(table.docs)
             && !HasRequiredFields(NewUser(username, email, password))) ==> status == StoreError
    ensures status == Ok ==> table.docs == old(table.docs)[NormalizeEmail(email) := NewUser(username, email, table.hash(password))]
    ensures status != Ok ==> table.docs == old(table.docs)
  {
    if password != passwordConfirm {
      return Mismatch;
    }
    var existing := table.FindOne(email);
    if existing.Some? {
      return Duplicate;
    }
    var saved := table.SaveNew(username, email, password);
    status := if saved.Some? then Ok else StoreError;
  }

  /**
   * POST of the edit form: 404 redirect on an unknown email; a non-empty password must equal
   * its confirmation (else nothing is saved); the username is always overwritten, the email
   * never; the password is hashed only when a new one was typed.
   */
  method UpdateUser(table: UserTable, email: string, username: string, password: string, passwordConfirm: string)
    returns (status: Status)
    requires table.Valid()
    modifies table
    ensures table.Valid()
    ensures NormalizeEmail(email) !in old(table.docs) ==> status == NotFound
    ensures NormalizeEmail(email) in old(table.docs) && password != [] && password != passwordConfirm ==> status == Mismatch
    ensures status == Ok ==>
      var key := NormalizeEmail(email);
      var stored := old(table.docs)[key];
      && key in old(table.docs)
      && (password == [] || password == passwordConfirm)
      && key in table.docs
      && table.docs == old(table.docs)[key := table.docs[key]]
      && table.docs[key].email == stored.email
      && table.docs[key].username == Text.Trim(username)
      && table.docs[key].password ==
           (if password == [] || password == stored.password then stored.password else table.hash(password))
    ensures NormalizeEmail(email) in old(table.docs) && (password == [] || password == passwordConfirm) ==>
      (status == Ok <==> Text.Trim(username) != [])
    ensures (NormalizeEmail(email) in old(table.docs) && (password == [] || password == passwordConfirm)
             && Text.Trim(username) == []) ==> status == StoreError
    ensures status != Ok ==> table.docs == old(table.docs)
  {
    var found := table.FindOne(email);
    if found.None? {
      return NotFound;
    }
    var editUser := found.value;
    if password != [] {
      if password != passwordConfirm {
        return Mismatch;
      }
      editUser := editUser.(password := password);
    }
    editUser := editUser.(username := Text.Trim(username));
    var ok := table.SaveLoaded(editUser);
    status := if ok then Ok else StoreError;
  }

  /**
   * deleteUser as written: the route parameter is compared, character for character, with
   * the caller's own email, and only afterwards goes through the email setters in the lookup.
   */
  ghost function DeleteAsWritten(docs: map<string, User>, callerEmail: string, email: string): (out: UserOutcome)
    ensures out.status == Forbidden <==> email == callerEmail
    ensures out.status == Ok <==> email != callerEmail && NormalizeEmail(email) in docs
    ensures email != callerEmail && NormalizeEmail(email) !in docs ==> out.status == NotFound
    ensures out.docs == if out.status == Ok then docs - {NormalizeEmail(email)} else docs
  {
    if email == callerEmail then
      UserOutcome(Forbidden, docs)
    else if NormalizeEmail(email) in docs then
      UserOutcome(Ok, docs - {NormalizeEmail(email)})
    else
      UserOutcome(NotFound, docs)
  }

  /**
   * The case-variant of one's own email passes the guard as written, and the lookup then
   * finds and removes the caller's own account.
   */
  lemma DeleteAsWrittenRemovesCaller()
    ensures var docs := map["a@b" := User("admin", "a@b", "h")];
            DeleteAsWritten(docs, "a@b", "A@b") == UserOutcome(Ok, map[])
  {
    var lower := Text.Lowercase("A@b");
    assert lower[0] == 'a' && lower[1] == '@' && lower[2] == 'b';
    assert lower == "a@b";
    assert Text.LeadingSpace(lower) == 0;
    assert Text.TrailingSpace(lower) == 0;
    assert NormalizeEmail("A@b") == "a@b";
  }

  /** deleteUser with the guard applied to the email the lookup uses. */
  ghost function DeleteOutcome(docs: map<string, User>, callerEmail: string, email: string): UserOutcome {
    if NormalizeEmail(email) == NormalizeEmail(callerEmail) then
      UserOutcome(Forbidden, docs)
    else if NormalizeEmail(email) in docs then
      UserOutcome(Ok, docs - {NormalizeEmail(email)})
    else
      UserOutcome(NotFound, docs)
  }

  /**
   * The caller's own account survives every delete request; whatever else happens, at most
   * the one account the lookup names is removed.
   */
  lemma DeleteKeepsCaller(docs: map<string, User>, callerEmail: string, email: string)
    ensures NormalizeEmail(callerEmail) in docs ==> NormalizeEmail(callerEmail) in DeleteOutcome(docs, callerEmail, email).docs
    ensures DeleteOutcome(docs, callerEmail, email).status == Forbidden <==> NormalizeEmail(email) == NormalizeEmail(callerEmail)
    ensures DeleteOutcome(docs, callerEmail, email).status == Ok <==>
              NormalizeEmail(email) != NormalizeEmail(callerEmail) && NormalizeEmail(email) in docs
    ensures var out := DeleteOutcome(docs, callerEmail, email);
            out.docs == if out.status == Ok then docs - {NormalizeEmail(email)} else docs
  {
  }

  /** Wherever the guard as written refuses, the corrected guard refuses as well. */
  lemma DeleteGuardStrengthened(docs: map<string, User>, callerEmail: string, email: string)
    requires DeleteAsWritten(docs, callerEmail, email).status == Forbidden
    ensures DeleteOutcome(docs, callerEmail, email) == DeleteAsWritten(docs, callerEmail, email)
  {
  }

  /**
   * POST of the delete button: a request naming the caller's own account is refused before
   * any lookup; an unknown email redirects with an error; otherwise that account alone goes.
   */
  method DeleteUser(table: UserTable, callerEmail: string, email: string) returns (status: Status)
    requires table.Valid()
    modifies table
    ensures table.Valid()
    ensures UserOutcome(status, table.docs) == DeleteOutcome(old(table.docs), callerEmail, email)
    ensures NormalizeEmail(callerEmail) in old(table.docs) ==> NormalizeEmail(callerEmail) in table.docs
  {
    DeleteKeepsCaller(table.docs, callerEmail, email);
    if NormalizeEmail(email) == NormalizeEmail(callerEmail) {
      return Forbidden;
    }
    var deleted := table.FindOneAndDelete(email);
    status := if deleted.Some? then Ok else NotFound;
  }
}
