/** The user document (a back-office account) and the user collection. */
module UserModel {
  import opened Results
  import Text
  import Ordering

  datatype User = User(username: string, email: string, password: string)

  /** A user read with `.select('-password')`: the password field is not there at all. */
  datatype UserView = UserView(username: string, email: string)

  function ViewOf(u: User): UserView {
    UserView(u.username, u.email)
  }

  /**
   * The setters of email, `lowercase` then `trim`. Mongoose runs them on every value assigned
   * to the field and on every email placed in a query filter.
   */
  function NormalizeEmail(email: string): (r: string)
    ensures |r| <= |email|
  {
    Text.Trim(Text.Lowercase(email))
  }

  /** A stored email has no upper-case ASCII letter and no whitespace at either end. */
  lemma NormalizeEmailSpec(email: string)
    ensures forall i :: 0 <= i < |NormalizeEmail(email)| ==> !('A' <= NormalizeEmail(email)[i] <= 'Z')
    ensures var r := NormalizeEmail(email);
            r == [] || (!Text.IsWhitespace(r[0]) && !Text.IsWhitespace(r[|r| - 1]))
  {
    var lower := Text.Lowercase(email);
    Text.LowercaseSpec(email);
    Text.TrimSpec(lower);
    var r := Text.Trim(lower);
    forall i | 0 <= i < |r| ensures !('A' <= r[i] <= 'Z') {
      assert r[i] == lower[Text.LeadingSpace(lower) + i];
    }
  }

  /** An email as the store keeps it: the setters leave it as it is. */
  ghost predicate IsNormalized(email: string) {
    NormalizeEmail(email) == email
  }

  /** Running the setters twice gives what running them once gave. */
  lemma NormalizeEmailIdempotent(email: string)
    ensures IsNormalized(NormalizeEmail(email))
  {
    var n := NormalizeEmail(email);
    NormalizeEmailSpec(email);
    Text.LowercaseOfLower(n);
    Text.TrimIdempotent(Text.Lowercase(email));
  }

  /** The setters may run in either order: trimming first and lowercasing second gives the same email. */
  lemma NormalizeEmailEitherOrder(email: string)
    ensures NormalizeEmail(email) == Text.Lowercase(Text.Trim(email))
  {
    Text.LowercaseTrimCommute(email);
  }

  /** `new User({ username, email, password })`: the setters trim the username and normalise the email. */
  function NewUser(username: string, email: string, password: string): User {
    User(Text.Trim(username), NormalizeEmail(email), password)
  }

  /**
   * The `required` validators. The password has no length bound: the schema spells the
   * option `mingleght`, which Mongoose ignores.
   */
  predicate HasRequiredFields(u: User) {
    u.username != [] && u.email != [] && u.password != []
  }

  /**
   * The pre('save') hook: a password modified since the document was loaded (or set on a
   * new document) is replaced by its hash; an unmodified one is left exactly as stored.
   */
  function PreSave(loaded: Option<User>, u: User, hash: string -> string): (saved: User)
    ensures saved.username == u.username && saved.email == u.email
    ensures loaded.Some? && u.password == loaded.value.password ==> saved.password == loaded.value.password
    ensures loaded.None? || u.password != loaded.value.password ==> saved.password == hash(u.password)
  {
    if loaded.Some? && u.password == loaded.value.password then u else u.(password := hash(u.password))
  }

  /** The fields a JSON update body may carry; absent ones keep their stored value. */
  datatype UserPatch = UserPatch(username: Option<string>, email: Option<string>, password: Option<string>)

  /** `runValidators: true`: `required` is checked, after the setters, on the supplied fields only. */
  predicate PatchPassesValidators(p: UserPatch) {
    && (p.username.Some? ==> Text.Trim(p.username.value) != [])
    && (p.email.Some? ==> NormalizeEmail(p.email.value) != [])
    && (p.password.Some? ==> p.password.value != [])
  }

  /** The stored user with the supplied fields, after the setters, written over it. */
  function ApplyPatch(u: User, p: UserPatch): (r: User)
    ensures p.username.None? ==> r.username == u.username
    ensures p.email.None? ==> r.email == u.email
    ensures p.password.None? ==> r.password == u.password
  {
    User(
      if p.username.Some? then Text.Trim(p.username.value) else u.username,
      if p.email.Some? then NormalizeEmail(p.email.value) else u.email,
      p.password.GetOr(u.password))
  }

  /** A validated patch keeps what validation guarantees of a stored account. */
  lemma PatchKeepsStoredShape(u: User, p: UserPatch)
    requires IsNormalized(u.email) && HasRequiredFields(u)
    requires PatchPassesValidators(p)
    ensures IsNormalized(ApplyPatch(u, p).email) && HasRequiredFields(ApplyPatch(u, p))
  {
    if p.email.Some? {
      NormalizeEmailIdempotent(p.email.value);
    }
  }

  /** The unique index on email, and what validation guarantees for every stored account. */
  ghost predicate WellStored(docs: map<string, User>) {
    forall e :: e in docs ==> docs[e].email == e && IsNormalized(e) && HasRequiredFields(docs[e])
  }

  /** Replacing one account by a well-formed one stored under its own email keeps the collection well stored. */
  lemma ReplaceKeepsStored(docs: map<string, User>, key: string, r: User)
    requires WellStored(docs)
    requires IsNormalized(r.email) && HasRequiredFields(r)
    ensures WellStored((docs - {key})[r.email := r])
  {
  }

  /** The user collection, indexed by its unique, normalised email. */
  class UserTable {
    var docs: map<string, User>

    /**
     * bcrypt's hash, taken as one fixed function of the password (salts are not modelled);
     * like bcrypt's output, it is never empty.
     */
    const hash: string -> string

    /** The unique index on email, and what validation guarantees for every stored account. */
    ghost predicate Valid()
      reads this
    {
      && WellStored(docs)
      && forall p :: hash(p) != []
    }

    constructor (hash: string -> string)
      requires forall p :: hash(p) != []
      ensures Valid() && docs == map[] && this.hash == hash
    {
      docs := map[];
      this.hash := hash;
    }

    /** `User.find()`: every stored user once, in the order the cursor yields them. */
    method FindAll() returns (us: seq<User>)
      requires Valid()
      ensures forall u :: u in us <==> u.email in docs && docs[u.email] == u
      ensures |us| == |docs|
      ensures Ordering.Distinct(us)
    {
      var stored := docs;
      var es := Ordering.KeysOf<string, User>(stored);
      us := seq(|es|, i requires 0 <= i < |es| => stored[es[i]]);
      forall i, j | 0 <= i < j < |us| ensures us[i] != us[j] {
        assert us[i].email == es[i] && us[j].email == es[j];
      }
      forall i | 0 <= i < |us| ensures us[i].email in docs && docs[us[i].email] == us[i] {
        assert es[i] in es;
        assert us[i] == stored[es[i]];
        assert stored == docs;
        assert stored[es[i]].email == es[i];
      }
      forall u: User | u.email in docs && docs[u.email] == u ensures u in us {
        var i :| 0 <= i < |es| && es[i] == u.email;
        assert us[i] == u;
      }
      Ordering.DistinctKeysCount(es, docs.Keys);
    }

    /** `User.findOne({ email })`: the query value goes through the email setters first. */
    method FindOne(email: string) returns (found: Option<User>)
      ensures found.Some? <==> NormalizeEmail(email) in docs
      ensures found.Some? ==> found.value == docs[NormalizeEmail(email)]
    {
      var key := NormalizeEmail(email);
      found := if key in docs then Some(docs[key]) else None;
    }

    /**
     * `new User({ username, email, password }).save()`: validation, then the hook hashes the
     * password, then the unique index refuses an email already stored.
     */
    method SaveNew(username: string, email: string, password: string) returns (saved: Option<User>)
      requires Valid()
      modifies this
      ensures Valid()
      ensures saved.Some? <==> HasRequiredFields(NewUser(username, email, password)) && NormalizeEmail(email) !in old(docs)
      ensures saved.Some? ==> saved.value == NewUser(username, email, hash(password))
      ensures docs == if saved.Some? then old(docs)[NormalizeEmail(email) := saved.value] else old(docs)
    {
      var u := NewUser(username, email, password);
      if !HasRequiredFields(u) || u.email in docs {
        return None;
      }
      NormalizeEmailIdempotent(email);
      var stored := PreSave(None, u, hash);
      docs := docs[u.email := stored];
      saved := Some(stored);
    }

    /**
     * `editUser.save()` on a document loaded from the store and changed in memory (its email
     * untouched): validation, then the hook hashes the password only if it was modified.
     */
    method SaveLoaded(u: User) returns (ok: bool)
      requires Valid()
      requires u.email in docs
      modifies this
      ensures Valid()
      ensures ok == HasRequiredFields(u)
      ensures docs == if ok then old(docs)[u.email := PreSave(Some(old(docs)[u.email]), u, hash)] else old(docs)
    {
      ok := HasRequiredFields(u);
      if ok {
        docs := docs[u.email := PreSave(Some(docs[u.email]), u, hash)];
      }
    }

    /**
     * `User.findOneAndUpdate({ email }, patch, { new: true, runValidators: true })`: the
     * validators run before the query (StoreError); no match gives NotFound; the hook does not
     * run; an email changed to one another account holds trips the unique index (StoreError).
     */
    method FindOneAndUpdate(email: string, p: UserPatch) returns (status: Status, updated: Option<User>)
      requires Valid()
      modifies this
      ensures Valid()
      ensures !PatchPassesValidators(p) ==> status == StoreError
      ensures PatchPassesValidators(p) && NormalizeEmail(email) !in old(docs) ==> status == NotFound
      ensures PatchPassesValidators(p) && NormalizeEmail(email) in old(docs) ==>
        var key := NormalizeEmail(email);
        var r := ApplyPatch(old(docs)[key], p);
        status == (if r.email != key && r.email in old(docs) then StoreError else Ok)
      ensures status == Ok ==>
        var key := NormalizeEmail(email);
        && updated == Some(ApplyPatch(old(docs)[key], p))
        && docs == (old(docs) - {key})[updated.value.email := updated.value]
      ensures status != Ok ==> updated == None && docs == old(docs)
    {
      if !PatchPassesValidators(p) {
        return StoreError, None;
      }
      var key := NormalizeEmail(email);
      if key !in docs {
        return NotFound, None;
      }
      var r := ApplyPatch(docs[key], p);
      if r.email != key && r.email in docs {
        return StoreError, None;
      }
      PatchKeepsStoredShape(docs[key], p);
      ReplaceKeepsStored(docs, key, r);
      docs := (docs - {key})[r.email := r];
      status, updated := Ok, Some(r);
    }

    /** `User.findOneAndDelete({ email })`: removes that account and nothing else. */
    method FindOneAndDelete(email: string) returns (deleted: Option<User>)
      requires Valid()
      modifies this
      ensures Valid()
      ensures deleted.Some? <==> NormalizeEmail(email) in old(docs)
      ensures deleted.Some? ==> deleted.value == old(docs)[NormalizeEmail(email)]
      ensures docs == old(docs) - {NormalizeEmail(email)}
    {
      var key := NormalizeEmail(email);
      deleted := if key in docs then Some(docs[key]) else None;
      docs := docs - {key};
    }
  }
}
