/**
 * `/api/users`: listing and reading users (GET), and the admin-only
 * create (POST), update (PUT) and delete (DELETE). No reply ever carries a
 * password hash, e-mail addresses stay unique on create, and an admin
 * cannot delete their own account.
 */
module UsersRoute {
  import opened Wrappers
  import opened Strings
  import opened Models
  import opened Api
  import Rbac
  import opened Validation
  import opened Queries

  /** A user as replies show it: every field but the password hash. */
  datatype PublicUser = PublicUser(id: Id, name: string, email: string, role: Role, createdAt: Millis, updatedAt: Millis)

  /** `const { passwordHash, ...sanitizedUser } = user` */
  function Sanitize(u: User): PublicUser {
    PublicUser(u.id, u.name, u.email, u.role, u.createdAt, u.updatedAt)
  }

  /** Sanitising forgets the password hash and nothing else. */
  lemma SanitizeForgetsOnlyHash(u: User, v: User)
    ensures Sanitize(u) == Sanitize(v) <==> u.(passwordHash := v.passwordHash) == v
  {
  }

  // ---------------------------------------------------------------------
  // GET
  // ---------------------------------------------------------------------

  datatype Listing = All(users: seq<PublicUser>) | One(user: PublicUser)

  /** GET: every user for an admin, or the user named by `id`, which only admins, supervisors and that user may read. */
  function Get(session: Option<Rbac.Session>, id: Option<string>, db: Db, fault: bool): Reply<Listing> {
    if session.None? then Unauthorized()
    else if !Truthy(id) then
      if session.value.role != "admin" then Forbidden()
      else if fault then ServerError()
      else Ok(All(seq(|db.users|, k requires 0 <= k < |db.users| => Sanitize(db.users[k]))), None)
    else if !HasRole(session.value, {"admin", "supervisor"}) && session.value.userId != id.value then Forbidden()
    else if fault then ServerError()
    else
      match FindFirst(db.users, UserId, id.value)
      case None => Fail(404, "User not found")
      case Some(u) => Ok(One(Sanitize(u)), None)
  }

  /** Who gets which status. */
  lemma GetStatus(session: Option<Rbac.Session>, id: Option<string>, db: Db, fault: bool)
    ensures Get(session, id, db, fault).Status() == 401 <==> session.None?
    ensures !Truthy(id) ==>
      (Get(session, id, db, fault).Status() == 403 <==> session.Some? && session.value.role != "admin")
    ensures Truthy(id) ==>
      (Get(session, id, db, fault).Status() == 403
       <==> session.Some? && session.value.role !in {"admin", "supervisor"} && session.value.userId != id.value)
    ensures Truthy(id) && session.Some? && !fault && Get(session, id, db, fault).Status() != 403 ==>
      (Get(session, id, db, fault).Status() == 404
       <==> forall j :: 0 <= j < |db.users| ==> db.users[j].id != id.value)
  {
  }

  /** The full listing shows every user, sanitised, in store order. */
  lemma GetAllSanitised(s: Rbac.Session, db: Db)
    requires s.role == "admin"
    ensures Get(Some(s), None, db, false).Ok?
    ensures var l := Get(Some(s), None, db, false).data.users;
      |l| == |db.users| && forall k :: 0 <= k < |l| ==> Sanitize(db.users[k]) == l[k]
  {
  }

  // ---------------------------------------------------------------------
  // POST
  // ---------------------------------------------------------------------

  /** The user record POST stores; `hash` stands for bcrypt. */
  function NewUser(body: UserInput, id: Id, now: Millis, hash: string -> string): User {
    User(id, OrEmpty(body.name), OrEmpty(body.email), hash(OrEmpty(body.password)),
         match ParseRole(OrEmpty(body.role)) case Some(r) => r case None => Agent,
         now, now)
  }

  /**
   * POST: `body` is `None` when the request body is not JSON; `id` is the
   * id the store assigns; `fault` is a failure of the store.
   */
  function Post(session: Option<Rbac.Session>, body: Option<UserInput>, db: Db, id: Id, now: Millis,
                hash: string -> string, fault: bool): Outcome<PublicUser>
  {
    if session.None? then Refuse(Unauthorized(), db)
    else if session.value.role != "admin" then Refuse(Forbidden(), db)
    else if body.None? then Refuse(ServerError(), db)
    else
      var verdict := VerdictOf(UserErrors(CheckUser(body.value)));
      if verdict.Failure? then Refuse(Invalid(Messages(verdict.errors)), db)
      else if fault then Refuse(ServerError(), db)
      else if FindFirst(db.users, UserEmail, OrEmpty(body.value.email)).Some? then
        Refuse(Fail(400, "User with this email already exists"), db)
      else
        var u := NewUser(body.value, id, now, hash);
        Outcome(Ok(Sanitize(u), Some("User created successfully")), db.(users := db.users + [u]), {})
  }

  /** No two users share an e-mail address. */
  predicate EmailsUnique(users: seq<User>) {
    forall j, k :: 0 <= j < k < |users| ==> users[j].email != users[k].email
  }

  /** Who gets which status, and a duplicate address is refused with 400. */
  lemma PostStatus(session: Option<Rbac.Session>, body: Option<UserInput>, db: Db, id: Id, now: Millis,
                   hash: string -> string, fault: bool)
    ensures Post(session, body, db, id, now, hash, fault).reply.Status() == 401 <==> session.None?
    ensures Post(session, body, db, id, now, hash, fault).reply.Status() == 403
      <==> session.Some? && session.value.role != "admin"
    ensures Post(session, body, db, id, now, hash, fault).reply.Ok?
      <==> (session.Some? && session.value.role == "admin" && body.Some? && !fault
            && UserErrors(CheckUser(body.value)) == []
            && forall j :: 0 <= j < |db.users| ==> db.users[j].email != body.value.email.value)
  {
  }

  /** A created user is appended, with the hashed password and the body's role; a refusal changes nothing. */
  lemma PostEffect(s: Rbac.Session, body: UserInput, db: Db, id: Id, now: Millis, hash: string -> string, fault: bool)
    ensures var o := Post(Some(s), Some(body), db, id, now, hash, fault);
      o.reply.Ok? ==>
        && body.name.Some? && body.email.Some? && body.password.Some? && body.role.Some?
        && o.db == db.(users := db.users + [User(id, body.name.value, body.email.value, hash(body.password.value),
                                                 ParseRole(body.role.value).value, now, now)])
        && o.reply.data == Sanitize(o.db.users[|db.users|])
        && Utf16Length(body.password.value) >= 6 && IsEmail(body.email.value)
    ensures var o := Post(Some(s), Some(body), db, id, now, hash, fault);
      !o.reply.Ok? ==> o.db == db
    ensures Post(Some(s), Some(body), db, id, now, hash, fault).evicted == {}
  {
    if s.role == "admin" && UserErrors(CheckUser(body)) == [] {
      AcceptedUserFields(body);
    }
  }

  /** A body validateUser accepts has every field, a known role, a long enough password and a valid address. */
  lemma AcceptedUserFields(body: UserInput)
    requires UserErrors(CheckUser(body)) == []
    ensures body.name.Some? && body.email.Some? && body.password.Some? && body.role.Some?
    ensures ParseRole(body.role.value).Some?
    ensures Utf16Length(body.password.value) >= 6 && IsEmail(body.email.value)
  {
    var c := CheckUser(body);
    UserErrorsMembership(c);
    assert !c.nameMissing && !c.emailInvalid && !c.passwordTooShort && !c.roleInvalid;
  }

  /** Appending a user whose address nobody holds keeps addresses unique. */
  lemma AppendKeepsEmailsUnique(users: seq<User>, u: User)
    requires EmailsUnique(users)
    requires forall j :: 0 <= j < |users| ==> users[j].email != u.email
    ensures EmailsUnique(users + [u])
  {
    var t := users + [u];
    forall j, k | 0 <= j < k < |t| ensures t[j].email != t[k].email {
      if k == |users| {
        assert t[k] == u && t[j] == users[j];
      } else {
        assert t[j] == users[j] && t[k] == users[k];
      }
    }
  }

  /** Creating a user never gives an e-mail address a second owner. */
  lemma PostKeepsEmailsUnique(session: Option<Rbac.Session>, body: Option<UserInput>, db: Db, id: Id, now: Millis,
                              hash: string -> string, fault: bool)
    requires EmailsUnique(db.users)
    ensures EmailsUnique(Post(session, body, db, id, now, hash, fault).db.users)
  {
    if session.Some? && body.Some? {
      var o := Post(session, body, db, id, now, hash, fault);
      PostEffect(session.value, body.value, db, id, now, hash, fault);
      if o.reply.Ok? {
        PostStatus(session, body, db, id, now, hash, fault);
        AppendKeepsEmailsUnique(db.users, o.db.users[|db.users|]);
        assert o.db.users == db.users + [o.db.users[|db.users|]];
      }
    }
  }

  // ---------------------------------------------------------------------
  // PUT
  // ---------------------------------------------------------------------

  /** A PUT body: the user's `id` and the fields to change. */
  datatype UpdateInput = UpdateInput(
    id: Option<string>, name: Option<string>, email: Option<string>, role: Option<string>, password: Option<string>)

  /** `updates` as the handler writes it: each truthy field is copied, the role text unchecked. */
  datatype RawUpdates = RawUpdates(
    name: Option<string>, email: Option<string>, role: Option<string>, passwordHash: Option<string>)

  /** `if (body.name) updates.name = body.name; ...`, as written. */
  function UpdatesAsWritten(body: UpdateInput, hash: string -> string): (u: RawUpdates)
    ensures Truthy(body.role) ==> u.role == body.role
    ensures !Truthy(body.role) ==> u.role.None?
  {
    RawUpdates(
      if Truthy(body.name) then body.name else None,
      if Truthy(body.email) then body.email else None,
      if Truthy(body.role) then body.role else None,
      if Truthy(body.password) then Some(hash(body.password.value)) else None)
  }

  /** The update as written stores a role outside the three known ones when the body names one. */
  lemma UpdatesAsWrittenAdmitUnknownRole(hash: string -> string)
    ensures var u := UpdatesAsWritten(UpdateInput(Some("u1"), None, None, Some("owner"), None), hash);
      u.role == Some("owner") && ParseRole(u.role.value).None?
  {
  }

  /** A role text that is present but names none of the three roles. */
  predicate UnknownRole(role: Option<string>) {
    Truthy(role) && ParseRole(role.value).None?
  }

  /** The patch the update applies, for a role text that is absent, empty or known. */
  function PatchOf(body: UpdateInput, hash: string -> string): (p: UserPatch)
    ensures p.name.Some? <==> Truthy(body.name)
    ensures p.email.Some? <==> Truthy(body.email)
    ensures p.passwordHash.Some? <==> Truthy(body.password)
    ensures !UnknownRole(body.role) ==> (p.role.Some? <==> Truthy(body.role))
    ensures p.role.Some? ==> RoleName(p.role.value) == body.role.value
  {
    UserPatch(
      if Truthy(body.name) then body.name else None,
      if Truthy(body.email) then body.email else None,
      if Truthy(body.role) then ParseRole(body.role.value) else None,
      if Truthy(body.password) then Some(hash(body.password.value)) else None)
  }

  /**
   * PUT, with the role text checked as validateUser checks it on create:
   * an unknown role is refused with 400 instead of being stored.
   */
  function Put(session: Option<Rbac.Session>, body: Option<UpdateInput>, db: Db, now: Millis,
               hash: string -> string, fault: bool): Outcome<PublicUser>
  {
    if session.None? then Refuse(Unauthorized(), db)
    else if session.value.role != "admin" then Refuse(Forbidden(), db)
    else if body.None? then Refuse(ServerError(), db)
    else if !Truthy(body.value.id) then Refuse(Fail(400, "User ID is required"), db)
    else if UnknownRole(body.value.role) then Refuse(Invalid([Message(InvalidRole)]), db)
    else if fault then Refuse(ServerError(), db)
    else
      var patch := PatchOf(body.value, hash);
      var (updated, found) := UpdateFirst(db.users, UserId, body.value.id.value, (u: User) => PatchUser(u, patch, now));
      if found.None? then Refuse(Fail(404, "User not found"), db)
      else Outcome(Ok(Sanitize(found.value), Some("User updated successfully")), db.(users := updated), {})
  }

  /** Who gets which status. */
  lemma PutStatus(session: Option<Rbac.Session>, body: Option<UpdateInput>, db: Db, now: Millis,
                  hash: string -> string, fault: bool)
    ensures Put(session, body, db, now, hash, fault).reply.Status() == 401 <==> session.None?
    ensures Put(session, body, db, now, hash, fault).reply.Status() == 403
      <==> session.Some? && session.value.role != "admin"
    ensures Put(session, body, db, now, hash, fault).reply.Ok?
      <==> (session.Some? && session.value.role == "admin" && body.Some? && Truthy(body.value.id)
            && !UnknownRole(body.value.role) && !fault
            && exists j :: 0 <= j < |db.users| && db.users[j].id == body.value.id.value)
  {
  }

  /**
   * A successful update changes one user: each truthy field replaces the
   * stored one, a given password is stored hashed, and only the update
   * time changes besides. A refusal changes nothing.
   */
  lemma PutEffect(s: Rbac.Session, body: UpdateInput, db: Db, now: Millis, hash: string -> string)
    ensures var o := Put(Some(s), Some(body), db, now, hash, false);
      o.reply.Ok? ==>
        var k := IndexOf(db.users, UserId, body.id.value).value;
        var old_ := db.users[k];
        exists u: User ::
          && o.db.users == db.users[k := u]
          && o.reply.data == Sanitize(u)
          && u.id == old_.id && u.createdAt == old_.createdAt && u.updatedAt == now
          && u.name == (if Truthy(body.name) then body.name.value else old_.name)
          && u.email == (if Truthy(body.email) then body.email.value else old_.email)
          && u.passwordHash == (if Truthy(body.password) then hash(body.password.value) else old_.passwordHash)
          && (Truthy(body.role) ==> RoleName(u.role) == body.role.value)
          && (!Truthy(body.role) ==> u.role == old_.role)
    ensures var o := Put(Some(s), Some(body), db, now, hash, false);
      !o.reply.Ok? ==> o.db == db
  {
    var o := Put(Some(s), Some(body), db, now, hash, false);
    if o.reply.Ok? {
      var k := IndexOf(db.users, UserId, body.id.value).value;
      var u := PatchUser(db.users[k], PatchOf(body, hash), now);
      assert o.db.users == db.users[k := u];
    }
  }

  // ---------------------------------------------------------------------
  // DELETE
  // ---------------------------------------------------------------------

  /** DELETE with the `id` query parameter; `fault` is a failure of the store. */
  function Delete(session: Option<Rbac.Session>, id: Option<string>, db: Db, fault: bool): Outcome<()> {
    if session.None? then Refuse(Unauthorized(), db)
    else if session.value.role != "admin" then Refuse(Forbidden(), db)
    else if !Truthy(id) then Refuse(Fail(400, "User ID is required"), db)
    else if id.value == session.value.userId then Refuse(Fail(400, "You cannot delete your own account"), db)
    else if fault then Refuse(ServerError(), db)
    else
      var (rest, deleted) := DeleteFirst(db.users, UserId, id.value);
      if !deleted then Refuse(Fail(404, "User not found"), db)
      else Outcome(Ok((), Some("User deleted successfully")), db.(users := rest), {})
  }

  /** Who gets which status. */
  lemma DeleteStatus(session: Option<Rbac.Session>, id: Option<string>, db: Db, fault: bool)
    ensures Delete(session, id, db, fault).reply.Status() == 401 <==> session.None?
    ensures Delete(session, id, db, fault).reply.Status() == 403 <==> session.Some? && session.value.role != "admin"
    ensures session.Some? && session.value.role == "admin" && Truthy(id) && id.value == session.value.userId
      ==> Delete(session, id, db, fault).reply == Fail(400, "You cannot delete your own account")
    ensures Delete(session, id, db, fault).reply.Status() == 404
      <==> (session.Some? && session.value.role == "admin" && Truthy(id) && id.value != session.value.userId
            && !fault && forall j :: 0 <= j < |db.users| ==> db.users[j].id != id.value)
  {
  }

  /** A successful delete removes exactly one user, the first with that id; a refusal changes nothing. */
  lemma DeleteEffect(session: Option<Rbac.Session>, id: Option<string>, db: Db, fault: bool)
    ensures var o := Delete(session, id, db, fault);
      o.reply.Ok? ==>
        && |o.db.users| == |db.users| - 1
        && multiset(o.db.users) + multiset{db.users[IndexOf(db.users, UserId, id.value).value]} == multiset(db.users)
        && (var i := IndexOf(db.users, UserId, id.value).value; o.db.users == db.users[..i] + db.users[i + 1..])
        && o.db.customers == db.customers && o.db.interactions == db.interactions
    ensures var o := Delete(session, id, db, fault);
      !o.reply.Ok? ==> o.db == db
  {
  }

  /** Whatever the request, the signed-in user's own records survive a delete. */
  lemma DeleteNeverRemovesSelf(s: Rbac.Session, id: Option<string>, db: Db, fault: bool, u: User)
    requires u in db.users && u.id == s.userId
    ensures u in Delete(Some(s), id, db, fault).db.users
  {
    var o := Delete(Some(s), id, db, fault);
    if o.reply.Ok? {
      var removed := db.users[IndexOf(db.users, UserId, id.value).value];
      assert removed != u;
      assert u in multiset(db.users);
      assert multiset(o.db.users) + multiset{removed} == multiset(db.users);
      assert u in multiset(o.db.users);
    }
  }
}
