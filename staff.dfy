/** The staff administration endpoint (app/api/staff/route.ts): administrators list the
    non-customer accounts, newest first, and create accounts with a unique email. Password
    hashing, the id generator and the clock are parameters. */
module StaffRoute {
  import opened Common
  import opened Seqs
  import Store

  /** `role: { in: ['ADMIN', 'WAREHOUSE', 'DRIVER'] }`. */
  predicate IsStaff(u: User) {
    u.role == Admin || u.role == Warehouse || u.role == Driver
  }

  function UserCreated(u: User): int {
    u.createdAt
  }

  /** The listed accounts, without their passwords, in the order given. */
  function Published(users: seq<User>): (r: seq<PublicUser>)
    ensures |r| == |users|
    ensures forall i :: 0 <= i < |r| ==> r[i] == Sanitize(users[i])
  {
    seq(|users|, i requires 0 <= i < |users| => Sanitize(users[i]))
  }

  /** GET: 401 without a token, 403 for an unknown token or a caller who is not an
      administrator; otherwise every staff account, newest first, without passwords. */
  function ListStaff(users: seq<User>, caller: Caller): (r: Response<seq<PublicUser>>)
    ensures caller.NoToken? <==> r.Failure? && r.status == 401
    ensures r.Failure? && r.status == 403 <==> caller.UnknownToken? || (caller.SignedIn? && caller.user.role != Admin)
    ensures r.Ok? ==> caller.SignedIn? && caller.user.role == Admin && r.status == 200
    ensures r.Ok? ==> |r.body| == CountWhere(users, IsStaff)
    ensures r.Ok? ==> forall i, j :: 0 <= i < j < |r.body| ==> r.body[i].createdAt >= r.body[j].createdAt
  {
    match caller
    case NoToken => Failure(401, "Unauthorized")
    case UnknownToken => Failure(403, "Access denied")
    case SignedIn(user) =>
      if user.role != Admin then Failure(403, "Access denied")
      else
        var sorted := SortDesc(Filter(users, IsStaff), UserCreated);
        Ok(200, Published(sorted))
  }

  /** Exactly the staff accounts are listed: a listed record is a staff account of the store,
      and every staff account of the store is listed. */
  lemma ListedAreStaff(users: seq<User>, admin: User)
    requires admin.role == Admin
    ensures var r := ListStaff(users, SignedIn(admin));
      && (forall p :: p in r.body ==> exists u :: u in users && IsStaff(u) && Sanitize(u) == p)
      && (forall u :: u in users && IsStaff(u) ==> Sanitize(u) in r.body)
  {
    var sorted := SortDesc(Filter(users, IsStaff), UserCreated);
    var listed := Published(sorted);
    forall p | p in listed ensures exists u :: u in users && IsStaff(u) && Sanitize(u) == p {
      var i :| 0 <= i < |listed| && listed[i] == p;
      SortedMembers(Filter(users, IsStaff), UserCreated, sorted[i]);
    }
    forall u | u in users && IsStaff(u) ensures Sanitize(u) in listed {
      SortedMembers(Filter(users, IsStaff), UserCreated, u);
      var i :| 0 <= i < |sorted| && sorted[i] == u;
      assert listed[i] == Sanitize(u);
    }
  }

  /** The request body; every property may be missing. */
  datatype RawStaff = RawStaff(
    email: Option<string>, password: Option<string>, firstName: Option<string>,
    lastName: Option<string>, phone: Option<string>, role: Option<string>)

  /** The password that gets hashed: the given one when non-empty, else "password123". */
  function InitialPassword(raw: RawStaff): string {
    if Truthy(raw.password) then raw.password.value else "password123"
  }

  /** The role column: CUSTOMER by default; a name outside the enumeration is refused. */
  function RoleOf(raw: RawStaff): (r: Option<Role>)
    ensures raw.role.None? ==> r == Some(Customer)
    ensures raw.role.Some? ==> r == RoleFromName(raw.role.value)
  {
    if raw.role.None? then Some(Customer) else RoleFromName(raw.role.value)
  }

  /** What the create call needs: an email (the lookup fails without one), both names and a
      known role. */
  predicate Creatable(raw: RawStaff) {
    raw.email.Some? && raw.firstName.Some? && raw.lastName.Some? && RoleOf(raw).Some?
  }

  /** The row the create call inserts, active, with the hashed initial password. */
  function NewStaff(raw: RawStaff, hash: string -> string, id: string, now: Instant): User
    requires Creatable(raw)
  {
    User(id, raw.email.value, hash(InitialPassword(raw)), raw.firstName.value, raw.lastName.value,
         raw.phone, RoleOf(raw).value, true, now)
  }

  /** What a POST answers, and the user table afterwards. */
  datatype Outcome = Outcome(response: Response<PublicUser>, users: seq<User>)

  /** POST, in the handler's order: 401 without a token; 403 for an unknown token or a
      non-administrator; 400 for a missing email, an email already registered, or a row the
      store refuses (a missing name, an unknown role); otherwise 201 and one new row. */
  function CreateOutcome(users: seq<User>, caller: Caller, raw: RawStaff, hash: string -> string,
                         id: string, now: Instant): (o: Outcome)
    ensures caller.NoToken? <==> o.response.Failure? && o.response.status == 401
    ensures o.response.Failure? && o.response.status == 403 <==>
              caller.UnknownToken? || (caller.SignedIn? && caller.user.role != Admin)
    ensures caller.SignedIn? && caller.user.role == Admin && raw.email.Some?
            && FindUserByEmail(users, raw.email.value).Some? ==>
              o.response == Failure(400, "User with this email already exists")
    ensures o.response.Ok? <==>
              && caller.SignedIn? && caller.user.role == Admin && Creatable(raw)
              && FindUserByEmail(users, raw.email.value).None?
    ensures o.response.Failure? ==> o.users == users
    ensures o.response.Ok? ==>
              && o.response.status == 201
              && o.users == users + [NewStaff(raw, hash, id, now)]
              && o.response.body == Sanitize(NewStaff(raw, hash, id, now))
              && forall u :: u in users ==> u.email != raw.email.value
  {
    match caller
    case NoToken => Outcome(Failure(401, "Unauthorized"), users)
    case UnknownToken => Outcome(Failure(403, "Access denied"), users)
    case SignedIn(user) =>
      if user.role != Admin then Outcome(Failure(403, "Access denied"), users)
      else if raw.email.None? then Outcome(Failure(400, "Failed to create staff member"), users)
      else if FindUserByEmail(users, raw.email.value).Some? then
        Outcome(Failure(400, "User with this email already exists"), users)
      else if !Creatable(raw) then Outcome(Failure(400, "Failed to create staff member"), users)
      else
        var row := NewStaff(raw, hash, id, now);
        Outcome(Ok(201, Sanitize(row)), users + [row])
  }

  /** POST against the store: appends the new account, or leaves the users as they were. */
  method CreateStaff(db: Store.Database, caller: Caller, raw: RawStaff, hash: string -> string,
                     id: string, now: Instant) returns (r: Response<PublicUser>)
    modifies db`users
    ensures var o := CreateOutcome(old(db.users), caller, raw, hash, id, now);
      r == o.response && db.users == o.users
  {
    if caller.NoToken? {
      return Failure(401, "Unauthorized");
    }
    if caller.UnknownToken? || caller.user.role != Admin {
      return Failure(403, "Access denied");
    }
    if raw.email.None? {
      return Failure(400, "Failed to create staff member");
    }
    var existing := FindUserByEmail(db.users, raw.email.value);
    if existing.Some? {
      return Failure(400, "User with this email already exists");
    }
    if !Creatable(raw) {
      return Failure(400, "Failed to create staff member");
    }
    var row := NewStaff(raw, hash, id, now);
    db.users := db.users + [row];
    r := Ok(201, Sanitize(row));
  }

  /** Creating staff keeps the emails of the user table unique. */
  lemma {:induction false} CreateKeepsEmailsUnique(users: seq<User>, caller: Caller, raw: RawStaff,
                                                   hash: string -> string, id: string, now: Instant)
    requires Store.UniqueEmails(users)
    ensures Store.UniqueEmails(CreateOutcome(users, caller, raw, hash, id, now).users)
  {
    var o := CreateOutcome(users, caller, raw, hash, id, now);
    if o.response.Ok? {
      var row := NewStaff(raw, hash, id, now);
      forall i, j | 0 <= i < j < |o.users| ensures o.users[i].email != o.users[j].email {
        if j == |users| {
          assert o.users[i] in users;
        } else {
          assert o.users[i] == users[i] && o.users[j] == users[j];
        }
      }
    }
  }

  /** Without a usable password in the body the account gets the hash of "password123". */
  lemma DefaultPassword(users: seq<User>, caller: Caller, raw: RawStaff, hash: string -> string,
                        id: string, now: Instant)
    requires !Truthy(raw.password)
    ensures var o := CreateOutcome(users, caller, raw, hash, id, now);
      o.response.Ok? ==> o.users[|users|].password == hash("password123")
  {
  }
}
