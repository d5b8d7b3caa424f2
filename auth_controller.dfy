/** Admin accounts: token issue, registration, login and the profile lookup.
    The Admin schema and its password hashing are not part of this model;
    the schema's validators are an oracle `accepts`, the password check
    `comparePassword` an oracle `matches`, and JSON Web Token signing an
    oracle `sign` over the claims the controller chooses. Times are in
    seconds. */
module AuthController {
  import opened Js
  import opened Table

  /** A stored admin account. */
  datatype Admin = Admin(id: Id, username: string, email: string, password: string)

  function AdminId(a: Admin): Id { a.id }

  /** The admin as `select('-password')` returns it. */
  datatype Profile = Profile(id: Id, username: string, email: string)

  function ProfileOf(a: Admin): (p: Profile)
    ensures p.id == a.id && p.username == a.username && p.email == a.email
  {
    Profile(a.id, a.username, a.email)
  }

  /** The payload of a token: the admin id, the issue time and the expiry. */
  datatype Claims = Claims(id: Id, iat: int, exp: int)

  /** `expiresIn: '30d'`. */
  const TokenLifetime: int := 30 * 24 * 60 * 60

  /** The claims `generateToken(id)` signs at time `now`. */
  function TokenClaims(id: Id, now: int): (c: Claims)
    ensures c.id == id && c.exp - c.iat == 2592000
  {
    Claims(id, now, now + TokenLifetime)
  }

  /** What register and login send back: never the password. */
  datatype Session = Session(id: Id, username: string, email: string, token: string)

  function SessionFor(a: Admin, now: int, sign: Claims -> string): Session {
    Session(a.id, a.username, a.email, sign(TokenClaims(a.id, now)))
  }

  datatype AuthReply = Registered(session: Session) | LoggedIn(session: Session) | Rejected(status: nat, message: string)

  /** `$or: [{ email }, { username }]`. */
  predicate Clashes(a: Admin, username: string, email: string) {
    a.email == email || a.username == username
  }

  predicate Taken(t: seq<Admin>, username: string, email: string) {
    exists i :: 0 <= i < |t| && Clashes(t[i], username, email)
  }

  /** Stands for the `error.message` Mongoose gives when the Admin schema
      rejects a new account; its wording comes from that schema, which is not
      part of this model. */
  const ValidationMessage := "Admin validation failed"

  /** `registerAdmin`: 400 'Admin already exists' if any admin has that
      email or that username; otherwise the account is created (unless the
      schema rejects it) and a session is returned. */
  function Register(t: seq<Admin>, id: Id, username: string, email: string, password: string,
                    now: int, accepts: Admin -> bool, sign: Claims -> string): (AuthReply, seq<Admin>) {
    if Taken(t, username, email) then (Rejected(400, "Admin already exists"), t)
    else
      var a := Admin(id, username, email, password);
      if accepts(a) then (Registered(SessionFor(a, now, sign)), t + [a])
      else (Rejected(400, ValidationMessage), t)
  }

  /** `findOne({ email })`: the first admin with that email. */
  function FindByEmail(t: seq<Admin>, email: string): (r: Option<Admin>)
    ensures r.Some? ==> r.value in t && r.value.email == email
    ensures r.None? ==> forall i :: 0 <= i < |t| ==> t[i].email != email
  {
    if t == [] then None
    else if t[0].email == email then Some(t[0])
    else
      var r := FindByEmail(t[1..], email);
      assert forall i :: 1 <= i < |t| ==> t[i] == t[1..][i - 1];
      r
  }

  const InvalidCredentials: AuthReply := Rejected(401, "Invalid credentials")

  /** `loginAdmin`. */
  function Login(t: seq<Admin>, email: string, password: string, now: int,
                 matches: (Admin, string) -> bool, sign: Claims -> string): AuthReply {
    match FindByEmail(t, email)
    case None => InvalidCredentials
    case Some(a) => if matches(a, password) then LoggedIn(SessionFor(a, now, sign)) else InvalidCredentials
  }

  /** `getAdminProfile`: the account without its password, or null. */
  function GetProfile(t: seq<Admin>, id: Id): (r: Option<Profile>)
    ensures r.Some? <==> HasId(t, id, AdminId)
    ensures r.Some? ==> r.value.id == id
    ensures r.Some? ==> exists i :: 0 <= i < |t| && t[i].id == id && r.value == ProfileOf(t[i])
  {
    match Find(t, id, AdminId)
    case None => None
    case Some(a) => Some(ProfileOf(a))
  }

  // ------------------------------------------------------------------ properties

  /** Registration is refused, and nothing inserted, exactly when an admin
      already has that email or that username. */
  lemma RegisterRejectsDuplicates(t: seq<Admin>, id: Id, username: string, email: string, password: string,
                                  now: int, accepts: Admin -> bool, sign: Claims -> string)
    ensures var (reply, t') := Register(t, id, username, email, password, now, accepts, sign);
      && (reply == Rejected(400, "Admin already exists") <==> Taken(t, username, email))
      && (reply.Registered? <==> !Taken(t, username, email) && accepts(Admin(id, username, email, password)))
      && (reply.Rejected? ==> t' == t)
      && (reply.Registered? ==> t' == t + [Admin(id, username, email, password)])
  {
  }

  /** A successful register or login returns that admin's id, username and
      email with a token signed for that id, valid for 30 days from now. */
  lemma SessionNamesTheAdmin(t: seq<Admin>, id: Id, username: string, email: string, password: string,
                             now: int, accepts: Admin -> bool, matches: (Admin, string) -> bool, sign: Claims -> string)
    ensures var reply := Register(t, id, username, email, password, now, accepts, sign).0;
      reply.Registered? ==>
        reply.session == Session(id, username, email, sign(Claims(id, now, now + 2592000)))
    ensures var reply := Login(t, email, password, now, matches, sign);
      reply.LoggedIn? ==>
        exists i :: 0 <= i < |t| && t[i].email == email && matches(t[i], password)
          && reply.session == Session(t[i].id, t[i].username, email, sign(Claims(t[i].id, now, now + 2592000)))
  {
    var reply := Login(t, email, password, now, matches, sign);
    if reply.LoggedIn? {
      var a := FindByEmail(t, email).value;
      var i :| 0 <= i < |t| && t[i] == a;
      assert t[i].email == email && matches(t[i], password);
    }
  }

  /** An unknown email and a wrong password get the very same reply. */
  lemma LoginFailuresAreIndistinguishable(t: seq<Admin>, email: string, password: string, now: int,
                                          matches: (Admin, string) -> bool, sign: Claims -> string)
    ensures Login(t, email, password, now, matches, sign).Rejected? ==>
      Login(t, email, password, now, matches, sign) == Rejected(401, "Invalid credentials")
    ensures (forall i :: 0 <= i < |t| ==> t[i].email != email) ==>
      Login(t, email, password, now, matches, sign) == Rejected(401, "Invalid credentials")
    ensures (forall i :: 0 <= i < |t| && t[i].email == email ==> !matches(t[i], password)) ==>
      Login(t, email, password, now, matches, sign) == Rejected(401, "Invalid credentials")
  {
    var found := FindByEmail(t, email);
    if found.Some? {
      var i :| 0 <= i < |t| && t[i] == found.value;
    }
  }

  /** After a registration, no two admins share an email or a username. */
  predicate Unique(t: seq<Admin>) {
    forall i, j :: 0 <= i < j < |t| ==> t[i].email != t[j].email && t[i].username != t[j].username
  }

  predicate StoreInvariant(t: seq<Admin>, nextId: Id) {
    DistinctIds(t, AdminId) && Unique(t) && forall i :: 0 <= i < |t| ==> t[i].id < nextId
  }

  lemma RegisterKeepsInvariant(t: seq<Admin>, nextId: Id, username: string, email: string, password: string,
                               now: int, accepts: Admin -> bool, sign: Claims -> string)
    requires StoreInvariant(t, nextId)
    ensures StoreInvariant(Register(t, nextId, username, email, password, now, accepts, sign).1, nextId + 1)
  {
    var t' := Register(t, nextId, username, email, password, now, accepts, sign).1;
    if t' != t {
      forall i, j | 0 <= i < j < |t'|
        ensures t'[i].id != t'[j].id && t'[i].email != t'[j].email && t'[i].username != t'[j].username
      {
        assert t'[i] == t[i];
        if j == |t| { assert !Clashes(t[i], username, email); } else { assert t'[j] == t[j]; }
      }
    }
  }

  /** With unique emails, login tries the only account with that email. */
  lemma LoginChecksTheAccount(t: seq<Admin>, k: nat, password: string, now: int,
                              matches: (Admin, string) -> bool, sign: Claims -> string)
    requires Unique(t) && k < |t|
    ensures Login(t, t[k].email, password, now, matches, sign) ==
      if matches(t[k], password) then LoggedIn(SessionFor(t[k], now, sign)) else InvalidCredentials
  {
    var found := FindByEmail(t, t[k].email);
    var i :| 0 <= i < |t| && t[i] == found.value;
  }

  // ------------------------------------------------------------------ the store

  /** The Admin collection, which registration inserts into. */
  class AdminStore {
    var admins: seq<Admin>
    var nextId: Id

    ghost predicate Valid()
      reads this
    {
      StoreInvariant(admins, nextId)
    }

    constructor ()
      ensures Valid() && admins == [] && nextId == 0
    {
      admins := [];
      nextId := 0;
    }

    /** The duplicate check scans the accounts one by one before inserting. */
    method RegisterAdmin(username: string, email: string, password: string, now: int,
                         accepts: Admin -> bool, sign: Claims -> string) returns (reply: AuthReply)
      requires Valid()
      modifies this
      ensures Valid()
      ensures (reply, admins) == Register(old(admins), old(nextId), username, email, password, now, accepts, sign)
    {
      RegisterKeepsInvariant(admins, nextId, username, email, password, now, accepts, sign);
      var i := 0;
      while i < |admins|
        invariant 0 <= i <= |admins|
        invariant forall j :: 0 <= j < i ==> !Clashes(admins[j], username, email)
      {
        if Clashes(admins[i], username, email) {
          return Rejected(400, "Admin already exists");
        }
        i := i + 1;
      }
      var a := Admin(nextId, username, email, password);
      if !accepts(a) {
        return Rejected(400, ValidationMessage);
      }
      admins := admins + [a];
      nextId := nextId + 1;
      reply := Registered(SessionFor(a, now, sign));
    }

    /** Looks the email up, then checks the password. */
    method LoginAdmin(email: string, password: string, now: int,
                      matches: (Admin, string) -> bool, sign: Claims -> string) returns (reply: AuthReply)
      requires Valid()
      ensures reply == Login(admins, email, password, now, matches, sign)
    {
      var i := 0;
      while i < |admins|
        invariant 0 <= i <= |admins|
        invariant FindByEmail(admins[i..], email) == FindByEmail(admins, email)
      {
        if admins[i].email == email {
          assert admins[i..][0] == admins[i];
          if matches(admins[i], password) {
            return LoggedIn(SessionFor(admins[i], now, sign));
          }
          return InvalidCredentials;
        }
        assert admins[i..][1..] == admins[i + 1..];
        i := i + 1;
      }
      reply := InvalidCredentials;
    }

    method Profile(id: Id) returns (r: Option<Profile>)
      requires Valid()
      ensures r == GetProfile(admins, id)
    {
      var found := Find(admins, id, AdminId);
      if found.None? {
        return None;
      }
      r := Some(ProfileOf(found.value));
    }
  }
}
