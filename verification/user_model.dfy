/** The User record of models/user.js: its fields and defaults, the role
    enumeration, the required fields, the unique email, and the outward view
    that drops the password hash. */
module UserModel {
  import opened Base

  type UserId = nat

  /** The `role` enumeration: `Regular` is the stored value "user". */
  datatype Role = Regular | Admin

  const DefaultRole: Role := Regular

  function RoleName(r: Role): string {
    match r
    case Regular => "user"
    case Admin => "admin"
  }

  /** The enum validator: exactly "user" and "admin" are roles. */
  function ParseRole(s: string): (r: Option<Role>)
    ensures r.Some? <==> s == "user" || s == "admin"
    ensures r.Some? ==> RoleName(r.value) == s
  {
    if s == "user" then Some(Regular) else if s == "admin" then Some(Admin) else None
  }

  /** Every role survives being written out and read back. */
  lemma RoleRoundTrip(r: Role)
    ensures ParseRole(RoleName(r)) == Some(r)
  {
  }

  /** What `bcrypt.hash(password, 10)` produced, abstractly: the password it
      was computed from and the random salt it drew. */
  datatype PasswordHash = Digest(plain: string, salt: nat)

  function Hash(password: string, salt: nat): PasswordHash {
    Digest(password, salt)
  }

  /** `bcrypt.compare(password, hash)`. */
  predicate Matches(password: string, hash: PasswordHash) {
    hash.plain == password
  }

  /** A stored user. Times are milliseconds since the epoch; the two token
      pairs are optional (`None` is an absent field). */
  datatype User = User(
    id: UserId,
    name: string,
    email: string,
    password: PasswordHash,
    isVerified: bool,
    role: Role,
    verificationToken: Option<string>,
    verificationTokenExpires: Option<int>,
    resetPasswordToken: Option<string>,
    resetPasswordExpires: Option<int>,
    lastLogin: int,
    createdAt: int,
    updatedAt: int)

  /** A user as `User.create` stores it from the given fields: unverified,
      role "user", no reset pair, `lastLogin` and the timestamps at `now`. */
  function NewUser(id: UserId, name: string, email: string, password: PasswordHash,
                   verificationToken: string, verificationTokenExpires: int, now: int): User
  {
    User(id, name, email, password, false, DefaultRole,
         Some(verificationToken), Some(verificationTokenExpires), None, None, now, now, now)
  }

  /** The schema's required fields are present, and each optional token
      travels with its expiry. A pending verification token belongs to an
      account that is not yet verified. */
  ghost predicate WellFormed(u: User) {
    && u.name != "" && u.email != ""
    && (u.verificationToken.Some? <==> u.verificationTokenExpires.Some?)
    && (u.resetPasswordToken.Some? <==> u.resetPasswordExpires.Some?)
    && (u.verificationToken.Some? ==> !u.isVerified)
  }

  /** The collection's invariant: unique ids, unique emails (the schema's
      `unique: true`), every record well formed. */
  ghost predicate ValidUsers(users: seq<User>) {
    && (forall i, j :: 0 <= i < j < |users| ==> users[i].id != users[j].id)
    && (forall i, j :: 0 <= i < j < |users| ==> users[i].email != users[j].email)
    && (forall i :: 0 <= i < |users| ==> WellFormed(users[i]))
  }

  /** A user as the handlers return it (`{...user._doc, password: undefined}`):
      every field except the password hash. */
  datatype UserView = UserView(
    id: UserId,
    name: string,
    email: string,
    isVerified: bool,
    role: Role,
    verificationToken: Option<string>,
    verificationTokenExpires: Option<int>,
    resetPasswordToken: Option<string>,
    resetPasswordExpires: Option<int>,
    lastLogin: int,
    createdAt: int,
    updatedAt: int)

  /** Puts a password hash back into a view. */
  function WithPassword(v: UserView, password: PasswordHash): User {
    User(v.id, v.name, v.email, password, v.isVerified, v.role,
         v.verificationToken, v.verificationTokenExpires,
         v.resetPasswordToken, v.resetPasswordExpires,
         v.lastLogin, v.createdAt, v.updatedAt)
  }

  /** The outward view drops the password hash and nothing else: the record
      is recovered from its view and its hash. */
  function View(u: User): (v: UserView)
    ensures WithPassword(v, u.password) == u
  {
    UserView(u.id, u.name, u.email, u.isVerified, u.role,
             u.verificationToken, u.verificationTokenExpires,
             u.resetPasswordToken, u.resetPasswordExpires,
             u.lastLogin, u.createdAt, u.updatedAt)
  }

  /** Two users have the same view exactly when they differ at most in their
      password hash: the view reveals nothing about the hash. */
  lemma ViewHidesOnlyPassword(u: User, w: User)
    ensures View(u) == View(w) <==> u == w.(password := u.password)
  {
    if View(u) == View(w) {
      assert WithPassword(View(u), u.password) == u;
      assert WithPassword(View(w), u.password) == w.(password := u.password);
    }
  }
}
