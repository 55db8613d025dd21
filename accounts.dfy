/**
 * Accounts: registration, profile update, login and password reset, as done
 * by backend/controllers/AuthController.js against two collections, users
 * and shops.
 *
 * Every handler is given twice: as a pure function from the old collection
 * (and the request) to the reply and the new collection, which is what the
 * lemmas below reason about, and as a method of `AccountStore`, which
 * rewrites the collection in place and is proved to do what the function
 * says. Login only reads, so it is a function alone.
 *
 * The libraries the controller calls (bcrypt, SHA-256, the zod e-mail check)
 * are supplied as the function values of a `Lib`; the clock and the random
 * reset token are parameters.
 */
module Accounts {
  import opened Common
  import opened ObjectIds

  // ---------------------------------------------------------------- constants

  const EndUserRole: int := 0
  const ShopOwnerRole: int := 2
  /** Minimum password length of login, profile update and reset. */
  const MinPasswordLength: nat := 8
  /** Session tokens are signed with `expiresIn: "7d"`. */
  const TokenLifetimeSeconds: nat := 7 * 24 * 60 * 60
  /** A reset token expires 30 minutes after it is issued (times are in milliseconds). */
  const ResetWindowMs: nat := 30 * 60 * 1000

  // ---------------------------------------------------------------- libraries

  /**
   * The library calls the controller makes: `hash`/`verify` are bcrypt's
   * hash and compare, `digest` is the SHA-256 hex digest of a reset token,
   * `isEmail` is zod's e-mail format check.
   */
  datatype Lib = Lib(
    hash: string -> string,
    verify: (string, string) -> bool,
    digest: string -> string,
    isEmail: string -> bool)

  /**
   * All the model assumes of the libraries: a password verifies against its
   * own hash, and a hash is never the empty string. Nothing is assumed about
   * wrong passwords (bcrypt ignores input beyond 72 bytes).
   */
  ghost predicate Sound(lib: Lib)
  {
    forall p :: lib.verify(p, lib.hash(p)) && lib.hash(p) != ""
  }

  // ---------------------------------------------------------------- data model

  /** The state of a user's password reset: no token, or a digest and its expiry instant. */
  datatype ResetToken = NoToken | Pending(digest: string, expires: int)

  datatype User = User(
    id: string,
    fullname: string,
    email: string,
    dob: string,
    phone: string,
    address: string,
    shoppingPreference: string,
    password: string,   // the stored bcrypt hash
    role: int,
    reset: ResetToken)

  /** What login needs of a shop document. */
  datatype Shop = Shop(id: string, email: string, password: string)

  /** The user as registration reports it: every stored field except the password. */
  datatype UserView = UserView(
    id: string,
    fullname: string,
    email: string,
    dob: string,
    phone: string,
    address: string,
    shoppingPreference: string)

  function View(u: User): UserView
  {
    UserView(u.id, u.fullname, u.email, u.dob, u.phone, u.address, u.shoppingPreference)
  }

  /** A user's id as the database compares it. */
  function UserId(u: User): string { CanonicalId(u.id) }
  function UserEmail(u: User): string { u.email }
  function ShopId(s: Shop): string { CanonicalId(s.id) }

  /** `userModel.findOne({ email: { $eq: email } })` */
  function UserByEmail(users: seq<User>, email: string): Option<nat>
  {
    FirstIndex(users, (u: User) => u.email == email)
  }

  /** `userModel.findById(id)` */
  function UserById(users: seq<User>, id: string): Option<nat>
  {
    FirstIndex(users, (u: User) => SameId(u.id, id))
  }

  /** `shopModel.findOne({ email: { $eq: email } })` */
  function ShopByEmail(shops: seq<Shop>, email: string): Option<nat>
  {
    FirstIndex(shops, (s: Shop) => s.email == email)
  }

  /** No e-mail address is held by two users. */
  ghost predicate UniqueEmails(users: seq<User>)
  {
    Distinct(users, UserEmail)
  }

  /** Every handler's result: the reply and the users collection afterwards. */
  datatype Step<R> = Step(reply: R, users: seq<User>)

  // ---------------------------------------------------------------- registration

  /**
   * A registration request. A field that is absent, null or empty is the
   * empty string: the handler's truthiness checks treat all three alike.
   */
  datatype RegisterBody = RegisterBody(
    fullname: string,
    email: string,
    dob: string,
    phone: string,
    address: string,
    shoppingPreference: string,
    password: string)

  datatype Field = FullName | Email | DateOfBirth | Phone | Address | Password

  /** The position of a field in the order registration checks the fields in. */
  function Rank(f: Field): nat
  {
    match f
    case FullName => 0
    case Email => 1
    case DateOfBirth => 2
    case Phone => 3
    case Address => 4
    case Password => 5
  }

  function FieldValue(b: RegisterBody, f: Field): string
  {
    match f
    case FullName => b.fullname
    case Email => b.email
    case DateOfBirth => b.dob
    case Phone => b.phone
    case Address => b.address
    case Password => b.password
  }

  datatype RegisterReply = FieldRequired(field: Field) | AlreadyRegistered | Registered(user: UserView)
  {
    function Status(): nat
    {
      match this
      case FieldRequired(_) => 400
      case AlreadyRegistered => 409
      case Registered(_) => 201
    }

    function Message(): string
    {
      match this
      case FieldRequired(FullName) => "Full name is required"
      case FieldRequired(Email) => "Email is required"
      case FieldRequired(DateOfBirth) => "Date of birth is required"
      case FieldRequired(Phone) => "Phone number is required"
      case FieldRequired(Address) => "Residential address is required"
      case FieldRequired(Password) => "Password is required"
      case AlreadyRegistered => "Already registered. Please login."
      case Registered(_) => "User registered successfully"
    }
  }

  /** The first required field, in the order of `Rank`, that the request leaves empty. */
  function MissingField(b: RegisterBody): (r: Option<Field>)
    ensures r.None? ==> forall f :: FieldValue(b, f) != ""
    ensures r.Some? ==> FieldValue(b, r.value) == ""
    ensures r.Some? ==> forall f :: Rank(f) < Rank(r.value) ==> FieldValue(b, f) != ""
  {
    if b.fullname == "" then Some(FullName)
    else if b.email == "" then Some(Email)
    else if b.dob == "" then Some(DateOfBirth)
    else if b.phone == "" then Some(Phone)
    else if b.address == "" then Some(Address)
    else if b.password == "" then Some(Password)
    else None
  }

  /** The document registration stores: the password hashed, role and reset state at their defaults. */
  function NewUser(b: RegisterBody, id: string, lib: Lib): User
  {
    User(id, b.fullname, b.email, b.dob, b.phone, b.address, b.shoppingPreference,
         lib.hash(b.password), EndUserRole, NoToken)
  }

  /** `userRegisterController` (AuthController.js:12-77). */
  function Registration(users: seq<User>, b: RegisterBody, newId: string, lib: Lib): (r: Step<RegisterReply>)
    ensures MissingField(b).Some? ==> r == Step(FieldRequired(MissingField(b).value), users)
    ensures MissingField(b).None? && (exists j :: 0 <= j < |users| && users[j].email == b.email)
            ==> r == Step(AlreadyRegistered, users)
    ensures r.reply.Registered? <==>
            MissingField(b).None? && forall j :: 0 <= j < |users| ==> users[j].email != b.email
    ensures r.reply.Registered? ==>
            && r.users == users + [NewUser(b, newId, lib)]
            && r.reply.user == View(NewUser(b, newId, lib))
            && r.users[|users|].password == lib.hash(b.password)
  {
    match MissingField(b)
    case Some(f) => Step(FieldRequired(f), users)
    case None =>
      if UserByEmail(users, b.email).Some? then Step(AlreadyRegistered, users)
      else
        var u := NewUser(b, newId, lib);
        Step(Registered(View(u)), users + [u])
  }

  lemma RegistrationKeepsEmailsUnique(users: seq<User>, b: RegisterBody, newId: string, lib: Lib)
    requires UniqueEmails(users)
    ensures UniqueEmails(Registration(users, b, newId, lib).users)
  {
    var r := Registration(users, b, newId, lib);
    if r.reply.Registered? {
      AppendDistinct(users, NewUser(b, newId, lib), UserEmail);
    }
  }

  // ---------------------------------------------------------------- profile update

  /** A profile update request; an absent or empty field is the empty string. */
  datatype ProfileBody = ProfileBody(
    fullname: string,
    email: string,
    dob: string,
    phone: string,
    address: string,
    password: string)

  datatype ProfileReply = InvalidUserId | UserNotFound | PasswordTooShort | ProfileUpdated(user: User)
  {
    function Status(): nat
    {
      match this
      case InvalidUserId => 400
      case UserNotFound => 404
      case PasswordTooShort => 400
      case ProfileUpdated(_) => 200
    }

    function Message(): string
    {
      match this
      case InvalidUserId => "Invalid user ID"
      case UserNotFound => "User not found"
      case PasswordTooShort => "Password must be at least 8 characters long"
      case ProfileUpdated(_) => "Profile updated successfully"
    }
  }

  /** `given || stored`: a field keeps its stored value exactly when the request leaves it empty. */
  ghost predicate TakesOrKeeps(given: string, stored: string, result: string)
  {
    (given == "" ==> result == stored) && (given != "" ==> result == given)
  }

  /**
   * The record profile update writes (AuthController.js:115-127): every
   * empty field keeps its stored value, a non-empty one replaces it, and the
   * password is replaced by the hash of a given password.
   */
  function MergeProfile(stored: User, b: ProfileBody, lib: Lib): (r: User)
    ensures r.id == stored.id && r.role == stored.role && r.reset == stored.reset
    ensures r.shoppingPreference == stored.shoppingPreference
    ensures TakesOrKeeps(b.fullname, stored.fullname, r.fullname)
    ensures TakesOrKeeps(b.email, stored.email, r.email)
    ensures TakesOrKeeps(b.dob, stored.dob, r.dob)
    ensures TakesOrKeeps(b.phone, stored.phone, r.phone)
    ensures TakesOrKeeps(b.address, stored.address, r.address)
    ensures b.password == "" ==> r.password == stored.password
    ensures b.password != "" && lib.hash(b.password) != "" ==> r.password == lib.hash(b.password)
  {
    var hashed := if b.password != "" then lib.hash(b.password) else "";
    stored.(fullname := Or(b.fullname, stored.fullname),
            email := Or(b.email, stored.email),
            dob := Or(b.dob, stored.dob),
            phone := Or(b.phone, stored.phone),
            address := Or(b.address, stored.address),
            password := Or(hashed, stored.password))
  }

  /**
   * Merging a request without a new password twice writes what merging it
   * once does. With a new password it would not: bcrypt salts each hash afresh.
   */
  lemma MergeIdempotent(stored: User, b: ProfileBody, lib: Lib)
    requires b.password == ""
    ensures MergeProfile(MergeProfile(stored, b, lib), b, lib) == MergeProfile(stored, b, lib)
  {
  }

  /** `updateUserProfileController` (AuthController.js:82-144); `id` is the id in the session token. */
  function ProfileUpdate(users: seq<User>, id: string, b: ProfileBody, lib: Lib): (r: Step<ProfileReply>)
    ensures !IsObjectId(id) ==> r == Step(InvalidUserId, users)
    ensures IsObjectId(id) && UserById(users, id).None? ==> r == Step(UserNotFound, users)
    ensures IsObjectId(id) && UserById(users, id).Some? && b.password != "" && |b.password| < MinPasswordLength
            ==> r == Step(PasswordTooShort, users)
    ensures r.reply.ProfileUpdated? <==>
            IsObjectId(id) && UserById(users, id).Some? && (b.password == "" || |b.password| >= MinPasswordLength)
    ensures r.reply.ProfileUpdated? ==>
            var i := UserById(users, id).value;
            r.users == users[i := MergeProfile(users[i], b, lib)] && r.reply.user == r.users[i]
    ensures |r.users| == |users| && forall j :: 0 <= j < |users| ==> r.users[j].id == users[j].id
  {
    if !IsObjectId(id) then Step(InvalidUserId, users)
    else match UserById(users, id)
      case None => Step(UserNotFound, users)
      case Some(i) =>
        if b.password != "" && |b.password| < MinPasswordLength then Step(PasswordTooShort, users)
        else
          var u := MergeProfile(users[i], b, lib);
          Step(ProfileUpdated(u), users[i := u])
  }

  /**
   * Profile update does not check that a new e-mail address is free: a
   * request that asks for the address another user holds succeeds and
   * leaves two users with it, which registration never does.
   */
  lemma ProfileUpdateCanDuplicateEmail(users: seq<User>, id: string, b: ProfileBody, lib: Lib, k: nat)
    requires IsObjectId(id) && UserById(users, id).Some? && UserById(users, id).value != k
    requires k < |users| && b.email == users[k].email && b.email != ""
    requires b.password == "" || |b.password| >= MinPasswordLength
    ensures ProfileUpdate(users, id, b, lib).reply.ProfileUpdated?
    ensures !UniqueEmails(ProfileUpdate(users, id, b, lib).users)
  {
    var i := UserById(users, id).value;
    var after := ProfileUpdate(users, id, b, lib).users;
    assert UserEmail(after[i]) == UserEmail(after[k]);
  }

  // ---------------------------------------------------------------- login

  /** A login request; an absent field is the empty string. */
  datatype LoginBody = LoginBody(email: string, password: string)

  /** The one who logged in: a user or a shop. */
  datatype Account = UserAccount(user: User) | ShopAccount(shop: Shop)
  {
    function Id(): string
    {
      match this
      case UserAccount(u) => u.id
      case ShopAccount(s) => s.id
    }
  }

  /** The signed session token's claims: `{ _id, role }` with a seven-day lifetime. */
  datatype Token = Token(subject: string, role: int, lifetimeSeconds: nat)

  datatype LoginReply =
    | LoginInputRejected
    | LoggedIn(token: Token, role: int, account: Account)
    | InvalidCredentials
  {
    function Status(): nat
    {
      match this
      case LoginInputRejected => 400
      case LoggedIn(_, _, _) => 200
      case InvalidCredentials => 400
    }

    function Message(): string
    {
      match this
      case LoginInputRejected => ""
      case LoggedIn(_, _, UserAccount(_)) => "Login successful"
      case LoggedIn(_, _, ShopAccount(_)) => "Shop owner login successful"
      case InvalidCredentials => "Invalid email or password"
    }
  }

  /** `loginSchema`: an e-mail-format string and a password of at least eight characters. */
  predicate LoginInputValid(lib: Lib, b: LoginBody)
  {
    b.email != "" && lib.isEmail(b.email) && |b.password| >= MinPasswordLength
  }

  /** The user login accepts: the user `findOne` returns, if the password verifies against it. */
  function VerifiedUser(users: seq<User>, lib: Lib, b: LoginBody): (r: Option<nat>)
    ensures r.Some? ==> r == UserByEmail(users, b.email) && lib.verify(b.password, users[r.value].password)
    ensures r.None? <==> (UserByEmail(users, b.email).None?
                          || !lib.verify(b.password, users[UserByEmail(users, b.email).value].password))
  {
    match UserByEmail(users, b.email)
    case None => None
    case Some(i) => if lib.verify(b.password, users[i].password) then Some(i) else None
  }

  /** The shop login accepts: the shop `findOne` returns, if the password verifies against it. */
  function VerifiedShop(shops: seq<Shop>, lib: Lib, b: LoginBody): (r: Option<nat>)
    ensures r.Some? ==> r == ShopByEmail(shops, b.email) && lib.verify(b.password, shops[r.value].password)
    ensures r.None? <==> (ShopByEmail(shops, b.email).None?
                          || !lib.verify(b.password, shops[ShopByEmail(shops, b.email).value].password))
  {
    match ShopByEmail(shops, b.email)
    case None => None
    case Some(i) => if lib.verify(b.password, shops[i].password) then Some(i) else None
  }

  /** `userLoginController` (AuthController.js:220-281). */
  function Login(users: seq<User>, shops: seq<Shop>, lib: Lib, b: LoginBody): (r: LoginReply)
    // invalid input is rejected before either collection is read
    ensures !LoginInputValid(lib, b) ==> r == LoginInputRejected
    // anything that logs in is an account with that e-mail whose password verifies
    ensures r.LoggedIn? ==> LoginInputValid(lib, b)
    ensures r.LoggedIn? ==> r.token == Token(r.account.Id(), r.role, TokenLifetimeSeconds)
    ensures r.LoggedIn? && r.account.UserAccount? ==>
            && r.account.user in users && r.account.user.email == b.email
            && lib.verify(b.password, r.account.user.password) && r.role == r.account.user.role
    ensures r.LoggedIn? && r.account.ShopAccount? ==>
            && r.account.shop in shops && r.account.shop.email == b.email
            && lib.verify(b.password, r.account.shop.password) && r.role == ShopOwnerRole
    // users are tried first, and a user that verifies wins over a shop
    ensures LoginInputValid(lib, b) && VerifiedUser(users, lib, b).Some? ==>
            r.LoggedIn? && r.account == UserAccount(users[VerifiedUser(users, lib, b).value])
    ensures LoginInputValid(lib, b) && VerifiedUser(users, lib, b).None? && VerifiedShop(shops, lib, b).Some? ==>
            r.LoggedIn? && r.account == ShopAccount(shops[VerifiedShop(shops, lib, b).value])
    // every other failure gets the one generic reply
    ensures r == InvalidCredentials <==>
            LoginInputValid(lib, b) && VerifiedUser(users, lib, b).None? && VerifiedShop(shops, lib, b).None?
  {
    if !LoginInputValid(lib, b) then LoginInputRejected
    else match VerifiedUser(users, lib, b)
      case Some(i) =>
        var u := users[i];
        LoggedIn(Token(u.id, u.role, TokenLifetimeSeconds), u.role, UserAccount(u))
      case None =>
        match VerifiedShop(shops, lib, b)
        case Some(k) =>
          var s := shops[k];
          LoggedIn(Token(s.id, ShopOwnerRole, TokenLifetimeSeconds), ShopOwnerRole, ShopAccount(s))
        case None => InvalidCredentials
  }

  /**
   * An e-mail no account holds and a known e-mail with the wrong password
   * get the same reply, so the reply does not tell which accounts exist.
   */
  lemma LoginDoesNotEnumerate(users: seq<User>, shops: seq<Shop>, lib: Lib, unknown: LoginBody, wrong: LoginBody)
    requires LoginInputValid(lib, unknown) && LoginInputValid(lib, wrong)
    requires forall j :: 0 <= j < |users| ==> users[j].email != unknown.email
    requires forall j :: 0 <= j < |shops| ==> shops[j].email != unknown.email
    requires forall j :: 0 <= j < |users| && users[j].email == wrong.email ==> !lib.verify(wrong.password, users[j].password)
    requires forall j :: 0 <= j < |shops| && shops[j].email == wrong.email ==> !lib.verify(wrong.password, shops[j].password)
    ensures Login(users, shops, lib, unknown) == Login(users, shops, lib, wrong) == InvalidCredentials
  {
  }

  /** A user who has just registered logs in with the password given, as an end user. */
  lemma RegisteredUserLogsIn(users: seq<User>, shops: seq<Shop>, b: RegisterBody, newId: string, lib: Lib)
    requires Sound(lib)
    requires Registration(users, b, newId, lib).reply.Registered?
    requires LoginInputValid(lib, LoginBody(b.email, b.password))
    ensures Login(Registration(users, b, newId, lib).users, shops, lib, LoginBody(b.email, b.password))
            == LoggedIn(Token(newId, EndUserRole, TokenLifetimeSeconds), EndUserRole,
                        UserAccount(NewUser(b, newId, lib)))
  {
    var after := Registration(users, b, newId, lib).users;
    var u := NewUser(b, newId, lib);
    assert after == users + [u];
    assert after[|users|] == u;
    assert UserByEmail(after, b.email) == Some(|users|);
    assert lib.verify(b.password, lib.hash(b.password));
  }

  // ---------------------------------------------------------------- password reset

  /** The handler's one reply to a reset request. */
  datatype ResetRequestReply = ResetRequestAccepted
  {
    function Status(): nat { 200 }
    function Message(): string { "If the account exists, a password reset email has been sent." }
  }

  /** What is handed to the mailer: the address and the raw token for the reset link. */
  datatype ResetMail = ResetMail(to: string, token: string)

  /**
   * The users collection after `requestPasswordReset` (AuthController.js:547-584)
   * for `email`, with `raw` the random token and `now` the clock: the first
   * user with that e-mail, if any, gets the digest of a new token and an
   * expiry 30 minutes ahead, whatever token it held before.
   */
  function ResetRequest(users: seq<User>, email: string, raw: string, now: int, lib: Lib): (r: seq<User>)
    ensures UserByEmail(users, email).None? ==> r == users
    ensures UserByEmail(users, email).Some? ==>
            var i := UserByEmail(users, email).value;
            r == users[i := users[i].(reset := Pending(lib.digest(raw), now + ResetWindowMs))]
  {
    match UserByEmail(users, email)
    case None => users
    case Some(i) => users[i := users[i].(reset := Pending(lib.digest(raw), now + ResetWindowMs))]
  }

  /** A reset request. `token` is None when the request has no token string. */
  datatype ResetBody = ResetBody(email: string, token: Option<string>, newPassword: string, rePassword: string)

  datatype ResetReply = WeakPassword | PasswordsDiffer | ResetError | InvalidOrExpired | PasswordReset
  {
    function Status(): nat
    {
      match this
      case WeakPassword => 400
      case PasswordsDiffer => 400
      case ResetError => 500
      case InvalidOrExpired => 400
      case PasswordReset => 200
    }

    function Message(): string
    {
      match this
      case WeakPassword => "Password must be at least 8 characters long"
      case PasswordsDiffer => "Passwords do not match"
      case ResetError => "Error performing reset"
      case InvalidOrExpired => "Invalid or expired token"
      case PasswordReset => "Password reset successfully"
    }
  }

  /** The query of AuthController.js:600-604: e-mail, digest and an expiry strictly after `now`. */
  predicate Redeemable(u: User, email: string, digest: string, now: int)
  {
    u.email == email && u.reset.Pending? && u.reset.digest == digest && u.reset.expires > now
  }

  function RedeemableUser(users: seq<User>, email: string, digest: string, now: int): Option<nat>
  {
    FirstIndex(users, (u: User) => Redeemable(u, email, digest, now))
  }

  /** The record a successful reset writes: the new password's hash, and no token. */
  function Redeemed(u: User, hashed: string): User
  {
    u.(password := hashed, reset := NoToken)
  }

  /** `performPasswordReset` (AuthController.js:586-624). */
  function ResetRedemption(users: seq<User>, b: ResetBody, now: int, lib: Lib): (r: Step<ResetReply>)
    // the checks on the request come before any access to the store
    ensures |b.newPassword| < MinPasswordLength ==> r == Step(WeakPassword, users)
    ensures |b.newPassword| >= MinPasswordLength && b.newPassword != b.rePassword ==> r == Step(PasswordsDiffer, users)
    ensures |b.newPassword| >= MinPasswordLength && b.newPassword == b.rePassword && b.token.None?
            ==> r == Step(ResetError, users)
    // success exactly when a user matches e-mail, digest and an unexpired expiry
    ensures r.reply == PasswordReset <==>
            && |b.newPassword| >= MinPasswordLength && b.newPassword == b.rePassword && b.token.Some?
            && exists j :: 0 <= j < |users| && Redeemable(users[j], b.email, lib.digest(b.token.value), now)
    // every failed match, whatever its cause, gets the one reply "Invalid or expired token"
    ensures (|b.newPassword| >= MinPasswordLength && b.newPassword == b.rePassword && b.token.Some?
             && r.reply != PasswordReset) ==> r == Step(InvalidOrExpired, users)
    ensures r.reply == PasswordReset ==>
            var i := RedeemableUser(users, b.email, lib.digest(b.token.value), now).value;
            r.users == users[i := Redeemed(users[i], lib.hash(b.newPassword))]
    ensures r.reply != PasswordReset ==> r.users == users
  {
    if |b.newPassword| < MinPasswordLength then Step(WeakPassword, users)
    else if b.newPassword != b.rePassword then Step(PasswordsDiffer, users)
    else match b.token
      case None => Step(ResetError, users)
      case Some(t) =>
        match RedeemableUser(users, b.email, lib.digest(t), now)
        case None => Step(InvalidOrExpired, users)
        case Some(i) => Step(PasswordReset, users[i := Redeemed(users[i], lib.hash(b.newPassword))])
  }

  /** A reset request changes no user's e-mail, so unique e-mails stay unique. */
  lemma ResetRequestKeepsEmailsUnique(users: seq<User>, email: string, raw: string, now: int, lib: Lib)
    ensures var r := ResetRequest(users, email, raw, now, lib);
            |r| == |users| && forall j :: 0 <= j < |users| ==> r[j].email == users[j].email
    ensures UniqueEmails(users) ==> UniqueEmails(ResetRequest(users, email, raw, now, lib))
  {
    match UserByEmail(users, email)
    case None =>
    case Some(i) =>
      if UniqueEmails(users) {
        UpdateDistinct(users, i, users[i].(reset := Pending(lib.digest(raw), now + ResetWindowMs)), UserEmail);
      }
  }

  /** A redemption changes no user's e-mail, so unique e-mails stay unique. */
  lemma ResetRedemptionKeepsEmailsUnique(users: seq<User>, b: ResetBody, now: int, lib: Lib)
    ensures var r := ResetRedemption(users, b, now, lib).users;
            |r| == |users| && forall j :: 0 <= j < |users| ==> r[j].email == users[j].email
    ensures UniqueEmails(users) ==> UniqueEmails(ResetRedemption(users, b, now, lib).users)
  {
    var r := ResetRedemption(users, b, now, lib);
    if r.reply == PasswordReset && UniqueEmails(users) {
      var i := RedeemableUser(users, b.email, lib.digest(b.token.value), now).value;
      UpdateDistinct(users, i, Redeemed(users[i], lib.hash(b.newPassword)), UserEmail);
    }
  }

  /**
   * A wrong e-mail, a wrong or absent stored token and an expired token all
   * get the same reply, so a failed reset does not say which account exists.
   */
  lemma ResetDoesNotEnumerate(users: seq<User>, b: ResetBody, now: int, lib: Lib)
    requires |b.newPassword| >= MinPasswordLength && b.newPassword == b.rePassword && b.token.Some?
    requires forall j :: 0 <= j < |users| && users[j].email == b.email ==>
               || users[j].reset.NoToken?
               || users[j].reset.digest != lib.digest(b.token.value)
               || users[j].reset.expires <= now
    ensures ResetRedemption(users, b, now, lib) == Step(InvalidOrExpired, users)
  {
  }

  /** A token redeems at most once: the same request a second time, at any time, fails. */
  lemma RedemptionIsSingleUse(users: seq<User>, b: ResetBody, now: int, later: int, lib: Lib)
    requires UniqueEmails(users)
    requires ResetRedemption(users, b, now, lib).reply == PasswordReset
    ensures ResetRedemption(ResetRedemption(users, b, now, lib).users, b, later, lib).reply == InvalidOrExpired
  {
    var d := lib.digest(b.token.value);
    var i := RedeemableUser(users, b.email, d, now).value;
    var after := ResetRedemption(users, b, now, lib).users;
    forall j | 0 <= j < |after|
      ensures !Redeemable(after[j], b.email, d, later)
    {
      if j != i {
        assert UserEmail(users[j]) != UserEmail(users[i]);
      }
    }
  }

  /**
   * After a reset request for a registered e-mail, redeeming its token with
   * an acceptable new password succeeds exactly when it is done strictly
   * less than 30 minutes after the request.
   */
  lemma RedeemSucceedsOnlyBeforeExpiry(users: seq<User>, raw: string, issued: int, b: ResetBody, now: int, lib: Lib)
    requires UniqueEmails(users) && UserByEmail(users, b.email).Some?
    requires b.token == Some(raw) && |b.newPassword| >= MinPasswordLength && b.newPassword == b.rePassword
    ensures ResetRedemption(ResetRequest(users, b.email, raw, issued, lib), b, now, lib).reply
            == if now < issued + ResetWindowMs then PasswordReset else InvalidOrExpired
  {
    var i := UserByEmail(users, b.email).value;
    var pending := ResetRequest(users, b.email, raw, issued, lib);
    var d := lib.digest(raw);
    assert Redeemable(pending[i], b.email, d, now) <==> now < issued + ResetWindowMs;
    forall j | 0 <= j < |pending| && j != i
      ensures !Redeemable(pending[j], b.email, d, now)
    {
      assert UserEmail(users[j]) != UserEmail(users[i]);
    }
  }

  /**
   * A new request replaces the pending token: after requests with `first`
   * and then `second`, the first token no longer redeems (unless the two
   * happen to have the same digest).
   */
  lemma LaterRequestSupersedes(users: seq<User>, email: string, first: string, second: string,
                               t1: int, t2: int, b: ResetBody, now: int, lib: Lib)
    requires UniqueEmails(users)
    requires lib.digest(first) != lib.digest(second)
    requires b.email == email && b.token == Some(first)
    ensures ResetRedemption(ResetRequest(ResetRequest(users, email, first, t1, lib), email, second, t2, lib),
                            b, now, lib).reply != PasswordReset
  {
    var once := ResetRequest(users, email, first, t1, lib);
    var twice := ResetRequest(once, email, second, t2, lib);
    var d := lib.digest(first);
    match UserByEmail(users, email)
    case None =>
      assert twice == users;
    case Some(i) =>
      FirstIndexAt(once, (u: User) => u.email == email, i);
      forall j | 0 <= j < |twice|
        ensures !Redeemable(twice[j], email, d, now)
      {
        if j != i {
          assert UserEmail(users[j]) != UserEmail(users[i]);
        }
      }
  }

  /** After a successful reset, the new password logs the user in. */
  lemma ResetPasswordLogsIn(users: seq<User>, shops: seq<Shop>, b: ResetBody, now: int, lib: Lib)
    requires Sound(lib) && UniqueEmails(users)
    requires ResetRedemption(users, b, now, lib).reply == PasswordReset
    requires b.email != "" && lib.isEmail(b.email)
    ensures var r := Login(ResetRedemption(users, b, now, lib).users, shops, lib, LoginBody(b.email, b.newPassword));
            && r.LoggedIn? && r.account.UserAccount?
            && r.account.user.email == b.email && r.account.user.reset == NoToken
  {
    var d := lib.digest(b.token.value);
    var i := RedeemableUser(users, b.email, d, now).value;
    var after := ResetRedemption(users, b, now, lib).users;
    assert after[i].email == b.email;
    forall j | 0 <= j < i
      ensures after[j].email != b.email
    {
      assert UserEmail(users[j]) != UserEmail(users[i]);
    }
    FirstIndexAt(after, (u: User) => u.email == b.email, i);
    assert lib.verify(b.newPassword, lib.hash(b.newPassword));
  }

  // ---------------------------------------------------------------- the store

  /** The two collections the controller works on, and the libraries it calls. */
  class AccountStore {
    var users: seq<User>
    var shops: seq<Shop>
    const lib: Lib

    /** Document ids are unique in each collection. */
    ghost predicate Valid()
      reads this
    {
      Distinct(users, UserId) && Distinct(shops, ShopId)
    }

    constructor (lib: Lib, users: seq<User>, shops: seq<Shop>)
      requires Distinct(users, UserId) && Distinct(shops, ShopId)
      ensures Valid() && this.lib == lib && this.users == users && this.shops == shops
    {
      this.lib := lib;
      this.users := users;
      this.shops := shops;
    }

    /** `userRegisterController`; `newId` is the id the database assigns to the new document. */
    method RegisterUser(b: RegisterBody, newId: string) returns (reply: RegisterReply)
      requires Valid()
      requires IsObjectId(newId) && forall j :: 0 <= j < |users| ==> !SameId(users[j].id, newId)
      modifies this`users
      ensures Valid()
      ensures Step(reply, users) == Registration(old(users), b, newId, lib)
    {
      var missing := MissingField(b);
      if missing.Some? {
        return FieldRequired(missing.value);
      }
      if UserByEmail(users, b.email).Some? {
        return AlreadyRegistered;
      }
      var u := NewUser(b, newId, lib);
      AppendDistinct(users, u, UserId);
      users := users + [u];
      reply := Registered(View(u));
    }

    /** `updateUserProfileController`; `id` is the id carried by the session token. */
    method UpdateUserProfile(id: string, b: ProfileBody) returns (reply: ProfileReply)
      requires Valid()
      modifies this`users
      ensures Valid()
      ensures Step(reply, users) == ProfileUpdate(old(users), id, b, lib)
    {
      if !IsObjectId(id) {
        return InvalidUserId;
      }
      var found := UserById(users, id);
      if found.None? {
        return UserNotFound;
      }
      if b.password != "" && |b.password| < MinPasswordLength {
        return PasswordTooShort;
      }
      var i := found.value;
      var u := MergeProfile(users[i], b, lib);
      UpdateDistinct(users, i, u, UserId);
      users := users[i := u];
      reply := ProfileUpdated(u);
    }

    /**
     * `requestPasswordReset`; `raw` is the random token and `now` the clock.
     * The reply is the same whether or not the e-mail is known; the raw
     * token leaves only through `mail`, and a failure to send it is caught.
     */
    method RequestPasswordReset(email: string, raw: string, now: int)
      returns (reply: ResetRequestReply, mail: Option<ResetMail>)
      requires Valid()
      modifies this`users
      ensures Valid()
      ensures users == ResetRequest(old(users), email, raw, now, lib)
      ensures reply == ResetRequestAccepted
      ensures mail == if UserByEmail(old(users), email).Some? then Some(ResetMail(email, raw)) else None
    {
      reply, mail := ResetRequestAccepted, None;
      var found := UserByEmail(users, email);
      if found.Some? {
        var i := found.value;
        var u := users[i].(reset := Pending(lib.digest(raw), now + ResetWindowMs));
        UpdateDistinct(users, i, u, UserId);
        users := users[i := u];
        mail := Some(ResetMail(email, raw));
      }
    }

    /** `performPasswordReset`; `now` is the clock. */
    method PerformPasswordReset(b: ResetBody, now: int) returns (reply: ResetReply)
      requires Valid()
      modifies this`users
      ensures Valid()
      ensures Step(reply, users) == ResetRedemption(old(users), b, now, lib)
    {
      if |b.newPassword| < MinPasswordLength {
        return WeakPassword;
      }
      if b.newPassword != b.rePassword {
        return PasswordsDiffer;
      }
      if b.token.None? {
        return ResetError;
      }
      var found := RedeemableUser(users, b.email, lib.digest(b.token.value), now);
      if found.None? {
        return InvalidOrExpired;
      }
      var i := found.value;
      var u := Redeemed(users[i], lib.hash(b.newPassword));
      UpdateDistinct(users, i, u, UserId);
      users := users[i := u];
      reply := PasswordReset;
    }
  }
}
