/** The account rules of src/services/authService.ts: the free-tier quota,
    the e-mail and password checks, the sanitised user view, and the
    register/login guards. Password hashing and comparison (bcrypt) are
    parameters: a given hash and a matching oracle. */
module Auth {
  import opened Wrappers
  import opened Strings
  import opened Constants
  import opened Store

  /** The user as sent to clients: no password hash, no timestamps. */
  datatype AuthUser = AuthUser(
    id: string, email: string, organizationName: string, certificateCount: int, isPremium: bool)

  const EMAIL_TAKEN: string := "User with this email already exists"
  const INVALID_CREDENTIALS: string := "Invalid email or password"

  const PASSWORD_TOO_SHORT: string := "Password must be at least 8 characters long"
  const PASSWORD_NO_LOWER: string := "Password must contain at least one lowercase letter"
  const PASSWORD_NO_UPPER: string := "Password must contain at least one uppercase letter"
  const PASSWORD_NO_DIGIT: string := "Password must contain at least one number"

  /** `sanitizeUser`: copies the five public fields. */
  function SanitizeUser(u: User): (a: AuthUser)
    ensures a.id == u.id && a.email == u.email && a.organizationName == u.organizationName
    ensures a.certificateCount == u.certificateCount && a.isPremium == u.isPremium
  {
    AuthUser(u.id, u.email, u.organizationName, u.certificateCount, u.isPremium)
  }

  /** The sanitised view does not depend on the password hash (nor on the
      timestamps): users that differ only there look the same to clients. */
  lemma SanitizeHidesSecrets(u: User, v: User)
    requires u.id == v.id && u.email == v.email && u.organizationName == v.organizationName
    requires u.certificateCount == v.certificateCount && u.isPremium == v.isPremium
    ensures SanitizeUser(u) == SanitizeUser(v)
  {
  }

  /** `canGenerateCertificates`: unknown users may not generate, premium
      users always may, and free users may while the total stays within
      FREE_TIER_LIMIT. */
  function CanGenerateCertificates(db: Database, userId: string, count: int): (ok: bool)
    reads db
    ensures db.FindUserById(userId).None? ==> !ok
    ensures db.FindUserById(userId).Some? && db.FindUserById(userId).value.isPremium ==> ok
    ensures db.FindUserById(userId).Some? && !db.FindUserById(userId).value.isPremium ==>
              (ok <==> db.FindUserById(userId).value.certificateCount + count <= FREE_TIER_LIMIT)
  {
    match db.FindUserById(userId)
    case None => false
    case Some(u) => u.isPremium || u.certificateCount + count <= FREE_TIER_LIMIT
  }

  /** Asking for fewer certificates never turns an allowed request down. */
  lemma QuotaMonotone(db: Database, userId: string, count: int, fewer: int)
    requires fewer <= count
    requires CanGenerateCertificates(db, userId, count)
    ensures CanGenerateCertificates(db, userId, fewer)
  {
  }

  /** A free user who passed the gate and is then charged exactly `count`
      stays within the free tier. */
  lemma ChargeAfterGateStaysWithinLimit(db: Database, userId: string, count: int)
    requires CanGenerateCertificates(db, userId, count)
    requires !db.FindUserById(userId).value.isPremium
    ensures WithCount(db.FindUserById(userId).value, userId, count).certificateCount <= FREE_TIER_LIMIT
  {
  }

  /** `incrementCertificateCount`: adds `count` to the stored counter. */
  method IncrementCertificateCount(db: Database, userId: string, count: int)
    requires db.Valid()
    modifies db`users
    ensures db.Valid()
    ensures |db.users| == |old(db.users)|
    ensures forall i :: 0 <= i < |db.users| ==> db.users[i] == WithCount(old(db.users)[i], userId, count)
  {
    db.UpdateCertificateCount(userId, count);
  }

  /** The e-mail pattern `^[^\s@]+@[^\s@]+\.[^\s@]+$`, as positions: one '@'
      at `at` with something before it, a '.' at `dot` with something on
      both sides after the '@', and no whitespace or other '@' anywhere. */
  predicate EmailShapeAt(s: string, at: int, dot: int) {
    && 0 < at && at + 1 < dot && dot + 1 < |s|
    && s[at] == '@' && s[dot] == '.'
    && forall k :: 0 <= k < |s| ==> !IsWhitespace(s[k]) && (s[k] == '@' ==> k == at)
  }

  ghost predicate MatchesEmailPattern(s: string) {
    exists at, dot :: EmailShapeAt(s, at, dot)
  }

  /** `validateEmail`, decided by scanning for the '@' and an interior '.'. */
  function ValidateEmail(s: string): (b: bool)
    ensures b <==> MatchesEmailPattern(s)
  {
    match IndexOf(s, '@')
    case None => false
    case Some(at) =>
      var domain := s[at + 1..];
      if at > 0 && NoWhitespace(s) && IndexOf(domain, '@').None? && |domain| >= 3 then
        match IndexOf(domain[1..|domain| - 1], '.')
        case Some(j) =>
          assert EmailShapeAt(s, at, at + 2 + j);
          true
        case None => false
      else false
  }

  predicate HasLower(p: string) { exists k | 0 <= k < |p| :: 'a' <= p[k] <= 'z' }
  predicate HasUpper(p: string) { exists k | 0 <= k < |p| :: 'A' <= p[k] <= 'Z' }
  predicate HasDigit(p: string) { exists k | 0 <= k < |p| :: IsAsciiDigit(p[k]) }

  datatype PasswordCheck = PasswordCheck(valid: bool, message: Option<string>)

  /** `validatePassword`: the checks run in the order length, lowercase,
      uppercase, digit; the first failure names itself. */
  function ValidatePassword(p: string): (r: PasswordCheck)
    ensures r.valid <==> Utf16Length(p) >= 8 && HasLower(p) && HasUpper(p) && HasDigit(p)
    ensures r.valid <==> r.message.None?
    ensures r.message == Some(PASSWORD_TOO_SHORT) <==> Utf16Length(p) < 8
    ensures r.message == Some(PASSWORD_NO_LOWER) <==> Utf16Length(p) >= 8 && !HasLower(p)
    ensures r.message == Some(PASSWORD_NO_UPPER) <==> Utf16Length(p) >= 8 && HasLower(p) && !HasUpper(p)
    ensures r.message == Some(PASSWORD_NO_DIGIT) <==>
              Utf16Length(p) >= 8 && HasLower(p) && HasUpper(p) && !HasDigit(p)
  {
    if Utf16Length(p) < 8 then PasswordCheck(false, Some(PASSWORD_TOO_SHORT))
    else if !HasLower(p) then PasswordCheck(false, Some(PASSWORD_NO_LOWER))
    else if !HasUpper(p) then PasswordCheck(false, Some(PASSWORD_NO_UPPER))
    else if !HasDigit(p) then PasswordCheck(false, Some(PASSWORD_NO_DIGIT))
    else PasswordCheck(true, None)
  }

  /** `getUserById`: the sanitised user, or `None`. */
  function GetUserById(db: Database, userId: string): (r: Option<AuthUser>)
    reads db
    ensures r.None? <==> !HasKey(db.users, UserKey, userId)
    ensures r.Some? ==> r.value.id == userId
    ensures r.Some? ==> exists u :: u in db.users && u.id == userId && r.value == SanitizeUser(u)
  {
    match db.FindUserById(userId)
    case None => None
    case Some(u) => Some(SanitizeUser(u))
  }

  /** `register`: an e-mail already on file is refused before anything is
      written; otherwise the account is created with a zero counter.
      `passwordHash` is what bcrypt produced; `id` and `now` are what the
      database assigns. */
  method Register(db: Database, email: string, passwordHash: string, organizationName: string,
                  id: string, now: int) returns (r: Result<AuthUser>)
    requires db.Valid()
    modifies db`users
    ensures db.Valid()
    ensures old(db.FindUserByEmail(email)).Some? ==> r == Failure(EMAIL_TAKEN) && db.users == old(db.users)
    ensures r.Success? <==> old(db.FindUserByEmail(email)).None? && !HasKey(old(db.users), UserKey, id)
    ensures r.Success? ==> r.value == AuthUser(id, email, organizationName, 0, false)
    ensures r.Success? ==> db.users == old(db.users) + [User(id, email, passwordHash, organizationName, 0, false, now, None)]
    ensures r.Failure? ==> db.users == old(db.users)
  {
    if db.FindUserByEmail(email).Some? {
      return Failure(EMAIL_TAKEN);
    }
    var created := db.CreateUser(id, email, passwordHash, organizationName, now);
    match created
    case Failure(e) => r := Failure(e);
    case Success(u) => r := Success(SanitizeUser(u));
  }

  /** `login`: an unknown e-mail and a wrong password are refused with the
      same message, and neither touches the store; on success the user's
      `last_login` is stamped. */
  method Login(db: Database, email: string, password: string,
               passwordMatches: (string, string) -> bool, now: int) returns (r: Result<AuthUser>)
    requires db.Valid()
    modifies db`users
    ensures db.Valid()
    ensures r.Failure? ==> r.error == INVALID_CREDENTIALS && db.users == old(db.users)
    ensures old(db.FindUserByEmail(email)).None? ==> r.Failure?
    ensures r.Success? <==>
              (old(db.FindUserByEmail(email)).Some? &&
               passwordMatches(password, old(db.FindUserByEmail(email)).value.passwordHash))
    ensures r.Success? ==> r.value == SanitizeUser(old(db.FindUserByEmail(email)).value)
    ensures r.Success? ==> |db.users| == |old(db.users)|
    ensures r.Success? ==> forall i :: 0 <= i < |db.users| ==>
              db.users[i] == if old(db.users)[i].id == r.value.id
                             then old(db.users)[i].(lastLogin := Some(now)) else old(db.users)[i]
  {
    var found := db.FindUserByEmail(email);
    if found.None? {
      return Failure(INVALID_CREDENTIALS);
    }
    var user := found.value;
    if !passwordMatches(password, user.passwordHash) {
      return Failure(INVALID_CREDENTIALS);
    }
    db.UpdateLastLogin(user.id, now);
    r := Success(SanitizeUser(user));
  }
}
