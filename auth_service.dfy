/**
 * `JWTAuthService`: registration, login, logout and token validation over an
 * in-memory whitelist of live token strings.
 *
 * The cryptographic collaborators are oracles: the JWT codec (`SignJWT` /
 * `jwtVerify`) and the password hasher (`bcrypt.hash` / `bcrypt.compare`) are
 * function values fixed at construction. The fresh `ObjectId`, the random salt
 * and the clock are parameters of the operations that use them.
 */
module AuthService {
  import opened Common
  import opened UserStore
  import opened Text

  /** `setExpirationTime('24h')`, in seconds. */
  const TokenLifetime: int := 24 * 60 * 60

  /** `saltRounds`: the bcrypt cost factor handed to the hasher. */
  const SaltRounds: nat := 10

  /** The length of every bcrypt hash string (`$2b$10$` followed by 53 characters). */
  const BcryptHashLength: nat := 60

  /** What a token asserts: `sub`, the payload's `userId` and `email`, `iat` and `exp`. */
  datatype Claims = Claims(subject: Option<string>, userId: string, email: string, issuedAt: int, expiresAt: int)

  /**
   * The JWT codec keyed with the server secret. `sign` is `None` when signing
   * throws; `verify(token, now)` is `None` when `jwtVerify` throws (malformed
   * token, bad signature or expired at `now`).
   */
  datatype TokenCodec = TokenCodec(
    sign: Claims -> Option<string>,
    verify: (string, int) -> Option<Claims>)

  /** `bcrypt.hash(password, rounds)` with the salt it draws, and `bcrypt.compare(password, hash)`. */
  datatype PasswordHasher = PasswordHasher(
    hash: (string, nat, string) -> string,
    compare: (string, string) -> bool)

  /** The errors the service throws. */
  datatype AuthError = RegistrationFailed | InvalidCredentials | TokenRevoked | InvalidToken

  /** The message each error carries. */
  function Message(e: AuthError): string {
    match e
    case RegistrationFailed => "Failed to register user"
    case InvalidCredentials => "Invalid credentials"
    case TokenRevoked => "Token is not valid or has been revoked"
    case InvalidToken => "Invalid token"
  }

  /** A codec whose tokens verify, until they expire, to exactly the claims that were signed. */
  ghost predicate HonestCodec(codec: TokenCodec) {
    && (forall c :: codec.sign(c).Some?)
    && (forall c: Claims, now: int :: c.issuedAt <= now < c.expiresAt ==> codec.verify(codec.sign(c).value, now) == Some(c))
  }

  /** A hasher that accepts the password a hash was made from. */
  ghost predicate HonestHasher(hasher: PasswordHasher) {
    forall p, rounds, salt :: hasher.compare(p, hasher.hash(p, rounds, salt))
  }

  /** The claims `generateToken` signs for `user` at time `now`. */
  function TokenClaims(user: UserRecord, now: int): Claims {
    Claims(Some(user.id), user.id, user.email, now, now + TokenLifetime)
  }

  /**
   * `generateToken`: fails when the user has no `_id` (an empty id here) or when
   * signing fails; otherwise the token is the signature of the user's claims.
   */
  function GenerateToken(codec: TokenCodec, user: UserRecord, now: int): (token: Option<string>)
    ensures token.Some? ==> user.id != "" && codec.sign(TokenClaims(user, now)) == token
    ensures user.id == "" ==> token.None?
    ensures user.id != "" ==> token == codec.sign(TokenClaims(user, now))
  {
    if user.id == "" then None else codec.sign(TokenClaims(user, now))
  }

  /** Under an honest codec, a generated token verifies within its lifetime to the user's id and email. */
  lemma IssuedTokenVerifies(codec: TokenCodec, user: UserRecord, now: int, later: int)
    requires HonestCodec(codec)
    requires user.id != ""
    requires now <= later < now + TokenLifetime
    ensures GenerateToken(codec, user, now).Some?
    ensures var c := codec.verify(GenerateToken(codec, user, now).value, later);
      c.Some? && c.value.subject == Some(user.id) && c.value.userId == user.id && c.value.email == user.email
  {
    var c := TokenClaims(user, now);
    assert codec.verify(codec.sign(c).value, later) == Some(c);
  }

  /** The record `register` builds: a fresh id, the given fields and the hashed password. */
  function NewUser(hasher: PasswordHasher, name: string, email: string, password: string, avatar: string,
                   userType: UserType, newId: string, salt: string): UserRecord
  {
    UserRecord(newId, name, email, avatar, hasher.hash(password, SaltRounds, salt), userType)
  }

  /**
   * `register` against the user schema as declared, where the password length
   * bound is checked on the stored hash.
   */
  function RegisterResultAsWritten(records: seq<UserRecord>, hasher: PasswordHasher, name: string, email: string,
                                   password: string, avatar: string, userType: UserType, newId: string,
                                   salt: string): (r: Result<UserRecord, AuthError>)
    ensures r.Success? ==> SchemaAcceptsAsWritten(r.value) && r.value.password == hasher.hash(password, SaltRounds, salt)
  {
    if RecordWithEmail(records, email).Some? then Failure(RegistrationFailed)
    else
      var newUser := NewUser(hasher, name, email, password, avatar, userType, newId, salt);
      if RecordWithId(records, newId).None? && SchemaAcceptsAsWritten(newUser) then Success(newUser)
      else Failure(RegistrationFailed)
  }

  /** As declared, the schema refuses every bcrypt hash, so `register` can never succeed. */
  lemma RegisterNeverSucceedsAsWritten(records: seq<UserRecord>, hasher: PasswordHasher, name: string, email: string,
                                       password: string, avatar: string, userType: UserType, newId: string, salt: string)
    requires |hasher.hash(password, SaltRounds, salt)| == BcryptHashLength
    ensures RegisterResultAsWritten(records, hasher, name, email, password, avatar, userType, newId, salt)
      == Failure(RegistrationFailed)
  {
  }

  /**
   * `register`: fails when the email is taken or the store refuses the record;
   * otherwise the new record carries the hash of the password, never the password.
   */
  function RegisterResult(records: seq<UserRecord>, hasher: PasswordHasher, name: string, email: string,
                          password: string, avatar: string, userType: UserType, newId: string,
                          salt: string): (r: Result<UserRecord, AuthError>)
    ensures RecordWithEmail(records, email).Some? ==> r == Failure(RegistrationFailed)
    ensures r.Failure? ==> r.error == RegistrationFailed
    ensures r.Success? ==>
      && r.value == UserRecord(newId, name, email, avatar, hasher.hash(password, SaltRounds, salt), userType)
      && CanCreate(records, r.value)
  {
    if RecordWithEmail(records, email).Some? then Failure(RegistrationFailed)
    else
      var newUser := NewUser(hasher, name, email, password, avatar, userType, newId, salt);
      if CanCreate(records, newUser) then Success(newUser) else Failure(RegistrationFailed)
  }

  /** With the stored-hash bound corrected, a fresh id and email and a 1..15 character name register. */
  lemma RegisterSucceedsWhenFresh(records: seq<UserRecord>, hasher: PasswordHasher, name: string, email: string,
                                  password: string, avatar: string, userType: UserType, newId: string, salt: string)
    requires RecordWithEmail(records, email).None? && RecordWithId(records, newId).None?
    requires 1 <= Utf16Length(name) <= 15 && email != ""
    requires |hasher.hash(password, SaltRounds, salt)| == BcryptHashLength
    ensures RegisterResult(records, hasher, name, email, password, avatar, userType, newId, salt)
      == Success(NewUser(hasher, name, email, password, avatar, userType, newId, salt))
  {
  }

  /**
   * `login`: looks the user up by id with its first argument, compares the
   * password and generates a token; every failure is `Invalid credentials`.
   */
  function LoginResult(records: seq<UserRecord>, hasher: PasswordHasher, codec: TokenCodec,
                       username: string, password: string, now: int): (r: Result<string, AuthError>)
    ensures r.Failure? ==> r.error == InvalidCredentials
    ensures RecordWithId(records, username).None? ==> r.Failure?
    ensures r.Success? <==>
      && RecordWithId(records, username).Some?
      && hasher.compare(password, RecordWithId(records, username).value.password)
      && GenerateToken(codec, RecordWithId(records, username).value, now).Some?
    ensures r.Success? ==> exists i :: 0 <= i < |records| && records[i].id == username && records[i].id != "" &&
                                       codec.sign(TokenClaims(records[i], now)) == Some(r.value)
  {
    match RecordWithId(records, username)
    case None => Failure(InvalidCredentials)
    case Some(user) =>
      if !hasher.compare(password, user.password) then Failure(InvalidCredentials)
      else
        match GenerateToken(codec, user, now)
        case None => Failure(InvalidCredentials)
        case Some(token) => Success(token)
  }

  /**
   * `validateToken`: a token outside the whitelist is refused before any
   * verification or lookup; a whitelisted token yields the stored user whose id
   * is the verified subject, and any other failure is `Invalid token`.
   */
  function ValidateResult(whitelist: set<string>, records: seq<UserRecord>, codec: TokenCodec,
                          token: string, now: int): (r: Result<UserRecord, AuthError>)
    ensures token !in whitelist ==> r == Failure(TokenRevoked)
    ensures token in whitelist && r.Failure? ==> r.error == InvalidToken
    ensures r.Success? ==>
      && token in whitelist
      && r.value in records
      && codec.verify(token, now).Some?
      && codec.verify(token, now).value.subject == Some(r.value.id)
    ensures (token in whitelist && codec.verify(token, now).Some? && codec.verify(token, now).value.subject.Some? &&
             RecordWithId(records, codec.verify(token, now).value.subject.value).Some?) ==> r.Success?
  {
    if token !in whitelist then Failure(TokenRevoked)
    else
      match codec.verify(token, now)
      case None => Failure(InvalidToken)
      case Some(payload) =>
        match payload.subject
        case None => Failure(InvalidToken)
        case Some(sub) =>
          match RecordWithId(records, sub)
          case None => Failure(InvalidToken)
          case Some(user) => Success(user)
  }

  /**
   * A whole session: a user registered into a store with unique keys logs in
   * with their id and password, the token validates to that user within its
   * lifetime, and after logout the same token is refused.
   */
  lemma {:induction false} SessionLifecycle(records: seq<UserRecord>, whitelist: set<string>, hasher: PasswordHasher,
                                           codec: TokenCodec, name: string, email: string, password: string,
                                           avatar: string, userType: UserType, newId: string, salt: string,
                                           now: int, later: int)
    requires UniqueKeys(records)
    requires HonestCodec(codec) && HonestHasher(hasher)
    requires RegisterResult(records, hasher, name, email, password, avatar, userType, newId, salt).Success?
    requires newId != ""
    requires now <= later < now + TokenLifetime
    ensures var user := RegisterResult(records, hasher, name, email, password, avatar, userType, newId, salt).value;
      var stored := records + [user];
      var login := LoginResult(stored, hasher, codec, newId, password, now);
      && login.Success?
      && ValidateResult(whitelist + {login.value}, stored, codec, login.value, later) == Success(user)
      && user.email == email
      && ValidateResult(whitelist + {login.value} - {login.value}, stored, codec, login.value, later) == Failure(TokenRevoked)
  {
    var user := RegisterResult(records, hasher, name, email, password, avatar, userType, newId, salt).value;
    var stored := records + [user];
    CreateKeepsKeysUnique(records, user);
    assert hasher.compare(password, hasher.hash(password, SaltRounds, salt));
    IssuedTokenVerifies(codec, user, now, later);
    var token := GenerateToken(codec, user, now).value;
    assert LoginResult(stored, hasher, codec, newId, password, now) == Success(token);
    assert codec.verify(token, later) == Some(TokenClaims(user, now));
  }

  /** The service: the whitelist it mutates and the collaborators injected into it. */
  class JWTAuthService {
    /** `tokenWhitelist`: the live token strings. */
    var tokenWhitelist: set<string>
    /** Every token a successful login has returned. */
    ghost var issued: set<string>
    const userRepository: UserRepository
    const codec: TokenCodec
    const hasher: PasswordHasher

    /** Only issued tokens are ever live, and the store's keys stay unique. */
    ghost predicate Valid()
      reads this, userRepository
    {
      tokenWhitelist <= issued && userRepository.Valid()
    }

    constructor (userRepository: UserRepository, codec: TokenCodec, hasher: PasswordHasher)
      requires userRepository.Valid()
      ensures Valid()
      ensures tokenWhitelist == {} && issued == {}
      ensures this.userRepository == userRepository && this.codec == codec && this.hasher == hasher
    {
      tokenWhitelist := {};
      issued := {};
      this.userRepository := userRepository;
      this.codec := codec;
      this.hasher := hasher;
    }

    /** `register`: writes at most one record to the store and never touches the whitelist. */
    method Register(name: string, email: string, password: string, avatar: string, userType: UserType,
                    newId: string, salt: string) returns (r: Result<UserRecord, AuthError>)
      requires Valid()
      modifies userRepository
      ensures Valid()
      ensures r == RegisterResult(old(userRepository.records), hasher, name, email, password, avatar, userType, newId, salt)
      ensures userRepository.records == if r.Success? then old(userRepository.records) + [r.value]
                                        else old(userRepository.records)
    {
      var existingUser := userRepository.FindByEmail(email);
      if existingUser.Some? {
        return Failure(RegistrationFailed);
      }
      var hashedPassword := hasher.hash(password, SaltRounds, salt);
      var newUser := UserRecord(newId, name, email, avatar, hashedPassword, userType);
      var created := userRepository.Create(newUser);
      if !created {
        return Failure(RegistrationFailed);
      }
      return Success(newUser);
    }

    /** `login`: a success adds exactly the returned token to the whitelist; a failure adds nothing. */
    method Login(username: string, password: string, now: int) returns (r: Result<string, AuthError>)
      requires Valid()
      modifies this
      ensures Valid()
      ensures r == LoginResult(userRepository.records, hasher, codec, username, password, now)
      ensures tokenWhitelist == if r.Success? then old(tokenWhitelist) + {r.value} else old(tokenWhitelist)
      ensures issued == if r.Success? then old(issued) + {r.value} else old(issued)
    {
      var user := userRepository.FindById(username);
      if user.None? {
        return Failure(InvalidCredentials);
      }
      var isPasswordValid := hasher.compare(password, user.value.password);
      if !isPasswordValid {
        return Failure(InvalidCredentials);
      }
      var token := GenerateToken(codec, user.value, now);
      if token.None? {
        return Failure(InvalidCredentials);
      }
      tokenWhitelist := tokenWhitelist + {token.value};
      issued := issued + {token.value};
      return Success(token.value);
    }

    /** `logout`: removes only `token`, so a second logout changes nothing; it never fails. */
    method Logout(token: string)
      requires Valid()
      modifies this
      ensures Valid()
      ensures tokenWhitelist == old(tokenWhitelist) - {token}
      ensures tokenWhitelist - {token} == tokenWhitelist
      ensures issued == old(issued)
    {
      tokenWhitelist := tokenWhitelist - {token};
    }

    /** `validateToken`: reads the whitelist and the store and changes neither. */
    method ValidateToken(token: string, now: int) returns (r: Result<UserRecord, AuthError>)
      ensures r == ValidateResult(tokenWhitelist, userRepository.records, codec, token, now)
    {
      if token !in tokenWhitelist {
        return Failure(TokenRevoked);
      }
      var payload := codec.verify(token, now);
      if payload.None? || payload.value.subject.None? {
        return Failure(InvalidToken);
      }
      var user := userRepository.FindById(payload.value.subject.value);
      if user.None? {
        return Failure(InvalidToken);
      }
      return Success(user.value);
    }
  }
}
