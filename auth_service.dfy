/**
 * The authentication core: registration, login and resolving a token
 * payload back to a stored user. Password hashing and token signing are
 * foreign library calls, held as functions the service is built with.
 */
module Auth {
  import opened Common

  /** A stored user. `password` holds the password hash. */
  datatype User = User(id: Uuid, email: string, password: string, name: string)

  /** The claims signed into an access token; `sub` is the subject claim of RFC 7519, section 4.1.2. */
  datatype JwtPayload = JwtPayload(sub: Uuid, email: string)

  /** What a client learns about a user: there is no password field. */
  datatype UserSummary = UserSummary(id: Uuid, email: string, name: string)

  datatype AuthResponse = AuthResponse(accessToken: string, user: UserSummary)

  /** The domain errors of the authentication core. */
  datatype AuthError = EmailConflict | InvalidCredentials | Unauthenticated

  /** The message each error is raised with. */
  function Message(e: AuthError): string {
    match e
    case EmailConflict => "Email already exists"
    case InvalidCredentials => "Invalid credentials"
    case Unauthenticated => "Unauthorized"
  }

  /** The work factor passed to the password hash on registration. */
  const SaltRounds: nat := 10

  /**
   * The foreign calls: the password hash with its work factor, its
   * comparison of a plaintext against a stored hash, and token signing.
   */
  datatype Crypto = Crypto(
    hash: (string, nat) -> string,
    compare: (string, string) -> bool,
    sign: JwtPayload -> string)

  /** The one property assumed of the hash: a password matches its own hash. */
  ghost predicate Sound(crypto: Crypto) {
    forall pw: string, cost: nat :: crypto.compare(pw, crypto.hash(pw, cost))
  }

  function Summary(u: User): UserSummary {
    UserSummary(u.id, u.email, u.name)
  }

  /** The claims issued for a user. */
  function PayloadOf(u: User): JwtPayload {
    JwtPayload(u.id, u.email)
  }

  /** The response issued to a user who has just registered or logged in. */
  function Respond(crypto: Crypto, u: User): AuthResponse {
    AuthResponse(crypto.sign(PayloadOf(u)), Summary(u))
  }

  /** Nothing a client receives depends on the stored password hash. */
  lemma ResponseHidesPassword(crypto: Crypto, u: User, otherHash: string)
    ensures Respond(crypto, u.(password := otherHash)) == Respond(crypto, u)
  {
  }

  /** The id below `n` of a user with this email, searching downwards. */
  function FindIdByEmail(users: map<Uuid, User>, email: string, n: nat): (r: Option<Uuid>)
    ensures r.Some? ==> r.value < n && r.value in users && users[r.value].email == email
    ensures r.None? ==> forall id | id in users && id < n :: users[id].email != email
  {
    if n == 0 then None
    else if n - 1 in users && users[n - 1].email == email then Some(n - 1)
    else FindIdByEmail(users, email, n - 1)
  }

  /** The users repository and the services the authentication core is built with. */
  class AuthService {
    var users: map<Uuid, User>
    /** The id the store will generate for the next saved user. */
    var nextId: Uuid
    const crypto: Crypto
    /** The plaintext each stored hash was made from; never stored. */
    ghost var secrets: map<Uuid, string>

    /**
     * Users are stored under their own ids below `nextId`, no two share an
     * email, and every stored password is the hash of some plaintext.
     */
    ghost predicate Valid()
      reads this
    {
      && Sound(crypto)
      && (forall id | id in users :: id < nextId && users[id].id == id)
      && (forall a, b | a in users && b in users && users[a].email == users[b].email :: a == b)
      && secrets.Keys == users.Keys
      && (forall id | id in users :: users[id].password == crypto.hash(secrets[id], SaltRounds))
    }

    constructor (crypto: Crypto)
      requires Sound(crypto)
      ensures Valid() && users == map[] && this.crypto == crypto
    {
      users := map[];
      nextId := 0;
      this.crypto := crypto;
      secrets := map[];
    }

    /** The stored user with this email, if any. */
    function FindByEmail(email: string): (r: Option<User>)
      reads this
      requires Valid()
      ensures r.Some? ==> r.value.id in users && users[r.value.id] == r.value && r.value.email == email
      ensures r.None? <==> forall id | id in users :: users[id].email != email
    {
      match FindIdByEmail(users, email, nextId)
      case Some(id) => Some(users[id])
      case None => None
    }

    /**
     * Stores a new user with the hash of the password, after checking that
     * the email is not taken, and issues a token for it.
     */
    method Register(email: string, password: string, name: string) returns (r: Result<AuthResponse, AuthError>)
      requires Valid()
      modifies this
      ensures Valid()
      ensures (exists id | id in old(users) :: old(users)[id].email == email) ==>
        && r == Failure(EmailConflict) && Message(r.error) == "Email already exists"
        && users == old(users) && nextId == old(nextId) && secrets == old(secrets)
      ensures (forall id | id in old(users) :: old(users)[id].email != email) ==>
        && r.Success?
        && r.value.user.id !in old(users)
        && users == old(users)[r.value.user.id := User(r.value.user.id, email, crypto.hash(password, SaltRounds), name)]
        && r.value == Respond(crypto, users[r.value.user.id])
        && secrets == old(secrets)[r.value.user.id := password]
      ensures r.Success? ==> ValidateUser(JwtPayload(r.value.user.id, email)) == Some(users[r.value.user.id])
      ensures r.Success? ==> Login(email, password) == r
    {
      var existing := FindByEmail(email);
      if existing.Some? {
        return Failure(EmailConflict);
      }
      var hashed := crypto.hash(password, SaltRounds);
      var user := User(nextId, email, hashed, name);
      users := users[nextId := user];
      secrets := secrets[nextId := password];
      nextId := nextId + 1;
      r := Success(Respond(crypto, user));
      LoginWithSecret(user.id);
    }

    /**
     * Issues a token for the user with this email when the password matches
     * the stored hash; an unknown email and a wrong password give the same error.
     */
    function Login(email: string, password: string): (r: Result<AuthResponse, AuthError>)
      reads this
      requires Valid()
      ensures r.Failure? ==> r.error == InvalidCredentials && Message(r.error) == "Invalid credentials"
      ensures r.Success? <==>
        exists id | id in users :: users[id].email == email && crypto.compare(password, users[id].password)
      ensures r.Success? ==>
        exists id | id in users :: users[id].email == email && r.value == Respond(crypto, users[id])
    {
      match FindByEmail(email)
      case None => Failure(InvalidCredentials)
      case Some(user) =>
        if !crypto.compare(password, user.password) then Failure(InvalidCredentials)
        else Success(Respond(crypto, user))
    }

    /** Logging in with the password a user registered with succeeds, for that user. */
    lemma LoginWithSecret(id: Uuid)
      requires Valid() && id in users
      ensures Login(users[id].email, secrets[id]) == Success(Respond(crypto, users[id]))
    {
      var u := users[id];
      assert crypto.compare(secrets[id], crypto.hash(secrets[id], SaltRounds));
      assert FindByEmail(u.email) == Some(u);
    }

    /** A password the hash comparison rejects never logs in, whoever it is tried for. */
    lemma WrongPasswordIsRejected(email: string, password: string)
      requires Valid()
      requires forall id | id in users && users[id].email == email :: !crypto.compare(password, users[id].password)
      ensures Login(email, password) == Failure(InvalidCredentials)
    {
    }

    /** The stored user whose id is the token's subject, if there still is one. */
    function ValidateUser(payload: JwtPayload): (r: Option<User>)
      reads this
      requires Valid()
      ensures r.Some? ==> r.value.id == payload.sub && r.value.id in users && users[r.value.id] == r.value
      ensures r.None? <==> forall id | id in users :: users[id].id != payload.sub
    {
      if payload.sub in users then Some(users[payload.sub]) else None
    }

    /** The token strategy's check: a subject with no stored user is unauthenticated. */
    function AuthenticatePayload(payload: JwtPayload): (r: Result<User, AuthError>)
      reads this
      requires Valid()
      ensures r.Failure? ==> r.error == Unauthenticated && Message(r.error) == "Unauthorized"
      ensures r.Failure? ==> forall id | id in users :: users[id].id != payload.sub
      ensures r.Success? ==> r.value.id == payload.sub && r.value.id in users && users[r.value.id] == r.value
    {
      match ValidateUser(payload)
      case Some(u) => Success(u)
      case None => Failure(Unauthenticated)
    }
  }
}
