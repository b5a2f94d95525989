/**
 * src/lambda/auth.ts: registration and login over the users table. The table
 * is a map from `userId` to the stored user; the e-mail index is a lookup on
 * it. bcrypt and `jwt.sign` are opaque functions passed in with the table.
 */
module Auth {
  import opened Wrappers
  import opened JsString
  import opened Types
  import opened RegisterPayload
  import opened LoginPayload

  const MsgUsersTableUnset := "Server configuration error: USERS_TABLE is not set"
  const MsgLoginConfigUnset := "Server configuration error: USERS_TABLE or JWT_SECRET not set"
  const MsgEmailTaken := "A user with this email already exists"
  const MsgRegisterFailed := "An unexpected error occurred while registering the user"
  const MsgInvalidCredentials := "Invalid email or password"

  /** The bcrypt cost factor registration hashes with. */
  const BcryptCost := 10
  /** The `expiresIn` of every issued token. */
  const TokenLifetime := "1h"

  /** The claims `jwt.sign` is given: `{ sub, email, role }`. */
  datatype TokenPayload = TokenPayload(sub: string, email: string, role: string)

  /**
   * The foreign primitives: `bcrypt.hash(password, cost)` with the salt it
   * draws, `bcrypt.compare(password, hash)` and `jwt.sign(payload, secret, { expiresIn })`.
   */
  datatype Crypto = Crypto(
    hash: (string, int, string) -> string,
    compare: (string, string) -> bool,
    sign: (TokenPayload, string, string) -> string)

  /** The e-mail index finds a user: `Count > 0`. */
  predicate EmailTaken(users: map<string, UserItem>, email: string) {
    exists id :: id in users && users[id].email == email
  }

  /** The one user the e-mail index returns. */
  ghost function AccountFor(users: map<string, UserItem>, email: string): (u: UserItem)
    requires EmailTaken(users, email)
    ensures u in users.Values && u.email == email
  {
    var id :| id in users && users[id].email == email; users[id]
  }

  /** With e-mails unique across the table, the e-mail index returns exactly the account stored under that e-mail. */
  lemma AccountForUnique(users: map<string, UserItem>, id: string)
    requires forall a, b :: a in users && b in users && users[a].email == users[b].email ==> a == b
    requires id in users
    ensures EmailTaken(users, users[id].email)
    ensures AccountFor(users, users[id].email) == users[id]
  {
    var u := AccountFor(users, users[id].email);
    var other :| other in users && users[other] == u;
  }

  /** The stored record of a new account: always role AUTHOR, created and updated at `now`. */
  function NewAccount(userId: string, reg: Registration, passwordHash: string, now: string): (u: UserItem)
    ensures u.userId == userId && u.email == reg.email && u.name == reg.name
    ensures u.passwordHash == passwordHash && u.role == Author
    ensures u.createdAt == u.updatedAt == now
  {
    UserItem(userId, reg.email, passwordHash, reg.name, Author, now, now)
  }

  /** The public profile login returns: everything but the hash and the timestamps. */
  function Profile(u: UserItem): (p: PublicUser)
    ensures p.userId == u.userId && p.email == u.email && p.name == u.name && p.role == u.role
  {
    PublicUser(u.userId, u.email, u.name, u.role)
  }

  /** The users table with its configuration and the crypto primitives. */
  class UsersTable {
    const config: Config
    const crypto: Crypto
    var users: map<string, UserItem>

    /** Every user is stored under its own id, and no two users share an e-mail. */
    ghost predicate Valid()
      reads this
    {
      && (forall id :: id in users ==> users[id].userId == id)
      && (forall a, b :: a in users && b in users && users[a].email == users[b].email ==> a == b)
    }

    constructor (config: Config, crypto: Crypto, users: map<string, UserItem>)
      requires forall id :: id in users ==> users[id].userId == id
      requires forall a, b :: a in users && b in users && users[a].email == users[b].email ==> a == b
      ensures Valid()
      ensures this.config == config && this.crypto == crypto && this.users == users
    {
      this.config := config;
      this.crypto := crypto;
      this.users := users;
    }

    /**
     * `registerUser(event)`; `now`, `newUserId` and `salt` stand for the
     * clock, `randomUUID()` and bcrypt's random salt.
     */
    method RegisterUser(event: HttpEvent, now: string, newUserId: string, salt: string) returns (resp: Response)
      requires Valid()
      modifies this
      ensures Valid()
      ensures !IsTruthy(config.usersTable) ==> resp == Fail(500, MsgUsersTableUnset)
      ensures IsTruthy(config.usersTable) && ValidateRegisterPayload(event.body).Invalid? ==>
                resp == Fail(400, ValidateRegisterPayload(event.body).message)
      ensures resp.status == 409 <==>
                && IsTruthy(config.usersTable) && ValidateRegisterPayload(event.body).Valid?
                && EmailTaken(old(users), ValidateRegisterPayload(event.body).value.email)
      ensures resp.status == 409 ==> resp == Fail(409, MsgEmailTaken)
      ensures resp.status == 201 <==>
                && IsTruthy(config.usersTable) && ValidateRegisterPayload(event.body).Valid?
                && !EmailTaken(old(users), ValidateRegisterPayload(event.body).value.email)
                && newUserId !in old(users)
      ensures resp.status == 201 ==>
                var reg := ValidateRegisterPayload(event.body).value;
                && users == old(users)[newUserId := NewAccount(newUserId, reg, crypto.hash(reg.password, BcryptCost, salt), now)]
                && resp.body == RegisteredUser(newUserId, reg.email, reg.name, Author, now)
      ensures resp.status != 201 ==> users == old(users)
      ensures resp.status == 500 <==>
                || !IsTruthy(config.usersTable)
                || (&& ValidateRegisterPayload(event.body).Valid?
                    && !EmailTaken(old(users), ValidateRegisterPayload(event.body).value.email)
                    && newUserId in old(users))
      ensures resp.status in {201, 400, 409, 500}
    {
      if !IsTruthy(config.usersTable) {
        return Fail(500, MsgUsersTableUnset);
      }
      var validation := ValidateRegisterPayload(event.body);
      if validation.Invalid? {
        return Fail(400, validation.message);
      }
      var reg := validation.value;
      if EmailTaken(users, reg.email) {
        return Fail(409, MsgEmailTaken);
      }
      var passwordHash := crypto.hash(reg.password, BcryptCost, salt);
      var account := NewAccount(newUserId, reg, passwordHash, now);
      if newUserId in users {
        // the conditional write `attribute_not_exists(userId)` fails
        return Fail(500, MsgRegisterFailed);
      }
      users := users[newUserId := account];
      resp := Response(201, RegisteredUser(newUserId, reg.email, reg.name, Author, now));
    }

    /** `loginUser(event)`: looks the e-mail up and never changes the table. */
    method LoginUser(event: HttpEvent) returns (resp: Response)
      requires Valid()
      ensures !IsTruthy(config.usersTable) || !IsTruthy(config.jwtSecret) ==> resp == Fail(500, MsgLoginConfigUnset)
      ensures resp.status == 500 <==> !IsTruthy(config.usersTable) || !IsTruthy(config.jwtSecret)
      ensures IsTruthy(config.usersTable) && IsTruthy(config.jwtSecret) && ValidateLoginPayload(event.body).LoginInvalid? ==>
                resp == Fail(400, ValidateLoginPayload(event.body).message)
      ensures resp.status == 400 <==>
                IsTruthy(config.usersTable) && IsTruthy(config.jwtSecret) && ValidateLoginPayload(event.body).LoginInvalid?
      ensures resp.status == 401 ==> resp == Fail(401, MsgInvalidCredentials)
      ensures resp.status == 401 <==>
                && IsTruthy(config.usersTable) && IsTruthy(config.jwtSecret)
                && var login := ValidateLoginPayload(event.body);
                   && login.LoginValid?
                   && (!EmailTaken(users, login.email)
                       || !crypto.compare(login.password, AccountFor(users, login.email).passwordHash))
      ensures resp.status == 200 ==>
                var login := ValidateLoginPayload(event.body);
                && login.LoginValid? && EmailTaken(users, login.email)
                && var account := AccountFor(users, login.email);
                   && crypto.compare(login.password, account.passwordHash)
                   && resp.body == Session(
                        crypto.sign(TokenPayload(account.userId, account.email, RoleName(account.role)), config.jwtSecret.value, TokenLifetime),
                        Profile(account))
      ensures resp.status in {200, 400, 401, 500}
    {
      if !IsTruthy(config.usersTable) || !IsTruthy(config.jwtSecret) {
        return Fail(500, MsgLoginConfigUnset);
      }
      var login := ValidateLoginPayload(event.body);
      if login.LoginInvalid? {
        return Fail(400, login.message);
      }
      if !EmailTaken(users, login.email) {
        return Fail(401, MsgInvalidCredentials);
      }
      var id :| id in users && users[id].email == login.email;
      var account := users[id];
      assert account == AccountFor(users, login.email);
      if !crypto.compare(login.password, account.passwordHash) {
        return Fail(401, MsgInvalidCredentials);
      }
      var token := crypto.sign(TokenPayload(account.userId, account.email, RoleName(account.role)), config.jwtSecret.value, TokenLifetime);
      resp := Response(200, Session(token, Profile(account)));
    }
  }
}
