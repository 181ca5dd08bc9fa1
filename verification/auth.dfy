/**
 * The authentication service: admin login (active admins only, recording the login
 * time), user login, and user registration with a unique e-mail. A failed login
 * returns the same null whether the e-mail is unknown or the password wrong.
 */
module Auth {
  import opened Wrappers
  import opened Tables
  import opened Crypto
  import opened Models
  import opened Schema

  const EMAIL_TAKEN: string := "User with this email already exists"

  /** An active admin with this e-mail. */
  predicate ActiveAdminWithEmail(a: Admin, email: string) {
    a.email == email && a.isActive
  }

  /** A user with this e-mail. */
  predicate UserWithEmail(u: User, email: string) {
    u.email == email
  }

  /** The answer to a successful user login or registration of user `id`. */
  function UserResponse(id: int, u: User): AuthResponseDto {
    AuthResponseDto(id, u.email, u.fullName, GenerateToken(id, u.email, ROLE_USER), ROLE_USER)
  }

  /**
   * `UserLoginAsync(dto)`: the user with the e-mail, when the password verifies
   * against the stored hash; null otherwise, the same null for an unknown e-mail and
   * for a wrong password. Users have no active flag to check.
   */
  function UserLogin(users: Table<User>, dto: LoginDto): (r: Option<AuthResponseDto>)
    requires users.Valid() && UniqueUserEmails(users)
    ensures r.Some? <==>
      exists id :: id in users.rows && users.rows[id].email == dto.email && Verify(dto.password, users.rows[id].passwordHash)
    ensures r.Some? ==> r.value.id in users.rows && r.value == UserResponse(r.value.id, users.rows[r.value.id])
    ensures r.Some? ==> r.value.email == dto.email && r.value.role == ROLE_USER && r.value.token.role == ROLE_USER
  {
    var found := FirstOrDefault(users, (u: User) => UserWithEmail(u, dto.email));
    if found.None? then None
    else
      var user := users.rows[found.value];
      if !Verify(dto.password, user.passwordHash) then None
      else Some(UserResponse(found.value, user))
  }

  /** The user `UserRegisterAsync(dto)` stores: the profile as given, the password only as its hash. */
  function RegisteredUser(dto: RegisterDto, salt: nat, now: Timestamp): User {
    User(dto.email, HashPassword(dto.password, salt), dto.fullName, dto.phoneNumber, dto.address,
         dto.city, dto.country, dto.postalCode, Some(now))
  }

  /** The stored hash verifies the registered password, and the stored record carries no other form of it. */
  lemma RegisteredPasswordVerifies(dto: RegisterDto, salt: nat, now: Timestamp)
    ensures Verify(dto.password, RegisteredUser(dto, salt, now).passwordHash)
    ensures RegisteredUser(dto, salt, now).passwordHash == HashPassword(dto.password, salt)
  {
    VerifyHash(dto.password, salt);
  }

  /** After a registration the e-mail is taken, so registering it again is refused. */
  lemma RegisterTakesEmail(users: Table<User>, dto: RegisterDto, salt: nat, now: Timestamp)
    requires users.Valid()
    ensures Any(Add(users, RegisteredUser(dto, salt, now)), (u: User) => UserWithEmail(u, dto.email))
  {
    var after := Add(users, RegisteredUser(dto, salt, now));
    assert UserWithEmail(after.rows[users.nextId], dto.email);
  }

  /** A registered user can log in with the e-mail and password they registered with, and gets the answer registration gave. */
  lemma RegisterThenLogin(users: Table<User>, dto: RegisterDto, salt: nat, now: Timestamp)
    requires users.Valid() && UniqueUserEmails(users)
    requires forall id :: id in users.rows ==> users.rows[id].email != dto.email
    ensures var after := Add(users, RegisteredUser(dto, salt, now));
      && UniqueUserEmails(after)
      && UserLogin(after, LoginDto(dto.email, dto.password)) == Some(UserResponse(users.nextId, RegisteredUser(dto, salt, now)))
  {
    var user := RegisteredUser(dto, salt, now);
    var after := Add(users, user);
    VerifyHash(dto.password, salt);
    assert after.rows[users.nextId] == user;
    assert forall id :: id in after.rows && after.rows[id].email == dto.email ==> id == users.nextId;
  }

  class AuthService {
    const context: AppDbContext

    constructor (context: AppDbContext)
      ensures this.context == context
    {
      this.context := context;
    }

    /**
     * `AdminLoginAsync(dto)`: null unless an active admin has the e-mail and the
     * password verifies; then that admin's `LastLoginAt` becomes now and the answer
     * carries an "Admin" token and the username as the full name.
     */
    method AdminLogin(dto: LoginDto, now: Timestamp) returns (r: Option<AuthResponseDto>)
      requires context.Valid()
      modifies context`admins
      ensures context.Valid()
      ensures r.Some? <==>
        exists id :: id in old(context.admins.rows) && ActiveAdminWithEmail(old(context.admins.rows)[id], dto.email)
                     && Verify(dto.password, old(context.admins.rows)[id].passwordHash)
      ensures r.None? ==> context.admins == old(context.admins)
      ensures r.Some? ==>
        var id := r.value.id;
        && id in old(context.admins.rows)
        && var admin := old(context.admins.rows)[id];
        && ActiveAdminWithEmail(admin, dto.email)
        && context.admins == Replace(old(context.admins), id, admin.(lastLoginAt := Some(now)))
        && r.value == AuthResponseDto(id, admin.email, admin.username, GenerateToken(id, admin.email, ROLE_ADMIN), ROLE_ADMIN)
    {
      var found := FirstOrDefault(context.admins, (a: Admin) => ActiveAdminWithEmail(a, dto.email));
      if found.None? {
        return None;
      }
      var id := found.value;
      var admin := context.admins.rows[id];
      if !Verify(dto.password, admin.passwordHash) {
        return None;
      }
      context.SaveAdmin(id, admin.(lastLoginAt := Some(now)));
      r := Some(AuthResponseDto(id, admin.email, admin.username, GenerateToken(id, admin.email, ROLE_ADMIN), ROLE_ADMIN));
    }

    /**
     * `UserRegisterAsync(dto)`: refused when a user already has the e-mail;
     * otherwise one user is added, holding the hash of the password.
     */
    method UserRegister(dto: RegisterDto, salt: nat, now: Timestamp) returns (r: Result<AuthResponseDto, Exception>)
      requires context.Valid()
      modifies context`users
      ensures context.Valid()
      ensures r.Failure? <==> exists id :: id in old(context.users.rows) && old(context.users.rows)[id].email == dto.email
      ensures r.Failure? ==> r.error == InvalidOperationException(EMAIL_TAKEN) && context.users == old(context.users)
      ensures r.Success? ==>
        var user := RegisteredUser(dto, salt, now);
        && context.users == Add(old(context.users), user)
        && r.value == UserResponse(old(context.users.nextId), user)
    {
      var existing := FirstOrDefault(context.users, (u: User) => UserWithEmail(u, dto.email));
      if existing.Some? {
        return Failure(InvalidOperationException(EMAIL_TAKEN));
      }
      var user := User(dto.email, HashPassword(dto.password, salt), dto.fullName, dto.phoneNumber, dto.address,
                       dto.city, dto.country, dto.postalCode, Some(now));
      var added := context.AddUser(user);
      if added.Failure? {
        return Failure(added.error);
      }
      r := Success(UserResponse(added.value, user));
    }
  }
}
