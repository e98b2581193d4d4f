/** The user directory and its authorization engine:
    `UserServiceImplementation` over the user table, plus the
    `UserDetailsServiceImplementation` lookup the request filter uses.

    Every guarded operation first resolves the requester from the security
    context, then runs a fixed chain of checks; only when every check
    passes does it touch the table. The check chains are pure functions
    here; `UserDirectory` holds the table and its methods perform the
    writes. */
module Users {
  import opened Common
  import opened Roles
  import opened EmailFormat
  import opened Security

  /** A row of the user table (`UserEntity`) without its timestamps. */
  datatype UserRecord = UserRecord(userId: string, username: string, email: string, passwordHash: string, role: Role)

  /** `UserRequest`: every field may be `null`. */
  datatype UserRequest = UserRequest(username: Option<string>, email: Option<string>, password: Option<string>, role: Option<string>)

  /** `UserResponse` without its timestamps. */
  datatype UserResponse = UserResponse(userId: string, username: string, role: string, email: string)

  datatype HttpStatus = BadRequest | Unauthorized | Forbidden | NotFound | Conflict

  /** A thrown `ResponseStatusException`: its status and reason. */
  datatype StatusError = StatusError(status: HttpStatus, reason: string)

  /** The BCrypt `PasswordEncoder`, left uninterpreted. A caller may pass a
      different `encode` on each call, which stands for the fresh salt. */
  datatype PasswordEncoder = PasswordEncoder(encode: string -> string, matches: (string, string) -> bool)

  /** The one law the model assumes of the encoder: a password matches its
      own encoding. */
  ghost predicate SoundEncoder(pe: PasswordEncoder) {
    forall p :: pe.matches(p, pe.encode(p))
  }

  /** No two rows share an e-mail address. */
  ghost predicate EmailsUnique(users: seq<UserRecord>) {
    forall i, j :: 0 <= i < j < |users| ==> users[i].email != users[j].email
  }

  /** `convertToResponse`. */
  function ToResponse(u: UserRecord): (r: UserResponse)
    ensures r.userId == u.userId && r.username == u.username && r.email == u.email
    ensures ParseRole(r.role) == Some(u.role)
  {
    NameParses(u.role);
    UserResponse(u.userId, u.username, Name(u.role), u.email)
  }

  /** The text Java's string concatenation gives a possibly-null string. */
  function Show(s: Option<string>): string {
    if s.None? then "null" else s.value
  }

  // ---------------------------------------------------------------------
  // Repository lookups
  // ---------------------------------------------------------------------

  /** `findByUserEmail`: exact, case-sensitive comparison; first row. */
  function FindByEmail(users: seq<UserRecord>, email: string): (r: Option<nat>)
    ensures r.Some? ==> r.value < |users| && users[r.value].email == email
    ensures r.Some? ==> forall j :: 0 <= j < r.value ==> users[j].email != email
    ensures r.None? ==> forall j :: 0 <= j < |users| ==> users[j].email != email
  {
    IndexWhere(users, (u: UserRecord) => u.email == email, 0)
  }

  /** `findByUserId`. */
  function FindByUserId(users: seq<UserRecord>, userId: string): (r: Option<nat>)
    ensures r.Some? ==> r.value < |users| && users[r.value].userId == userId
    ensures r.Some? ==> forall j :: 0 <= j < r.value ==> users[j].userId != userId
    ensures r.None? ==> forall j :: 0 <= j < |users| ==> users[j].userId != userId
  {
    IndexWhere(users, (u: UserRecord) => u.userId == userId, 0)
  }

  /** `UserDetailsServiceImplementation.loadUserByUsername`: the stored
      e-mail, hash and the single authority named after the stored role;
      `None` for the `UsernameNotFoundException`. */
  function LoadUserByUsername(users: seq<UserRecord>, email: string): (r: Option<UserDetails>)
    ensures r.None? <==> forall j :: 0 <= j < |users| ==> users[j].email != email
    ensures r.Some? ==> exists j :: (0 <= j < |users| && users[j].email == email
      && r.value == UserDetails(email, users[j].passwordHash, [Name(users[j].role)]))
  {
    match FindByEmail(users, email)
    case None => None
    case Some(i) => Some(UserDetails(users[i].email, users[i].passwordHash, [Name(users[i].role)]))
  }

  /** `getUserRole` / `findRoleByUserEmail`: the stored role's name, or
      `null` when no row has that e-mail. */
  function GetUserRole(users: seq<UserRecord>, email: string): (r: Option<string>)
    ensures r.None? <==> forall j :: 0 <= j < |users| ==> users[j].email != email
    ensures r.Some? ==> exists j :: 0 <= j < |users| && users[j].email == email && r.value == Name(users[j].role)
  {
    match FindByEmail(users, email)
    case None => None
    case Some(i) => Some(Name(users[i].role))
  }

  // ---------------------------------------------------------------------
  // Requester resolution
  // ---------------------------------------------------------------------

  /** `getRequesterEmail`: no authentication, or one not authenticated,
      is UNAUTHORIZED; otherwise the principal's user name. */
  function RequesterEmail(auth: Option<Authentication>): (r: Result<string, StatusError>)
    ensures r.Success? <==> auth.Some? && auth.value.authenticated
    ensures r.Success? ==> r.value == auth.value.principal.username
    ensures r.Failure? ==> r.error.status == Unauthorized
  {
    if auth.None? || !auth.value.authenticated then Failure(StatusError(Unauthorized, "User is not authenticated"))
    else Success(auth.value.Name())
  }

  /** `getRequesterEntity`: the row whose e-mail is the requester's, or
      UNAUTHORIZED when there is none. */
  function Requester(auth: Option<Authentication>, users: seq<UserRecord>): (r: Result<UserRecord, StatusError>)
    ensures r.Failure? ==> r.error.status == Unauthorized
    ensures r.Success? <==> (auth.Some? && auth.value.authenticated
      && exists j :: 0 <= j < |users| && users[j].email == auth.value.principal.username)
    ensures r.Success? ==> r.value in users && r.value.email == auth.value.principal.username
  {
    match RequesterEmail(auth)
    case Failure(e) => Failure(e)
    case Success(email) =>
      match FindByEmail(users, email)
      case None => Failure(StatusError(Unauthorized, "User not found in database"))
      case Some(i) => Success(users[i])
  }

  // ---------------------------------------------------------------------
  // Permission guards (the role hierarchy)
  // ---------------------------------------------------------------------

  /** The authorization block of `createUser`: FORBIDDEN exactly when the
      requester does not strictly outrank the role to be created. */
  function CreateGuard(requester: Role, target: Role): (r: Option<StatusError>)
    ensures r.None? <==> Outranks(requester, target)
    ensures r.Some? ==> r.value.status == Forbidden
  {
    if target == Root then Some(StatusError(Forbidden, "Cannot create another root user"))
    else if target == Admin && requester != Root then Some(StatusError(Forbidden, "Only root user can create admins"))
    else if target == User && requester == User then Some(StatusError(Forbidden, "Regular users cannot create other users"))
    else None
  }

  /** The permission block of `deleteUser`: FORBIDDEN exactly when the
      requester does not strictly outrank the target. */
  function DeleteGuard(requester: Role, target: Role): (r: Option<StatusError>)
    ensures r.None? <==> Outranks(requester, target)
    ensures r.Some? ==> r.value.status == Forbidden
  {
    if target == Root then Some(StatusError(Forbidden, "Cannot delete root user"))
    else if target == Admin && requester != Root then Some(StatusError(Forbidden, "Only root can delete admins"))
    else if requester == Root || (requester == Admin && target == User) then None
    else Some(StatusError(Forbidden, "Not authorized to delete this user"))
  }

  /** The permission block of `updateUser`: FORBIDDEN exactly when the
      requester does not strictly outrank the target. */
  function ModifyGuard(requester: Role, target: Role): (r: Option<StatusError>)
    ensures r.None? <==> Outranks(requester, target)
    ensures r.Some? ==> r.value.status == Forbidden
  {
    if target == Root then Some(StatusError(Forbidden, "Cannot modify root user"))
    else if target == Admin && requester != Root then Some(StatusError(Forbidden, "Only root can modify admins"))
    else if target == User && requester == User then Some(StatusError(Forbidden, "Regular users cannot modify other users"))
    else None
  }

  /** The role-change block of `updateUser`. A change is attempted only for
      a non-empty literal that differs, ignoring case, from the current
      role's name; then a non-ROOT requester is FORBIDDEN (before the literal
      is validated), an invalid literal is BAD_REQUEST and ROOT is
      FORBIDDEN. `Success(None)` means the role stays. */
  function RoleChange(requester: Role, current: Role, requested: Option<string>): (r: Result<Option<Role>, StatusError>)
    ensures var attempted := !NullOrEmpty(requested) && !EqualsIgnoreCase(requested.value, Name(current));
      && (!attempted <==> r == Success(None))
      && (attempted && requester != Root ==> r.Failure? && r.error.status == Forbidden)
      && (attempted && requester == Root && !IsValidRole(requested) ==> r.Failure? && r.error.status == BadRequest)
    ensures var attempted := !NullOrEmpty(requested) && !EqualsIgnoreCase(requested.value, Name(current));
      && (attempted && requester == Root && IsValidRole(requested) && ParseRole(requested.value) == Some(Root) ==>
            r.Failure? && r.error.status == Forbidden)
      && (attempted && requester == Root && IsValidRole(requested) && ParseRole(requested.value) != Some(Root) ==>
            r == Success(ParseRole(requested.value)))
    ensures r.Success? && r.value.Some? ==>
      requester == Root && r.value.value != Root && r.value.value != current
      && ParseRole(requested.value) == r.value
  {
    if !NullOrEmpty(requested) && !EqualsIgnoreCase(requested.value, Name(current)) then
      if requester != Root then Failure(StatusError(Forbidden, "Only root can change user roles"))
      else if !IsValidRole(requested) then Failure(StatusError(BadRequest, "Invalid role: " + requested.value))
      else
        var newRole := ParseRole(requested.value).value;
        if newRole == Root then Failure(StatusError(Forbidden, "Cannot promote user to root"))
        else
          UpperOfName(current);
          Success(Some(newRole))
    else Success(None)
  }

  // ---------------------------------------------------------------------
  // The check chains of the guarded operations
  // ---------------------------------------------------------------------

  /** The input validation of `createUser`, in source order; on success
      the parsed role. */
  function ValidateNewUser(users: seq<UserRecord>, req: UserRequest): (r: Result<Role, StatusError>)
    ensures r.Success? <==>
      && !NullOrEmpty(req.email) && IsEmailFormat(req.email.value)
      && (forall j :: 0 <= j < |users| ==> users[j].email != req.email.value)
      && !NullOrEmpty(req.username) && !NullOrEmpty(req.password) && IsValidRole(req.role)
    ensures r.Success? ==> ParseRole(req.role.value) == Some(r.value)
    ensures r.Failure? ==> r.error.status in {BadRequest, Conflict}
    ensures r.Failure? && r.error.status == Conflict <==>
      !NullOrEmpty(req.email) && IsEmailFormat(req.email.value) && FindByEmail(users, req.email.value).Some?
  {
    if NullOrEmpty(req.email) then Failure(StatusError(BadRequest, "User email cannot be empty"))
    else if !IsEmailFormat(req.email.value) then Failure(StatusError(BadRequest, "Invalid email format"))
    else if FindByEmail(users, req.email.value).Some? then
      Failure(StatusError(Conflict, "User already exists with email: " + req.email.value))
    else if NullOrEmpty(req.username) then Failure(StatusError(BadRequest, "Username cannot be empty"))
    else if NullOrEmpty(req.password) then Failure(StatusError(BadRequest, "Password cannot be empty"))
    else if !IsValidRole(req.role) then Failure(StatusError(BadRequest, "Invalid role: " + Show(req.role)))
    else Success(ParseRole(req.role.value).value)
  }

  /** Every check of `createUser`: requester, validation, authorization.
      On success, the role of the account to create. */
  function CheckCreate(auth: Option<Authentication>, users: seq<UserRecord>, req: UserRequest): (r: Result<Role, StatusError>)
    ensures Requester(auth, users).Failure? ==> r == Failure(Requester(auth, users).error)
    ensures r.Success? <==> (Requester(auth, users).Success? && ValidateNewUser(users, req).Success?
      && Outranks(Requester(auth, users).value.role, ValidateNewUser(users, req).value))
    ensures r.Success? ==> r.value == ValidateNewUser(users, req).value
    ensures Requester(auth, users).Success? && ValidateNewUser(users, req).Failure? ==>
      r == Failure(ValidateNewUser(users, req).error)
    ensures (Requester(auth, users).Success? && ValidateNewUser(users, req).Success?
             && !Outranks(Requester(auth, users).value.role, ValidateNewUser(users, req).value)) ==>
      r.Failure? && r.error.status == Forbidden
  {
    match Requester(auth, users)
    case Failure(e) => Failure(e)
    case Success(requester) =>
      match ValidateNewUser(users, req)
      case Failure(e) => Failure(e)
      case Success(target) =>
        match CreateGuard(requester.role, target)
        case Some(e) => Failure(e)
        case None => Success(target)
  }

  /** The row `convertToEntity` builds for a request that passed the checks. */
  function NewUser(req: UserRequest, userId: string, pe: PasswordEncoder, role: Role): (u: UserRecord)
    requires req.username.Some? && req.email.Some? && req.password.Some?
    ensures u.userId == userId && u.username == req.username.value && u.email == req.email.value && u.role == role
    ensures u.passwordHash == pe.encode(req.password.value)
    ensures SoundEncoder(pe) ==> pe.matches(req.password.value, u.passwordHash)
  {
    UserRecord(userId, req.username.value, req.email.value, pe.encode(req.password.value), role)
  }

  /** Every check of `deleteUser`; on success the index of the target row. */
  function CheckDelete(auth: Option<Authentication>, users: seq<UserRecord>, userId: string): (r: Result<nat, StatusError>)
    ensures Requester(auth, users).Failure? ==> r == Failure(Requester(auth, users).error)
    ensures Requester(auth, users).Success? && FindByUserId(users, userId).None? ==>
      r.Failure? && r.error.status == NotFound
    ensures r.Success? <==> (Requester(auth, users).Success? && FindByUserId(users, userId).Some?
      && Outranks(Requester(auth, users).value.role, users[FindByUserId(users, userId).value].role))
    ensures r.Success? ==> r == Success(FindByUserId(users, userId).value)
    ensures (Requester(auth, users).Success? && FindByUserId(users, userId).Some?
             && !Outranks(Requester(auth, users).value.role, users[FindByUserId(users, userId).value].role)) ==>
      r.Failure? && r.error.status == Forbidden
  {
    match Requester(auth, users)
    case Failure(e) => Failure(e)
    case Success(requester) =>
      match FindByUserId(users, userId)
      case None => Failure(StatusError(NotFound, "User not found with ID: " + userId))
      case Some(i) =>
        match DeleteGuard(requester.role, users[i].role)
        case Some(e) => Failure(e)
        case None => Success(i)
  }

  /** Every check of `updateUser`; on success the index of the target row
      and the new role, if the role changes. */
  function CheckUpdate(auth: Option<Authentication>, users: seq<UserRecord>, email: string, req: UserRequest): (r: Result<(nat, Option<Role>), StatusError>)
    ensures Requester(auth, users).Failure? ==> r == Failure(Requester(auth, users).error)
    ensures Requester(auth, users).Success? && FindByEmail(users, email).None? ==>
      r.Failure? && r.error.status == NotFound
    ensures r.Success? ==> (Requester(auth, users).Success? && FindByEmail(users, email) == Some(r.value.0)
      && Outranks(Requester(auth, users).value.role, users[r.value.0].role)
      && RoleChange(Requester(auth, users).value.role, users[r.value.0].role, req.role) == Success(r.value.1))
    ensures Requester(auth, users).Success? && FindByEmail(users, email).Some? ==>
      var requester := Requester(auth, users).value.role;
      var i := FindByEmail(users, email).value;
      && (!Outranks(requester, users[i].role) ==> r.Failure? && r.error.status == Forbidden)
      && (Outranks(requester, users[i].role) && RoleChange(requester, users[i].role, req.role).Failure? ==>
            r == Failure(RoleChange(requester, users[i].role, req.role).error))
      && (Outranks(requester, users[i].role) && RoleChange(requester, users[i].role, req.role).Success? ==>
            r == Success((i, RoleChange(requester, users[i].role, req.role).value)))
  {
    match Requester(auth, users)
    case Failure(e) => Failure(e)
    case Success(requester) =>
      match FindByEmail(users, email)
      case None => Failure(StatusError(NotFound, "User not found with email: " + email))
      case Some(i) =>
        match ModifyGuard(requester.role, users[i].role)
        case Some(e) => Failure(e)
        case None =>
          match RoleChange(requester.role, users[i].role, req.role)
          case Failure(e) => Failure(e)
          case Success(newRole) => Success((i, newRole))
  }

  /** The row after `updateUser`'s setters: a changed role, then user name
      and e-mail only when non-empty, and the password re-encoded only
      when non-empty and not matching the stored hash. */
  function UpdatedRecord(t: UserRecord, newRole: Option<Role>, req: UserRequest, pe: PasswordEncoder): (u: UserRecord)
    ensures u.userId == t.userId
    ensures u.role == if newRole.Some? then newRole.value else t.role
    ensures u.username == if NullOrEmpty(req.username) then t.username else req.username.value
    ensures u.email == if NullOrEmpty(req.email) then t.email else req.email.value
    ensures NullOrEmpty(req.password) ==> u.passwordHash == t.passwordHash
    ensures !NullOrEmpty(req.password) && pe.matches(req.password.value, t.passwordHash) ==> u.passwordHash == t.passwordHash
    ensures !NullOrEmpty(req.password) && !pe.matches(req.password.value, t.passwordHash) ==>
      u.passwordHash == pe.encode(req.password.value)
    ensures SoundEncoder(pe) && !NullOrEmpty(req.password) ==> pe.matches(req.password.value, u.passwordHash)
  {
    var withRole := if newRole.Some? then t.(role := newRole.value) else t;
    var withName :=
      if !NullOrEmpty(req.username) && req.username.value != withRole.username
      then withRole.(username := req.username.value) else withRole;
    var withPassword :=
      if !NullOrEmpty(req.password) && !pe.matches(req.password.value, withName.passwordHash)
      then withName.(passwordHash := pe.encode(req.password.value)) else withName;
    if !NullOrEmpty(req.email) && req.email.value != withPassword.email
    then withPassword.(email := req.email.value) else withPassword
  }

  /** The input validation of `createInitialSuperUser`: that of
      `createUser` without the duplicate check and without a role. */
  function ValidateSuperUser(req: UserRequest): (r: Option<StatusError>)
    ensures r.None? <==> (!NullOrEmpty(req.email) && IsEmailFormat(req.email.value)
      && !NullOrEmpty(req.username) && !NullOrEmpty(req.password))
    ensures r.Some? ==> r.value.status == BadRequest
  {
    if NullOrEmpty(req.email) then Some(StatusError(BadRequest, "User email cannot be empty"))
    else if !IsEmailFormat(req.email.value) then Some(StatusError(BadRequest, "Invalid email format"))
    else if NullOrEmpty(req.username) then Some(StatusError(BadRequest, "Username cannot be empty"))
    else if NullOrEmpty(req.password) then Some(StatusError(BadRequest, "Password cannot be empty"))
    else None
  }

  // ---------------------------------------------------------------------
  // Read-only operations
  // ---------------------------------------------------------------------

  /** `getAllUsers`: FORBIDDEN for a USER requester, otherwise every row
      in repository order. */
  function GetAllUsers(auth: Option<Authentication>, users: seq<UserRecord>): (r: Result<seq<UserResponse>, StatusError>)
    ensures Requester(auth, users).Failure? ==> r == Failure(Requester(auth, users).error)
    ensures Requester(auth, users).Success? ==>
      (r.Failure? <==> Requester(auth, users).value.role == User)
    ensures r.Failure? ==> r.error.status in {Unauthorized, Forbidden}
    ensures Requester(auth, users).Success? && r.Failure? ==> r.error.status == Forbidden
    ensures r.Success? ==> |r.value| == |users| && forall i :: 0 <= i < |users| ==> r.value[i] == ToResponse(users[i])
  {
    match Requester(auth, users)
    case Failure(e) => Failure(e)
    case Success(requester) =>
      if requester.role == User then Failure(StatusError(Forbidden, "Regular users cannot query user list"))
      else Success(seq(|users|, i requires 0 <= i < |users| => ToResponse(users[i])))
  }

  /** `getUserByEmail`: FORBIDDEN for a USER requester, otherwise the row
      with exactly that e-mail, if any. */
  function GetUserByEmail(auth: Option<Authentication>, users: seq<UserRecord>, email: string): (r: Result<Option<UserResponse>, StatusError>)
    ensures Requester(auth, users).Failure? ==> r == Failure(Requester(auth, users).error)
    ensures Requester(auth, users).Success? ==>
      (r.Failure? <==> Requester(auth, users).value.role == User)
    ensures r.Failure? ==> r.error.status in {Unauthorized, Forbidden}
    ensures Requester(auth, users).Success? && r.Failure? ==> r.error.status == Forbidden
    ensures r.Success? && r.value.None? ==> forall j :: 0 <= j < |users| ==> users[j].email != email
    ensures r.Success? && r.value.Some? ==>
      exists j :: 0 <= j < |users| && users[j].email == email && r.value.value == ToResponse(users[j])
  {
    match Requester(auth, users)
    case Failure(e) => Failure(e)
    case Success(requester) =>
      if requester.role == User then Failure(StatusError(Forbidden, "Regular users cannot query other users"))
      else
        match FindByEmail(users, email)
        case None => Success(None)
        case Some(i) => Success(Some(ToResponse(users[i])))
  }

  // ---------------------------------------------------------------------
  // The user table and the operations that write it
  // ---------------------------------------------------------------------

  /** The user table, in repository order. */
  class UserDirectory {
    var users: seq<UserRecord>

    constructor (initial: seq<UserRecord>)
      ensures users == initial
    {
      users := initial;
    }

    /** `createUser`: on success exactly one row is appended; on every
        failure the table is unchanged. `newUserId` is the random UUID. */
    method CreateUser(auth: Option<Authentication>, req: UserRequest, newUserId: string, pe: PasswordEncoder)
      returns (r: Result<UserResponse, StatusError>)
      modifies this
      ensures match CheckCreate(auth, old(users), req)
        case Failure(e) => r == Failure(e) && users == old(users)
        case Success(role) =>
          var row := NewUser(req, newUserId, pe, role);
          users == old(users) + [row] && r == Success(ToResponse(row))
    {
      var requester := Requester(auth, users);
      if requester.Failure? {
        return Failure(requester.error);
      }
      var valid := ValidateNewUser(users, req);
      if valid.Failure? {
        return Failure(valid.error);
      }
      var denied := CreateGuard(requester.value.role, valid.value);
      if denied.Some? {
        return Failure(denied.value);
      }
      var row := NewUser(req, newUserId, pe, valid.value);
      users := users + [row];
      r := Success(ToResponse(row));
    }

    /** `deleteUser`: on success exactly the target row leaves the table;
        on every failure the table is unchanged. */
    method DeleteUser(auth: Option<Authentication>, userId: string) returns (r: Result<(), StatusError>)
      modifies this
      ensures match CheckDelete(auth, old(users), userId)
        case Failure(e) => r == Failure(e) && users == old(users)
        case Success(i) => r == Success(()) && i < |old(users)| && users == RemoveAt(old(users), i)
    {
      var requester := Requester(auth, users);
      if requester.Failure? {
        return Failure(requester.error);
      }
      var target := FindByUserId(users, userId);
      if target.None? {
        return Failure(StatusError(NotFound, "User not found with ID: " + userId));
      }
      var denied := DeleteGuard(requester.value.role, users[target.value].role);
      if denied.Some? {
        return Failure(denied.value);
      }
      users := RemoveAt(users, target.value);
      r := Success(());
    }

    /** `updateUser`: the target row is changed field by field and written
        back in place; on every failure the table is unchanged. */
    method UpdateUser(auth: Option<Authentication>, email: string, req: UserRequest, pe: PasswordEncoder)
      returns (r: Result<UserResponse, StatusError>)
      modifies this
      ensures match CheckUpdate(auth, old(users), email, req)
        case Failure(e) => r == Failure(e) && users == old(users)
        case Success(d) =>
          d.0 < |old(users)| &&
          var row := UpdatedRecord(old(users)[d.0], d.1, req, pe);
          users == old(users)[d.0 := row] && r == Success(ToResponse(row))
    {
      var requester := Requester(auth, users);
      if requester.Failure? {
        return Failure(requester.error);
      }
      var found := FindByEmail(users, email);
      if found.None? {
        return Failure(StatusError(NotFound, "User not found with email: " + email));
      }
      var i := found.value;
      var target := users[i];
      var denied := ModifyGuard(requester.value.role, target.role);
      if denied.Some? {
        return Failure(denied.value);
      }
      var change := RoleChange(requester.value.role, target.role, req.role);
      if change.Failure? {
        return Failure(change.error);
      }
      if change.value.Some? {
        target := target.(role := change.value.value);
      }
      if !NullOrEmpty(req.username) && req.username.value != target.username {
        target := target.(username := req.username.value);
      }
      if !NullOrEmpty(req.password) && !pe.matches(req.password.value, target.passwordHash) {
        target := target.(passwordHash := pe.encode(req.password.value));
      }
      if !NullOrEmpty(req.email) && req.email.value != target.email {
        target := target.(email := req.email.value);
      }
      users := users[i := target];
      r := Success(ToResponse(target));
    }

    /** `createInitialSuperUser`: no requester and no duplicate check; on
        success a ROOT row is appended whatever the table holds. */
    method CreateInitialSuperUser(req: UserRequest, newUserId: string, pe: PasswordEncoder)
      returns (r: Result<UserResponse, StatusError>)
      modifies this
      ensures match ValidateSuperUser(req)
        case Some(e) => r == Failure(e) && users == old(users)
        case None =>
          var row := NewUser(req, newUserId, pe, Root);
          users == old(users) + [row] && r == Success(ToResponse(row))
    {
      var invalid := ValidateSuperUser(req);
      if invalid.Some? {
        return Failure(invalid.value);
      }
      var row := NewUser(req, newUserId, pe, Root);
      users := users + [row];
      r := Success(ToResponse(row));
    }
  }

  // ---------------------------------------------------------------------
  // Properties of the operations
  // ---------------------------------------------------------------------

  /** A USER requester never gets past the checks of a create, a delete or
      an update, and no ROOT row is ever created, deleted or modified by
      them. */
  lemma UserRequesterMutatesNothing(auth: Option<Authentication>, users: seq<UserRecord>, req: UserRequest, userId: string, email: string)
    requires Requester(auth, users).Success? && Requester(auth, users).value.role == User
    ensures CheckCreate(auth, users, req).Failure?
    ensures CheckDelete(auth, users, userId).Failure?
    ensures CheckUpdate(auth, users, email, req).Failure?
  {
  }

  /** ROOT is never created through `createUser`, and a ROOT row is never
      the target of a successful delete or update, even by itself. */
  lemma RootUntouchable(auth: Option<Authentication>, users: seq<UserRecord>, req: UserRequest, userId: string, email: string, pe: PasswordEncoder)
    ensures CheckCreate(auth, users, req).Success? ==> CheckCreate(auth, users, req).value != Root
    ensures CheckDelete(auth, users, userId).Success? ==> users[CheckDelete(auth, users, userId).value].role != Root
    ensures CheckUpdate(auth, users, email, req).Success? ==>
      var d := CheckUpdate(auth, users, email, req).value;
      users[d.0].role != Root && UpdatedRecord(users[d.0], d.1, req, pe).role != Root
  {
  }

  /** A successful create keeps e-mails unique, because the duplicate
      check compares against every row. */
  lemma CreateKeepsEmailsUnique(auth: Option<Authentication>, users: seq<UserRecord>, req: UserRequest, newUserId: string, pe: PasswordEncoder)
    requires EmailsUnique(users)
    requires CheckCreate(auth, users, req).Success?
    ensures EmailsUnique(users + [NewUser(req, newUserId, pe, CheckCreate(auth, users, req).value)])
  {
    var row := NewUser(req, newUserId, pe, CheckCreate(auth, users, req).value);
    var after := users + [row];
    forall i, j | 0 <= i < j < |after|
      ensures after[i].email != after[j].email
    {
      if j == |users| {
        assert after[i] == users[i];
      } else {
        assert after[i] == users[i] && after[j] == users[j];
      }
    }
  }

  /** After a successful create, the stored hash matches the requested
      password. */
  lemma CreatedPasswordMatches(auth: Option<Authentication>, users: seq<UserRecord>, req: UserRequest, newUserId: string, pe: PasswordEncoder)
    requires SoundEncoder(pe)
    requires CheckCreate(auth, users, req).Success?
    ensures pe.matches(req.password.value, NewUser(req, newUserId, pe, CheckCreate(auth, users, req).value).passwordHash)
  {
  }

  /** A successful delete keeps e-mails unique and removes exactly the
      target row, leaving every other row in place. */
  lemma DeleteRemovesOnlyTarget(auth: Option<Authentication>, users: seq<UserRecord>, userId: string)
    requires CheckDelete(auth, users, userId).Success?
    ensures var i := CheckDelete(auth, users, userId).value;
      && users[i].userId == userId
      && multiset(RemoveAt(users, i)) + multiset{users[i]} == multiset(users)
      && (EmailsUnique(users) ==> EmailsUnique(RemoveAt(users, i)))
  {
    var i := CheckDelete(auth, users, userId).value;
    var rest := RemoveAt(users, i);
    if EmailsUnique(users) {
      forall a, b | 0 <= a < b < |rest|
        ensures rest[a].email != rest[b].email
      {
        var a' := if a < i then a else a + 1;
        var b' := if b < i then b else b + 1;
        assert rest[a] == users[a'] && rest[b] == users[b'];
      }
    }
  }

  /** The new e-mail of an update is checked neither for format nor for
      uniqueness: ROOT can rename one USER's address to another USER's. */
  lemma UpdateCanDuplicateEmail()
    ensures var root := UserRecord("r", "root", "root@x", "h", Root);
      var users := [root, UserRecord("a", "a", "a@x", "h", User), UserRecord("b", "b", "b@x", "h", User)];
      var auth := Some(Authentication(UserDetails("root@x", "h", [Name(Root)]), true));
      var req := UserRequest(None, Some("b@x"), None, None);
      var pe := PasswordEncoder(p => p, (p, h) => p == h);
      && EmailsUnique(users)
      && CheckUpdate(auth, users, "a@x", req) == Success((1, None))
      && !EmailsUnique(users[1 := UpdatedRecord(users[1], None, req, pe)])
  {
    var root := UserRecord("r", "root", "root@x", "h", Root);
    var users := [root, UserRecord("a", "a", "a@x", "h", User), UserRecord("b", "b", "b@x", "h", User)];
    var auth := Some(Authentication(UserDetails("root@x", "h", [Name(Root)]), true));
    var req := UserRequest(None, Some("b@x"), None, None);
    var pe := PasswordEncoder(p => p, (p, h) => p == h);
    assert FindByEmail(users, "root@x") == Some(0);
    assert Requester(auth, users) == Success(root);
    var found := FindByEmail(users, "a@x");
    assert users[1].email == "a@x" && users[0].email != "a@x";
    assert found == Some(1);
    assert RoleChange(Root, User, None) == Success(None);
    var updated := users[1 := UpdatedRecord(users[1], None, req, pe)];
    assert updated[1].email == "b@x" && updated[2].email == "b@x";
  }
}
