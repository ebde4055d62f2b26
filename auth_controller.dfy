/** Sign-up (registerUser) and currentUserName of the authentication controller. Sign-up rejects a
    username or an email already in use, builds the new user's role set from the requested role
    names and saves the user with the encoded password. */
module AuthController {
  import opened Domain
  import opened Store

  /** The sign-up request body; a missing "role" field is None. */
  datatype SignupRequest = SignupRequest(username: string, email: string, password: string, role: Option<set<string>>)

  /** The HTTP answers registerUser gives: a 400 with a message or a 200 with a message. */
  datatype Reply = BadRequest(message: string) | Success(message: string)

  /** The error every missing role lookup raises. */
  const RoleNotFound := RuntimeFailure("Error: Role Not Found!")

  /** The role each requested name is looked up as: "admin" and "seller" name their roles, every
      other string is looked up as the user role. */
  function LookedUp(name: string): (role: AppRole)
    ensures role == ROLE_ADMIN <==> name == "admin"
    ensures role == ROLE_SELLER <==> name == "seller"
  {
    if name == "admin" then ROLE_ADMIN else if name == "seller" then ROLE_SELLER else ROLE_USER
  }

  /** The roles table answers findByRoleName with the role of that name. */
  ghost predicate RolesKeyed(roles: map<AppRole, Role>) {
    forall n :: n in roles ==> roles[n].roleName == n
  }

  /** The role set registerUser computes: with no requested names, the user role; otherwise every
      requested name is looked up, and only "admin" adds its role. Any lookup that finds no role
      fails. */
  function RolesFor(requested: Option<set<string>>, roles: map<AppRole, Role>): (r: Result<set<Role>>)
    ensures r.Err? ==> r.error == RoleNotFound
    ensures requested.None? ==> (r.Ok? <==> ROLE_USER in roles)
    ensures requested.Some? ==> (r.Ok? <==> forall n :: n in requested.value ==> LookedUp(n) in roles)
    ensures requested.Some? && r.Ok? ==> (r.value == {} <==> "admin" !in requested.value)
    ensures requested.Some? && r.Ok? && "admin" in requested.value ==> r.value == {roles[ROLE_ADMIN]}
  {
    match requested
    case None =>
      if ROLE_USER in roles then Ok({roles[ROLE_USER]}) else Err(RoleNotFound)
    case Some(names) =>
      if exists n :: n in names && LookedUp(n) !in roles then Err(RoleNotFound)
      else if "admin" in names then Ok({roles[ROLE_ADMIN]})
      else Ok({})
  }

  /** The role set is {user role} when no names are requested, {admin role} when "admin" is among
      them, and empty otherwise: "seller", "user" and any other name grant nothing. */
  lemma RolesForCases(requested: Option<set<string>>, roles: map<AppRole, Role>)
    requires RolesKeyed(roles)
    ensures RolesFor(requested, roles).Err? ==> RolesFor(requested, roles).error == RoleNotFound
    ensures requested.None? && ROLE_USER in roles ==> RolesFor(requested, roles) == Ok({Role(roles[ROLE_USER].roleId, ROLE_USER)})
    ensures requested.Some? && RolesFor(requested, roles).Ok? ==>
              forall r :: r in RolesFor(requested, roles).value <==> "admin" in requested.value && r == roles[ROLE_ADMIN]
    ensures RolesFor(requested, roles).Ok? ==> forall r :: r in RolesFor(requested, roles).value ==> r.roleName != ROLE_SELLER
  {
  }

  /** Every requested name is looked up, so one missing role fails the whole sign-up, whatever the
      other names are. */
  lemma MissingRoleFails(names: set<string>, roles: map<AppRole, Role>, name: string)
    requires name in names && LookedUp(name) !in roles
    ensures RolesFor(Some(names), roles) == Err(RoleNotFound)
  {
  }

  /** A requested "seller" grants nothing, even when the seller role exists. */
  lemma SellerGrantsNothing(roles: map<AppRole, Role>)
    requires ROLE_SELLER in roles
    ensures RolesFor(Some({"seller"}), roles) == Ok({})
  {
    assert "admin" !in {"seller"} by {
      assert "admin"[0] != "seller"[0];
    }
  }

  /** A non-empty set of names has one to take next. */
  lemma NonEmptyHasName(s: set<string>)
    requires s != {}
    ensures exists x :: x in s
  {
    if forall x :: x !in s {
      assert false;
    }
  }

  /** The forEach over the requested names with its switch: each name's role is looked up, and only
      the admin role is added. */
  method BuildRoles(requested: Option<set<string>>, roles: map<AppRole, Role>) returns (r: Result<set<Role>>)
    ensures r == RolesFor(requested, roles)
  {
    if requested.None? {
      if ROLE_USER !in roles {
        return Err(RoleNotFound);
      }
      return Ok({roles[ROLE_USER]});
    }
    var names := requested.value;
    var remaining := names;
    var granted: set<Role> := {};
    while remaining != {}
      invariant remaining <= names
      invariant forall n :: n in names && n !in remaining ==> LookedUp(n) in roles
      invariant granted == if "admin" in names && "admin" !in remaining then {roles[ROLE_ADMIN]} else {}
      decreases remaining
    {
      NonEmptyHasName(remaining);
      var name :| name in remaining;
      if name == "admin" {
        if ROLE_ADMIN !in roles {
          return Err(RoleNotFound);
        }
        granted := granted + {roles[ROLE_ADMIN]};
      } else if name == "seller" {
        if ROLE_SELLER !in roles {
          return Err(RoleNotFound);
        }
      } else {
        if ROLE_USER !in roles {
          return Err(RoleNotFound);
        }
      }
      remaining := remaining - {name};
    }
    r := Ok(granted);
  }

  /** existsByUserName. */
  function UserNameTaken(users: map<int, User>, userName: string): (r: bool)
    ensures users == map[] ==> !r
  {
    exists k :: k in users && users[k].userName == userName
  }

  /** existsByEmail. */
  function EmailTaken(users: map<int, User>, email: string): (r: bool)
    ensures users == map[] ==> !r
  {
    exists k :: k in users && users[k].email == email
  }

  /** A stored user's name and email are taken, so a second sign-up with either is refused. */
  lemma StoredUserTaken(users: map<int, User>, k: int)
    requires k in users
    ensures UserNameTaken(users, users[k].userName) && EmailTaken(users, users[k].email)
  {
  }

  /** The unique constraint on emails. */
  ghost predicate UniqueEmails(users: map<int, User>) {
    forall u, v :: u in users && v in users && users[u].email == users[v].email ==> u == v
  }

  /** The user registerUser saves: enabled, with the encoded password, the computed roles and no
      addresses. */
  function NewUser(id: int, request: SignupRequest, encoded: string, roles: set<Role>): (u: User)
    ensures u.id == id && u.userName == request.username && u.email == request.email
    ensures u.password == encoded && u.enabled && u.roles == roles && u.addresses == []
  {
    User(id, request.username, request.email, encoded, true, roles, [])
  }

  /** A user saved under a fresh id with a username nobody has keeps the usernames unique and the
      address book consistent. */
  lemma RegisterKeepsBook(users: map<int, User>, addresses: map<int, Address>, user: User)
    requires UniqueUserNames(users) && AddressBookConsistent(users, addresses)
    requires user.id !in users && user.addresses == [] && !UserNameTaken(users, user.userName)
    ensures UniqueUserNames(users[user.id := user]) && AddressBookConsistent(users[user.id := user], addresses)
  {
    var after := users[user.id := user];
    forall u, v | u in after && v in after && after[u].userName == after[v].userName
      ensures u == v
    {
      if u != user.id && v != user.id {
        assert users[u].userName == users[v].userName;
      }
    }
    forall u | u in after
      ensures OwnsItsList(after[u], addresses)
    {
      if u != user.id {
        assert OwnsItsList(users[u], addresses);
      }
    }
  }

  /** A user saved under a fresh id with an email nobody has keeps the emails unique. */
  lemma RegisterKeepsEmailsUnique(users: map<int, User>, user: User)
    requires UniqueEmails(users) && user.id !in users && !EmailTaken(users, user.email)
    ensures UniqueEmails(users[user.id := user])
  {
    var after := users[user.id := user];
    forall u, v | u in after && v in after && after[u].email == after[v].email
      ensures u == v
    {
      if u != user.id && v != user.id {
        assert users[u].email == users[v].email;
      }
    }
  }

  /** registerUser: the username is checked before the email, and either being in use answers 400
      with nothing saved; a role lookup that fails raises "Error: Role Not Found!" with nothing saved;
      otherwise the user is saved under the next identity value. */
  method RegisterUser(accounts: Accounts, request: SignupRequest, encode: string -> string) returns (r: Result<Reply>)
    requires accounts.Valid()
    modifies accounts`users, accounts`nextId
    ensures accounts.Valid() && accounts.roles == old(accounts.roles) && accounts.addresses == old(accounts.addresses)
    ensures UserNameTaken(old(accounts.users), request.username) ==>
              r == Ok(BadRequest("Username is already in use"))
    ensures !UserNameTaken(old(accounts.users), request.username) && EmailTaken(old(accounts.users), request.email) ==>
              r == Ok(BadRequest("Email is already in use"))
    ensures !UserNameTaken(old(accounts.users), request.username) && !EmailTaken(old(accounts.users), request.email) ==>
              r == (if RolesFor(request.role, accounts.roles).Err? then Err(RoleNotFound)
                    else Ok(Success("User Registered Successfully!")))
    ensures r == Ok(Success("User Registered Successfully!")) ==>
              && accounts.users
                 == old(accounts.users)[old(accounts.nextId) :=
                      NewUser(old(accounts.nextId), request, encode(request.password), RolesFor(request.role, accounts.roles).value)]
              && (UniqueEmails(old(accounts.users)) ==> UniqueEmails(accounts.users))
    ensures r == Ok(Success("User Registered Successfully!")) ==> accounts.nextId == old(accounts.nextId) + 1
    ensures r != Ok(Success("User Registered Successfully!")) ==>
              accounts.users == old(accounts.users) && accounts.nextId == old(accounts.nextId)
  {
    if UserNameTaken(accounts.users, request.username) {
      return Ok(BadRequest("Username is already in use"));
    }
    if EmailTaken(accounts.users, request.email) {
      return Ok(BadRequest("Email is already in use"));
    }
    var encoded := encode(request.password);
    var granted := BuildRoles(request.role, accounts.roles);
    if granted.Err? {
      return Err(granted.error);
    }
    var id := accounts.NewId();
    var user := NewUser(id, request, encoded, granted.value);
    RegisterKeepsBook(accounts.users, accounts.addresses, user);
    if UniqueEmails(accounts.users) {
      RegisterKeepsEmailsUnique(accounts.users, user);
    }
    accounts.users := accounts.users[id := user];
    r := Ok(Success("User Registered Successfully!"));
  }

  /** currentUserName: the authenticated principal's name, or "" without an authentication. */
  function CurrentUserName(authentication: Option<string>): (name: string)
    ensures authentication.Some? ==> name == authentication.value
    ensures authentication.None? ==> name == ""
  {
    match authentication
    case Some(principal) => principal
    case None => ""
  }
}
