/** initData, the start-up seeding of the role and user tables: each of the three roles is found or
    created, the users user1, seller1 and admin are created when their username is free, and then
    each of them is given its role set, replacing whatever roles it had. */
module SecurityConfig {
  import opened Domain
  import opened Store
  import opened AuthController

  /** The part of the account tables initData reads and writes. */
  datatype Seed = Seed(roles: map<AppRole, Role>, users: map<int, User>, nextId: int)

  /** findByRoleName(name).orElseGet(save(new Roles(name))). */
  function FindOrCreateRole(s: Seed, name: AppRole): (r: Seed)
    ensures name in r.roles && r.users == s.users
    ensures name in s.roles ==> r == s
    ensures name !in s.roles ==> r.roles == s.roles[name := Role(s.nextId, name)] && r.nextId == s.nextId + 1
  {
    if name in s.roles then s
    else s.(roles := s.roles[name := Role(s.nextId, name)], nextId := s.nextId + 1)
  }

  /** if (!existsByUserName(name)) save(new Users(name, email, encoded)): enabled, no roles, no
      addresses. */
  function CreateIfAbsent(s: Seed, name: string, email: string, encoded: string): (r: Seed)
    ensures UserNameTaken(r.users, name) && r.roles == s.roles
    ensures UserNameTaken(s.users, name) ==> r == s
    ensures !UserNameTaken(s.users, name) ==>
              && r.users == s.users[s.nextId := User(s.nextId, name, email, encoded, true, {}, [])]
              && r.nextId == s.nextId + 1
  {
    if UserNameTaken(s.users, name) then s
    else
      var r := s.(users := s.users[s.nextId := User(s.nextId, name, email, encoded, true, {}, [])], nextId := s.nextId + 1);
      assert r.users[s.nextId].userName == name;
      r
  }

  /** findByUserName(name).ifPresent(setRolesInUsers(roles); save): the user with the name gets
      exactly these roles; every other user is left as it was. */
  function AssignRoles(s: Seed, name: string, roles: set<Role>): (r: Seed)
    ensures r.roles == s.roles && r.nextId == s.nextId && r.users.Keys == s.users.Keys
    ensures forall k :: k in s.users && s.users[k].userName == name ==> r.users[k] == s.users[k].(roles := roles)
    ensures forall k :: k in s.users && s.users[k].userName != name ==> r.users[k] == s.users[k]
  {
    s.(users := map k | k in s.users :: if s.users[k].userName == name then s.users[k].(roles := roles) else s.users[k])
  }

  /** The three roles, found or created in the order user, seller, admin. */
  function SeedRoles(s: Seed): (r: Seed)
    ensures ROLE_USER in r.roles && ROLE_SELLER in r.roles && ROLE_ADMIN in r.roles
    ensures r.users == s.users
    ensures forall n :: n in s.roles ==> n in r.roles && r.roles[n] == s.roles[n]
  {
    FindOrCreateRole(FindOrCreateRole(FindOrCreateRole(s, ROLE_USER), ROLE_SELLER), ROLE_ADMIN)
  }

  /** The three seeded users, created when absent with their passwords encoded. */
  function SeedUsers(s: Seed, encode: string -> string): (r: Seed)
    ensures r.roles == s.roles && s.users.Keys <= r.users.Keys
    ensures UserNameTaken(r.users, "admin")
  {
    var s1 := CreateIfAbsent(s, "user1", "user1@example.com", encode("password1"));
    var s2 := CreateIfAbsent(s1, "seller1", "seller1@example.com", encode("password2"));
    CreateIfAbsent(s2, "admin", "admin@example.com", encode("adminPass"))
  }

  /** The role sets: {user} for user1, {seller} for seller1, {user, seller, admin} for admin. */
  function AssignSeedRoles(s: Seed): (r: Seed)
    requires ROLE_USER in s.roles && ROLE_SELLER in s.roles && ROLE_ADMIN in s.roles
    ensures r.roles == s.roles && r.nextId == s.nextId && r.users.Keys == s.users.Keys
  {
    var userRole, sellerRole, adminRole := s.roles[ROLE_USER], s.roles[ROLE_SELLER], s.roles[ROLE_ADMIN];
    var s1 := AssignRoles(s, "user1", {userRole});
    var s2 := AssignRoles(s1, "seller1", {sellerRole});
    AssignRoles(s2, "admin", {userRole, sellerRole, adminRole})
  }

  /** The whole of initData on the account tables. */
  function InitData(s: Seed, encode: string -> string): (r: Seed)
    ensures ROLE_USER in r.roles && ROLE_SELLER in r.roles && ROLE_ADMIN in r.roles
    ensures forall n :: n in s.roles ==> n in r.roles && r.roles[n] == s.roles[n]
    ensures s.users.Keys <= r.users.Keys
  {
    var roled := SeedRoles(s);
    var peopled := SeedUsers(roled, encode);
    assert peopled.roles == roled.roles;
    AssignSeedRoles(peopled)
  }

  /** The three usernames differ from each other. */
  lemma SeedNamesDiffer()
    ensures "user1" != "seller1" && "user1" != "admin" && "seller1" != "admin"
  {
    assert "user1"[0] != "seller1"[0] && "user1"[0] != "admin"[0] && "seller1"[0] != "admin"[0];
  }

  /** Seeding the users keeps every existing user and adds only users named user1, seller1 or
      admin; afterwards all three names are taken. */
  lemma SeedUsersResult(s: Seed, encode: string -> string)
    requires KeysBelow(s.users, s.nextId)
    ensures var r := SeedUsers(s, encode);
            && r.roles == s.roles
            && UserNameTaken(r.users, "user1") && UserNameTaken(r.users, "seller1") && UserNameTaken(r.users, "admin")
            && (forall k :: k in s.users ==> k in r.users && r.users[k] == s.users[k])
            && (forall k :: k in r.users && k !in s.users ==> r.users[k].userName in {"user1", "seller1", "admin"})
  {
    var s1 := CreateIfAbsent(s, "user1", "user1@example.com", encode("password1"));
    var s2 := CreateIfAbsent(s1, "seller1", "seller1@example.com", encode("password2"));
    var r := CreateIfAbsent(s2, "admin", "admin@example.com", encode("adminPass"));
    assert KeysBelow(s1.users, s1.nextId) && KeysBelow(s2.users, s2.nextId);
    assert UserNameTaken(r.users, "user1") by {
      var k :| k in s1.users && s1.users[k].userName == "user1";
      assert k in r.users && r.users[k] == s1.users[k];
    }
    assert UserNameTaken(r.users, "seller1") by {
      var k :| k in s2.users && s2.users[k].userName == "seller1";
      assert k in r.users && r.users[k] == s2.users[k];
    }
  }

  /** Assigning the seed role sets gives user1, seller1 and admin their sets and leaves every other
      user, every key and every name as it was. */
  lemma AssignSeedRolesResult(s: Seed)
    requires ROLE_USER in s.roles && ROLE_SELLER in s.roles && ROLE_ADMIN in s.roles
    ensures var r := AssignSeedRoles(s);
            && r.roles == s.roles && r.nextId == s.nextId && r.users.Keys == s.users.Keys
            && (forall k :: k in s.users ==> r.users[k].userName == s.users[k].userName)
            && (forall k :: k in r.users && r.users[k].userName == "user1" ==> r.users[k].roles == {s.roles[ROLE_USER]})
            && (forall k :: k in r.users && r.users[k].userName == "seller1" ==> r.users[k].roles == {s.roles[ROLE_SELLER]})
            && (forall k :: k in r.users && r.users[k].userName == "admin" ==>
                  r.users[k].roles == {s.roles[ROLE_USER], s.roles[ROLE_SELLER], s.roles[ROLE_ADMIN]})
            && (forall k :: k in s.users && s.users[k].userName !in {"user1", "seller1", "admin"} ==> r.users[k] == s.users[k])
  {
    SeedNamesDiffer();
  }

  /** After initData the three roles exist, roles that existed are reused unchanged, the three users
      exist with their role sets, and every other user is as it was. */
  lemma InitDataResult(s: Seed, encode: string -> string)
    requires KeysBelow(s.users, s.nextId)
    ensures var r := InitData(s, encode);
            && ROLE_USER in r.roles && ROLE_SELLER in r.roles && ROLE_ADMIN in r.roles
            && (forall n :: n in s.roles ==> r.roles[n] == s.roles[n])
            && UserNameTaken(r.users, "user1") && UserNameTaken(r.users, "seller1") && UserNameTaken(r.users, "admin")
            && (forall k :: k in r.users && r.users[k].userName == "user1" ==> r.users[k].roles == {r.roles[ROLE_USER]})
            && (forall k :: k in r.users && r.users[k].userName == "seller1" ==> r.users[k].roles == {r.roles[ROLE_SELLER]})
            && (forall k :: k in r.users && r.users[k].userName == "admin" ==>
                  r.users[k].roles == {r.roles[ROLE_USER], r.roles[ROLE_SELLER], r.roles[ROLE_ADMIN]})
            && (forall k :: k in s.users && s.users[k].userName !in {"user1", "seller1", "admin"} ==> r.users[k] == s.users[k])
  {
    var roled := SeedRoles(s);
    var peopled := SeedUsers(roled, encode);
    SeedUsersResult(roled, encode);
    AssignSeedRolesResult(peopled);
    var r := AssignSeedRoles(peopled);
    assert r == InitData(s, encode);
    forall name | name in {"user1", "seller1", "admin"} && UserNameTaken(peopled.users, name)
      ensures UserNameTaken(r.users, name)
    {
      var k :| k in peopled.users && peopled.users[k].userName == name;
      assert r.users[k].userName == name;
    }
  }

  /** Giving a name's users the role set they already have changes nothing. */
  lemma AssignRolesNoop(s: Seed, name: string, roles: set<Role>)
    requires forall k :: k in s.users && s.users[k].userName == name ==> s.users[k].roles == roles
    ensures AssignRoles(s, name, roles) == s
  {
    var r := AssignRoles(s, name, roles);
    forall k | k in s.users
      ensures r.users[k] == s.users[k]
    {
      if s.users[k].userName == name {
        assert s.users[k].(roles := roles) == s.users[k];
      }
    }
    assert r.users == s.users;
  }

  /** Running initData a second time changes nothing: every role is found, every user exists, and
      every role set is assigned again to the same value. */
  lemma InitDataIdempotent(s: Seed, encode: string -> string)
    requires KeysBelow(s.users, s.nextId)
    ensures InitData(InitData(s, encode), encode) == InitData(s, encode)
  {
    var once := InitData(s, encode);
    InitDataResult(s, encode);
    assert SeedRoles(once) == once;
    assert SeedUsers(once, encode) == once;
    var userRole, sellerRole, adminRole := once.roles[ROLE_USER], once.roles[ROLE_SELLER], once.roles[ROLE_ADMIN];
    AssignRolesNoop(once, "user1", {userRole});
    AssignRolesNoop(once, "seller1", {sellerRole});
    AssignRolesNoop(once, "admin", {userRole, sellerRole, adminRole});
    assert AssignSeedRoles(once) == once;
  }

  // ---------------------------------------------------------------------------------------------
  // initData on the account store

  /** The account tables initData works on. */
  function SeedOf(accounts: Accounts): Seed
    reads accounts
  {
    Seed(accounts.roles, accounts.users, accounts.nextId)
  }

  /** Giving users new role sets keeps ids, names and address lists, so the store stays valid. */
  lemma AssignKeepsValid(s: Seed, addresses: map<int, Address>, name: string, roles: set<Role>)
    requires UniqueUserNames(s.users) && AddressBookConsistent(s.users, addresses)
    requires forall k :: k in s.users ==> s.users[k].id == k
    ensures var r := AssignRoles(s, name, roles);
            && UniqueUserNames(r.users) && AddressBookConsistent(r.users, addresses)
            && forall k :: k in r.users ==> r.users[k].id == k
  {
    var r := AssignRoles(s, name, roles);
    forall u, v | u in r.users && v in r.users && r.users[u].userName == r.users[v].userName
      ensures u == v
    {
      assert s.users[u].userName == s.users[v].userName;
    }
    forall u | u in r.users
      ensures OwnsItsList(r.users[u], addresses)
    {
      assert OwnsItsList(s.users[u], addresses);
    }
  }

  method FindOrCreateRoleIn(accounts: Accounts, name: AppRole)
    requires accounts.Valid()
    modifies accounts`roles, accounts`nextId
    ensures accounts.Valid() && accounts.users == old(accounts.users) && accounts.addresses == old(accounts.addresses)
    ensures SeedOf(accounts) == FindOrCreateRole(old(SeedOf(accounts)), name)
  {
    if name in accounts.roles {
      return;
    }
    var id := accounts.NewId();
    accounts.roles := accounts.roles[name := Role(id, name)];
  }

  method CreateIfAbsentIn(accounts: Accounts, name: string, email: string, encoded: string)
    requires accounts.Valid()
    modifies accounts`users, accounts`nextId
    ensures accounts.Valid() && accounts.roles == old(accounts.roles) && accounts.addresses == old(accounts.addresses)
    ensures SeedOf(accounts) == CreateIfAbsent(old(SeedOf(accounts)), name, email, encoded)
  {
    if UserNameTaken(accounts.users, name) {
      return;
    }
    var id := accounts.NewId();
    var user := User(id, name, email, encoded, true, {}, []);
    RegisterKeepsBook(accounts.users, accounts.addresses, user);
    accounts.users := accounts.users[id := user];
  }

  method AssignRolesIn(accounts: Accounts, name: string, roles: set<Role>)
    requires accounts.Valid()
    modifies accounts`users
    ensures accounts.Valid() && accounts.roles == old(accounts.roles) && accounts.addresses == old(accounts.addresses)
    ensures SeedOf(accounts) == AssignRoles(old(SeedOf(accounts)), name, roles)
  {
    AssignKeepsValid(SeedOf(accounts), accounts.addresses, name, roles);
    accounts.users := AssignRoles(SeedOf(accounts), name, roles).users;
  }

  /** initData: the role and user tables end as InitData says; addresses are not touched. */
  method RunInitData(accounts: Accounts, encode: string -> string)
    requires accounts.Valid()
    modifies accounts`roles, accounts`users, accounts`nextId
    ensures accounts.Valid() && accounts.addresses == old(accounts.addresses)
    ensures SeedOf(accounts) == InitData(old(SeedOf(accounts)), encode)
  {
    FindOrCreateRoleIn(accounts, ROLE_USER);
    FindOrCreateRoleIn(accounts, ROLE_SELLER);
    FindOrCreateRoleIn(accounts, ROLE_ADMIN);
    var userRole, sellerRole, adminRole := accounts.roles[ROLE_USER], accounts.roles[ROLE_SELLER], accounts.roles[ROLE_ADMIN];
    CreateIfAbsentIn(accounts, "user1", "user1@example.com", encode("password1"));
    CreateIfAbsentIn(accounts, "seller1", "seller1@example.com", encode("password2"));
    CreateIfAbsentIn(accounts, "admin", "admin@example.com", encode("adminPass"));
    AssignRolesIn(accounts, "user1", {userRole});
    AssignRolesIn(accounts, "seller1", {sellerRole});
    AssignRolesIn(accounts, "admin", {userRole, sellerRole, adminRole});
  }
}
