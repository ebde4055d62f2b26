/** The address service: a user's addresses live both in the address table and, in the order they
    were added, in the owner's address list, which create appends to and update and delete edit
    with removeIf. */
module AddressService {
  import opened Text
  import opened Domain
  import opened Store
  import opened Validation

  // ---------------------------------------------------------------------------------------------
  // Addresses as values

  /** The six text fields of an address, as a request carries them. */
  function FieldsOf(a: Address): AddressInput {
    AddressInput(a.street, a.buildingName, a.city, a.state, a.country, a.zipCode)
  }

  /** The request body mapped to a new address for its owner. */
  function NewAddress(id: int, input: AddressInput, userId: int): (a: Address)
    ensures a.id == id && a.userId == userId && FieldsOf(a) == input
  {
    Address(id, input.street, input.buildingName, input.city, input.state, input.country, input.zipCode, userId)
  }

  /** updateAddressById's setters: the six text fields come from the request; the id and the owner
      stay. (The source sets street twice, to the same value.) */
  function UpdatedAddress(a: Address, input: AddressInput): (r: Address)
    ensures r.id == a.id && r.userId == a.userId && FieldsOf(r) == input
    ensures input == FieldsOf(a) ==> r == a
  {
    a.(street := input.street, buildingName := input.buildingName, city := input.city, state := input.state,
       country := input.country, zipCode := input.zipCode)
  }

  /** List.removeIf(address -> address.getId().equals(id)). */
  function RemoveById(list: seq<Address>, id: int): (r: seq<Address>)
    ensures |r| <= |list|
    ensures forall k :: 0 <= k < |r| ==> r[k].id != id
  {
    if list == [] then []
    else if list[0].id == id then RemoveById(list[1..], id)
    else [list[0]] + RemoveById(list[1..], id)
  }

  /** removeIf keeps exactly the entries with another id. */
  lemma {:induction false} RemoveByIdMembers(list: seq<Address>, id: int, x: Address)
    ensures x in RemoveById(list, id) <==> x in list && x.id != id
  {
    if list != [] {
      RemoveByIdMembers(list[1..], id, x);
      assert list == [list[0]] + list[1..];
    }
  }

  /** removeIf works entry by entry: on a list made of two parts it filters each part in place,
      so the kept entries stay in their relative order. */
  lemma {:induction false} RemoveByIdAppend(a: seq<Address>, b: seq<Address>, id: int)
    ensures RemoveById(a + b, id) == RemoveById(a, id) + RemoveById(b, id)
  {
    if a == [] {
      assert a + b == b;
    } else {
      assert (a + b)[1..] == a[1..] + b;
      RemoveByIdAppend(a[1..], b, id);
    }
  }

  /** A list with no entry for the id is left as it is. */
  lemma {:induction false} RemoveByIdAbsent(list: seq<Address>, id: int)
    requires forall k :: 0 <= k < |list| ==> list[k].id != id
    ensures RemoveById(list, id) == list
  {
    if list != [] {
      RemoveByIdAbsent(list[1..], id);
    }
  }

  /** Each stored user is stored under its own id. */
  ghost predicate UsersKeyed(users: map<int, User>) {
    forall k :: k in users ==> users[k].id == k
  }

  // ---------------------------------------------------------------------------------------------
  // The queries

  /** getAllAddresses: every stored address, or an APIException when there is none. */
  function GetAllAddresses(addresses: map<int, Address>): (r: Result<set<Address>>)
    ensures r.Err? <==> addresses == map[]
    ensures r.Err? ==> r.error == APIException("No addresses found")
    ensures r.Ok? ==> forall k :: k in addresses ==> addresses[k] in r.value
    ensures r.Ok? ==> forall a :: a in r.value ==> exists k :: k in addresses && addresses[k] == a
  {
    if addresses == map[] then Err(APIException("No addresses found")) else Ok(set k | k in addresses :: addresses[k])
  }

  /** getAddressById: the stored address, or an APIException naming the id. */
  function GetAddressById(addresses: map<int, Address>, addressId: int): (r: Result<Address>)
    ensures r.Err? <==> addressId !in addresses
    ensures r.Err? ==> r.error == APIException("No address found with id: " + IntToString(addressId))
    ensures r.Ok? ==> r.value == addresses[addressId]
  {
    if addressId !in addresses then Err(APIException("No address found with id: " + IntToString(addressId)))
    else Ok(addresses[addressId])
  }

  /** getAddressByUser: the stored user's address list in order; an unknown user or an empty list is
      an APIException. */
  function GetAddressByUser(users: map<int, User>, userId: int): (r: Result<seq<Address>>)
    ensures r.Err? <==> userId !in users || users[userId].addresses == []
    ensures userId !in users ==> r == Err(APIException("No user found with id: " + IntToString(userId)))
    ensures userId in users && users[userId].addresses == [] ==> r == Err(APIException("No addresses found"))
    ensures r.Ok? ==> r.value == users[userId].addresses
  {
    if userId !in users then Err(APIException("No user found with id: " + IntToString(userId)))
    else if users[userId].addresses == [] then Err(APIException("No addresses found"))
    else Ok(users[userId].addresses)
  }

  /** In a consistent address book the addresses a stored user lists are exactly the stored
      addresses that user owns. */
  lemma ListedAreOwned(users: map<int, User>, addresses: map<int, Address>, userId: int, a: Address)
    requires UsersKeyed(users) && AddressBookConsistent(users, addresses) && userId in users
    ensures a in users[userId].addresses ==> a.id in addresses && addresses[a.id] == a && a.userId == userId
  {
    if a in users[userId].addresses {
      var k :| 0 <= k < |users[userId].addresses| && users[userId].addresses[k] == a;
      assert OwnsItsList(users[userId], addresses);
    }
  }

  // ---------------------------------------------------------------------------------------------
  // The address book stays consistent

  /** Replacing a user by a copy with the same id and username keeps the usernames unique. */
  lemma SameNameKeepsUnique(users: map<int, User>, userId: int, user: User)
    requires UniqueUserNames(users) && userId in users && user.userName == users[userId].userName
    ensures UniqueUserNames(users[userId := user])
  {
    var after := users[userId := user];
    forall u, v | u in after && v in after && after[u].userName == after[v].userName
      ensures u == v
    {
      assert users[u].userName == users[v].userName;
    }
  }

  /** createAddress: a fresh address appended to its owner's list keeps the book consistent. */
  lemma CreateKeepsBook(users: map<int, User>, addresses: map<int, Address>, a: Address)
    requires UsersKeyed(users) && AddressBookConsistent(users, addresses) && a.id !in addresses && a.userId in users
    ensures var owner := users[a.userId];
            AddressBookConsistent(users[a.userId := owner.(addresses := owner.addresses + [a])], addresses[a.id := a])
  {
    var owner := users[a.userId];
    var users' := users[a.userId := owner.(addresses := owner.addresses + [a])];
    var addresses' := addresses[a.id := a];
    forall u | u in users'
      ensures OwnsItsList(users'[u], addresses')
    {
      assert OwnsItsList(users[u], addresses);
      forall k | 0 <= k < |users'[u].addresses|
        ensures var b := users'[u].addresses[k]; b.userId == users'[u].id && b.id in addresses' && addresses'[b.id] == b
      {
        if u == a.userId && k == |owner.addresses| {
          assert users'[u].addresses[k] == a;
        } else {
          assert users'[u].addresses[k] == users[u].addresses[k];
        }
      }
    }
  }

  /** updateAddressById: the stored address replaced, its entries dropped from its owner's list and
      the new version appended keeps the book consistent. */
  lemma UpdateKeepsBook(users: map<int, User>, addresses: map<int, Address>, a: Address)
    requires UsersKeyed(users) && AddressBookConsistent(users, addresses) && a.id in addresses && a.userId == addresses[a.id].userId
    ensures var owner := users[a.userId];
            AddressBookConsistent(users[a.userId := owner.(addresses := RemoveById(owner.addresses, a.id) + [a])],
                                  addresses[a.id := a])
  {
    var owner := users[a.userId];
    var list := RemoveById(owner.addresses, a.id) + [a];
    var users' := users[a.userId := owner.(addresses := list)];
    var addresses' := addresses[a.id := a];
    forall u | u in users'
      ensures OwnsItsList(users'[u], addresses')
    {
      assert OwnsItsList(users[u], addresses);
      forall k | 0 <= k < |users'[u].addresses|
        ensures var b := users'[u].addresses[k]; b.userId == users'[u].id && b.id in addresses' && addresses'[b.id] == b
      {
        var b := users'[u].addresses[k];
        if u == a.userId {
          if k < |list| - 1 {
            RemoveByIdMembers(owner.addresses, a.id, b);
            assert b in RemoveById(owner.addresses, a.id);
          }
        } else {
          assert b == users[u].addresses[k];
          assert b.userId == u && u != a.userId;
        }
      }
    }
  }

  /** deleteAddressById: the stored address deleted and its entries dropped from its owner's list
      keeps the book consistent. */
  lemma DeleteKeepsBook(users: map<int, User>, addresses: map<int, Address>, addressId: int)
    requires UsersKeyed(users) && AddressBookConsistent(users, addresses) && addressId in addresses
    ensures var owner := users[addresses[addressId].userId];
            AddressBookConsistent(users[owner.id := owner.(addresses := RemoveById(owner.addresses, addressId))],
                                  addresses - {addressId})
  {
    var ownerId := addresses[addressId].userId;
    var owner := users[ownerId];
    var users' := users[ownerId := owner.(addresses := RemoveById(owner.addresses, addressId))];
    var addresses' := addresses - {addressId};
    forall u | u in users'
      ensures OwnsItsList(users'[u], addresses')
    {
      assert OwnsItsList(users[u], addresses);
      forall k | 0 <= k < |users'[u].addresses|
        ensures var b := users'[u].addresses[k]; b.userId == users'[u].id && b.id in addresses' && addresses'[b.id] == b
      {
        var b := users'[u].addresses[k];
        if u == ownerId {
          RemoveByIdMembers(owner.addresses, addressId, b);
        } else {
          assert b == users[u].addresses[k];
        }
      }
    }
  }

  // ---------------------------------------------------------------------------------------------
  // The writes

  /** createAddress for the logged-in user: the request becomes an address owned by the user,
      appended at the end of the user's list and saved under the next identity value. Saving it
      checks the entity's constraints on the six fields; a violation saves nothing. */
  method CreateAddress(accounts: Accounts, userId: int, input: AddressInput) returns (r: Result<Address>)
    requires accounts.Valid() && userId in accounts.users
    modifies accounts`users, accounts`addresses, accounts`nextId
    ensures accounts.Valid() && accounts.roles == old(accounts.roles)
    ensures r.Err? <==> !ValidAddressText(input)
    ensures r.Err? ==>
      && r.error == ConstraintViolation
      && accounts.users == old(accounts.users) && accounts.addresses == old(accounts.addresses)
      && accounts.nextId == old(accounts.nextId)
    ensures r.Ok? ==>
      && r.value == NewAddress(old(accounts.nextId), input, userId)
      && r.value.id !in old(accounts.addresses)
      && accounts.addresses == old(accounts.addresses)[r.value.id := r.value]
      && accounts.users
         == old(accounts.users)[userId := old(accounts.users)[userId].(addresses := old(accounts.users)[userId].addresses + [r.value])]
  {
    if !ValidAddressText(input) {
      return Err(ConstraintViolation);
    }
    var id := accounts.NewId();
    var address := NewAddress(id, input, userId);
    var user := accounts.users[userId];
    var user' := user.(addresses := user.addresses + [address]);
    CreateKeepsBook(accounts.users, accounts.addresses, address);
    SameNameKeepsUnique(accounts.users, userId, user');
    accounts.users := accounts.users[userId := user'];
    accounts.addresses := accounts.addresses[id := address];
    r := Ok(address);
  }

  /** updateAddressById: an unknown id is an APIException; otherwise the six text fields are
      overwritten and saved, and in the owner's list every entry with the id is removed and the
      updated address appended. Saving checks the entity's constraints on the six fields; a violation
      saves nothing. */
  method UpdateAddressById(accounts: Accounts, addressId: int, input: AddressInput) returns (r: Result<Address>)
    requires accounts.Valid()
    modifies accounts`users, accounts`addresses
    ensures accounts.Valid() && accounts.roles == old(accounts.roles)
    ensures r.Err? <==> addressId !in old(accounts.addresses) || !ValidAddressText(input)
    ensures addressId !in old(accounts.addresses) ==>
              r == Err(APIException("No address found with id: " + IntToString(addressId)))
    ensures addressId in old(accounts.addresses) && !ValidAddressText(input) ==> r == Err(ConstraintViolation)
    ensures r.Err? ==> accounts.users == old(accounts.users) && accounts.addresses == old(accounts.addresses)
    ensures r.Ok? ==>
      && r.value == UpdatedAddress(old(accounts.addresses)[addressId], input)
      && r.value.userId in old(accounts.users)
      && accounts.addresses == old(accounts.addresses)[addressId := r.value]
      && var owner := old(accounts.users)[r.value.userId];
         accounts.users == old(accounts.users)[owner.id := owner.(addresses := RemoveById(owner.addresses, addressId) + [r.value])]
  {
    if addressId !in accounts.addresses {
      return Err(APIException("No address found with id: " + IntToString(addressId)));
    }
    if !ValidAddressText(input) {
      return Err(ConstraintViolation);
    }
    var updated := UpdatedAddress(accounts.addresses[addressId], input);
    var owner := accounts.users[updated.userId];
    var owner' := owner.(addresses := RemoveById(owner.addresses, addressId) + [updated]);
    UpdateKeepsBook(accounts.users, accounts.addresses, updated);
    SameNameKeepsUnique(accounts.users, owner.id, owner');
    accounts.addresses := accounts.addresses[addressId := updated];
    accounts.users := accounts.users[owner.id := owner'];
    r := Ok(updated);
  }

  /** deleteAddressById: an unknown id is an APIException; otherwise every entry with the id is
      removed from the owner's list, the address is deleted and returned. */
  method DeleteAddressById(accounts: Accounts, addressId: int) returns (r: Result<Address>)
    requires accounts.Valid()
    modifies accounts`users, accounts`addresses
    ensures accounts.Valid() && accounts.roles == old(accounts.roles)
    ensures r.Err? <==> addressId !in old(accounts.addresses)
    ensures r.Err? ==>
      && r.error == APIException("Address Not Found with " + IntToString(addressId))
      && accounts.users == old(accounts.users) && accounts.addresses == old(accounts.addresses)
    ensures r.Ok? ==>
      && r.value == old(accounts.addresses)[addressId]
      && r.value.userId in old(accounts.users)
      && accounts.addresses == old(accounts.addresses) - {addressId}
      && var owner := old(accounts.users)[r.value.userId];
         accounts.users == old(accounts.users)[owner.id := owner.(addresses := RemoveById(owner.addresses, addressId))]
  {
    if addressId !in accounts.addresses {
      return Err(APIException("Address Not Found with " + IntToString(addressId)));
    }
    var address := accounts.addresses[addressId];
    var owner := accounts.users[address.userId];
    var owner' := owner.(addresses := RemoveById(owner.addresses, addressId));
    DeleteKeepsBook(accounts.users, accounts.addresses, addressId);
    SameNameKeepsUnique(accounts.users, owner.id, owner');
    accounts.users := accounts.users[owner.id := owner'];
    accounts.addresses := accounts.addresses - {addressId};
    r := Ok(address);
  }
}
