/** The security principal built from a stored user: its identity fields, one authority per role,
    account-status flags that are always true, and an equality that compares ids only. */
module UserDetails {
  import opened Domain

  /** UserDetailsImplementation: the id is a nullable Long. */
  datatype Details = Details(id: Option<int>, username: string, email: string, password: string, authorities: seq<string>)

  /** What equals may be handed: null, or an object of some class at some reference. */
  datatype Obj = Null | Instance(ref: nat, className: string, details: Details)

  const DetailsClass := "UserDetailsImplementation"

  /** AppRole.name(). */
  function RoleText(role: AppRole): string {
    match role
    case ROLE_USER => "ROLE_USER"
    case ROLE_SELLER => "ROLE_SELLER"
    case ROLE_ADMIN => "ROLE_ADMIN"
  }

  lemma RoleTextInjective(a: AppRole, b: AppRole)
    ensures RoleText(a) == RoleText(b) ==> a == b
  {
    if a != b {
      assert RoleText(a)[5] != RoleText(b)[5];
    }
  }

  /** build: the user's id, username, email and password unchanged, and one authority per role,
      named after the role, in the order the role set is iterated (given here as order). */
  function Build(user: User, order: seq<Role>): (d: Details)
    requires |order| == |user.roles| && forall r :: r in order <==> r in user.roles
    ensures d.id == Some(user.id) && d.username == user.userName && d.email == user.email && d.password == user.password
    ensures |d.authorities| == |user.roles|
    ensures forall i :: 0 <= i < |d.authorities| ==> exists r :: r in user.roles && d.authorities[i] == RoleText(r.roleName)
    ensures forall r :: r in user.roles ==> RoleText(r.roleName) in d.authorities
  {
    var authorities := seq(|order|, i requires 0 <= i < |order| => RoleText(order[i].roleName));
    assert forall r :: r in user.roles ==> exists i :: 0 <= i < |order| && order[i] == r && authorities[i] == RoleText(r.roleName);
    Details(Some(user.id), user.userName, user.email, user.password, authorities)
  }

  /** A user's roles name distinct AppRoles when each role name appears once; then no authority is
      listed twice. */
  lemma AuthoritiesDistinct(user: User, order: seq<Role>)
    requires |order| == |user.roles| && forall r :: r in order <==> r in user.roles
    requires forall r, s :: r in user.roles && s in user.roles && r.roleName == s.roleName ==> r == s
    ensures var a := Build(user, order).authorities;
            forall i, j :: 0 <= i < j < |a| ==> a[i] != a[j]
  {
    var a := Build(user, order).authorities;
    DistinctOrder(order, user.roles);
    forall i, j | 0 <= i < j < |a|
      ensures a[i] != a[j]
    {
      RoleTextInjective(order[i].roleName, order[j].roleName);
    }
  }

  /** An enumeration of a set that is as long as the set lists no element twice. */
  lemma DistinctOrder(order: seq<Role>, roles: set<Role>)
    requires |order| == |roles| && forall r :: r in order <==> r in roles
    ensures forall i, j :: 0 <= i < j < |order| ==> order[i] != order[j]
  {
    if i, j :| 0 <= i < j < |order| && order[i] == order[j] {
      var rest := order[..j] + order[j + 1..];
      assert forall r :: r in roles ==> r in rest by {
        forall r | r in roles ensures r in rest {
          var k :| 0 <= k < |order| && order[k] == r;
          if k < j {
            assert rest[k] == r;
          } else if k == j {
            assert rest[i] == r;
          } else {
            assert rest[k - 1] == r;
          }
        }
      }
      SetBoundedBySeq(roles, rest);
      assert false;
    }
  }

  /** A set whose every element occurs in a sequence is no larger than the sequence. */
  lemma {:induction false} SetBoundedBySeq(roles: set<Role>, s: seq<Role>)
    requires forall r :: r in roles ==> r in s
    ensures |roles| <= |s|
  {
    if s != [] {
      var rest := roles - {s[0]};
      forall r | r in rest ensures r in s[1..] {
        var k :| 0 <= k < |s| && s[k] == r;
        assert k != 0;
        assert s[1..][k - 1] == r;
      }
      SetBoundedBySeq(rest, s[1..]);
    } else {
      assert roles == {};
    }
  }

  /** The four account-status flags: all of them are always true. */
  function IsAccountNonExpired(d: Details): (r: bool) ensures r { true }
  function IsAccountNonLocked(d: Details): (r: bool) ensures r { true }
  function IsCredentialsNonExpired(d: Details): (r: bool) ensures r { true }
  function IsEnabled(d: Details): (r: bool) ensures r { true }

  /** The principal of a user stored as disabled is still enabled, unlocked and unexpired. */
  lemma FlagsIgnoreStoredEnabled(user: User, order: seq<Role>)
    requires |order| == |user.roles| && forall r :: r in order <==> r in user.roles
    requires !user.enabled
    ensures var d := Build(user, order);
            IsEnabled(d) && IsAccountNonExpired(d) && IsAccountNonLocked(d) && IsCredentialsNonExpired(d)
  {
  }

  /** equals, called on the principal d at reference self: true for the same reference, false for
      null or another class, otherwise whether the ids are equal (two null ids are equal). */
  function Equals(self: nat, d: Details, other: Obj): (r: bool)
    ensures other.Instance? && other.ref == self ==> r
    ensures other.Null? || (other.ref != self && other.className != DetailsClass) ==> !r
    ensures other.Instance? && other.ref != self && other.className == DetailsClass ==> (r <==> d.id == other.details.id)
  {
    if other.Instance? && other.ref == self then true
    else if other.Null? || other.className != DetailsClass then false
    else d.id == other.details.id
  }

  /** Between principals at different references, equals ignores everything but the id: two
      principals with the same id are equal whatever their names, emails, passwords and authorities,
      and the relation is symmetric and transitive. */
  lemma EqualsComparesIds(a: Details, b: Details, c: Details)
    ensures Equals(1, a, Instance(2, DetailsClass, b)) <==> a.id == b.id
    ensures Equals(1, a, Instance(2, DetailsClass, b)) == Equals(2, b, Instance(1, DetailsClass, a))
    ensures Equals(1, a, Instance(2, DetailsClass, b)) && Equals(2, b, Instance(3, DetailsClass, c)) ==>
              Equals(1, a, Instance(3, DetailsClass, c))
  {
  }
}
