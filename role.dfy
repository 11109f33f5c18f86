/**
 * Roles, the permission set each role is declared with, and the authority list a role grants.
 */
module Roles {
  import opened Sequences
  import opened Permissions

  datatype Role = USER | ROLE | ADMIN

  /** The enum constant's name, as `name()` returns it. */
  function Name(r: Role): string
  {
    match r
    case USER => "USER"
    case ROLE => "ROLE"
    case ADMIN => "ADMIN"
  }

  /** The permission set each constant is declared with. */
  function PermissionsOf(r: Role): (ps: set<Permission>)
    ensures |ps| == if r == USER then 0 else 4
  {
    match r
    case USER => {}
    case ROLE => {ROLE_READ, ROLE_UPDATE, ROLE_DELETE, ROLE_CREATE}
    case ADMIN => {ADMIN_READ, ADMIN_UPDATE, ADMIN_DELETE, ADMIN_CREATE}
  }

  /**
   * `order` lists every element of `ps` exactly once: one iteration order of an
   * immutable set, which the set itself leaves unspecified.
   */
  predicate Enumerates(order: seq<Permission>, ps: set<Permission>)
  {
    Distinct(order) && forall p :: p in order <==> p in ps
  }

  /** The authority strings of a set of permissions. */
  function AuthoritiesOf(ps: set<Permission>): set<string>
  {
    set p | p in ps :: Authority(p)
  }

  /**
   * The authorities of a role: "ROLE_" followed by the constant's name, then the
   * authority string of each of its permissions in the set's iteration order `order`.
   */
  function GetAuthorities(r: Role, order: seq<Permission>): (a: seq<string>)
    requires Enumerates(order, PermissionsOf(r))
    ensures |a| == 1 + |PermissionsOf(r)|
    ensures a[0] == "ROLE_" + Name(r)
    ensures (set s | s in a[1..]) == AuthoritiesOf(PermissionsOf(r))
    ensures Distinct(a[1..])
    ensures |a| == 1 + |order| && forall k :: 0 <= k < |order| ==> a[k + 1] == Authority(order[k])
  {
    DistinctCardinality(order);
    assert (set p | p in order) == PermissionsOf(r);
    var tail := seq(|order|, k requires 0 <= k < |order| => Authority(order[k]));
    assert Distinct(tail) by {
      forall i, j | 0 <= i < j < |tail| ensures tail[i] != tail[j] {
        AuthorityInjective(order[i], order[j]);
      }
    }
    assert (set s | s in tail) == AuthoritiesOf(PermissionsOf(r)) by {
      forall s | s in AuthoritiesOf(PermissionsOf(r)) ensures s in tail {
        var p :| p in PermissionsOf(r) && s == Authority(p);
        var k :| 0 <= k < |order| && order[k] == p;
        assert tail[k] == s;
      }
    }
    var a := ["ROLE_" + Name(r)] + tail;
    assert a[1..] == tail;
    a
  }

  /**
   * The check behind `hasAuthority(a)`: whatever the iteration order, a role has an
   * authority exactly when it is the role's own "ROLE_" name or one of its permissions.
   */
  predicate HasAuthority(r: Role, order: seq<Permission>, authority: string): (b: bool)
    requires Enumerates(order, PermissionsOf(r))
    ensures b <==> authority == "ROLE_" + Name(r) || authority in AuthoritiesOf(PermissionsOf(r))
  {
    var a := GetAuthorities(r, order);
    assert a == [a[0]] + a[1..];
    assert authority in a[1..] <==> authority in (set s | s in a[1..]);
    authority in a
  }

  /** USER has no permissions, so its only authority is "ROLE_USER". */
  lemma UserAuthorities(order: seq<Permission>)
    requires Enumerates(order, PermissionsOf(USER))
    ensures GetAuthorities(USER, order) == ["ROLE_USER"]
  {
    var a := GetAuthorities(USER, order);
    assert |a| == 1;
    assert a[0] == "ROLE_USER";
    assert a == [a[0]];
  }

  /** ROLE holds exactly the management permissions and ADMIN exactly the admin ones. */
  lemma PermissionsByScope(p: Permission)
    ensures p in PermissionsOf(ROLE) <==> ScopeOf(p) == Management
    ensures p in PermissionsOf(ADMIN) <==> ScopeOf(p) == Admin
    ensures p !in PermissionsOf(USER)
  {
  }

  /** The permission sets of ROLE and ADMIN share nothing, and neither do their authority strings. */
  lemma RoleAndAdminDisjoint()
    ensures PermissionsOf(ROLE) !! PermissionsOf(ADMIN)
    ensures AuthoritiesOf(PermissionsOf(ROLE)) !! AuthoritiesOf(PermissionsOf(ADMIN))
  {
    forall s | s in AuthoritiesOf(PermissionsOf(ROLE)) ensures s !in AuthoritiesOf(PermissionsOf(ADMIN)) {
      var p :| p in PermissionsOf(ROLE) && s == Authority(p);
      forall q | q in PermissionsOf(ADMIN) ensures Authority(q) != s {
        AuthorityInjective(p, q);
      }
    }
  }

  /** No permission string can be mistaken for a role authority. */
  lemma PermissionIsNotRoleAuthority(p: Permission, r: Role)
    ensures Authority(p) != "ROLE_" + Name(r)
  {
    AuthorityIsScopeAndAction(p);
    assert Authority(p)[0] in "am";
    assert ("ROLE_" + Name(r))[0] == 'R';
  }

  /** Only ADMIN carries "ROLE_ADMIN": the `hasAuthority('ROLE_ADMIN')` guards admit exactly ADMIN. */
  lemma AdminGuard(r: Role, order: seq<Permission>)
    requires Enumerates(order, PermissionsOf(r))
    ensures HasAuthority(r, order, "ROLE_ADMIN") <==> r == ADMIN
  {
    assert "ROLE_ADMIN" == "ROLE_" + Name(ADMIN);
    if r != ADMIN {
      assert "ROLE_" + Name(r) != "ROLE_ADMIN" by {
        assert ("ROLE_" + Name(r))[5] != 'A' || |"ROLE_" + Name(r)| != |"ROLE_ADMIN"|;
      }
      forall s | s in AuthoritiesOf(PermissionsOf(r)) ensures s != "ROLE_ADMIN" {
        var p :| p in PermissionsOf(r) && s == Authority(p);
        PermissionIsNotRoleAuthority(p, ADMIN);
      }
    }
  }
}
