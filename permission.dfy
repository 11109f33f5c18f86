/**
 * The permission enumeration: eight constants, each carrying one authority string.
 */
module Permissions {

  datatype Permission =
    | ADMIN_READ | ADMIN_UPDATE | ADMIN_CREATE | ADMIN_DELETE
    | ROLE_READ | ROLE_UPDATE | ROLE_CREATE | ROLE_DELETE

  /** The authority string each constant is declared with (the `permission` field). */
  function Authority(p: Permission): string
  {
    match p
    case ADMIN_READ => "admin:read"
    case ADMIN_UPDATE => "admin:update"
    case ADMIN_CREATE => "admin:create"
    case ADMIN_DELETE => "admin:delete"
    case ROLE_READ => "management:read"
    case ROLE_UPDATE => "management:update"
    case ROLE_CREATE => "management:create"
    case ROLE_DELETE => "management:delete"
  }

  /** Every constant of the enumeration. */
  function AllPermissions(): set<Permission>
  {
    {ADMIN_READ, ADMIN_UPDATE, ADMIN_CREATE, ADMIN_DELETE,
     ROLE_READ, ROLE_UPDATE, ROLE_CREATE, ROLE_DELETE}
  }

  /** The enumeration has exactly eight constants. */
  lemma EightConstants()
    ensures forall p: Permission :: p in AllPermissions()
    ensures |AllPermissions()| == 8
  {
    forall p: Permission ensures p in AllPermissions() {
      match p
      case ADMIN_READ =>
      case ADMIN_UPDATE =>
      case ADMIN_CREATE =>
      case ADMIN_DELETE =>
      case ROLE_READ =>
      case ROLE_UPDATE =>
      case ROLE_CREATE =>
      case ROLE_DELETE =>
    }
  }

  // An independent reading of the table: a scope (which constants are ADMIN_ and which ROLE_)
  // and an action (the constant's suffix).

  datatype Scope = Admin | Management
  datatype Action = Read | Update | Create | Delete

  function ScopeOf(p: Permission): Scope
  {
    if p in {ADMIN_READ, ADMIN_UPDATE, ADMIN_CREATE, ADMIN_DELETE} then Admin else Management
  }

  function ActionOf(p: Permission): Action
  {
    if p in {ADMIN_READ, ROLE_READ} then Read
    else if p in {ADMIN_UPDATE, ROLE_UPDATE} then Update
    else if p in {ADMIN_CREATE, ROLE_CREATE} then Create
    else Delete
  }

  function ScopeName(s: Scope): string
  {
    match s
    case Admin => "admin"
    case Management => "management"
  }

  function ActionName(a: Action): string
  {
    match a
    case Read => "read"
    case Update => "update"
    case Create => "create"
    case Delete => "delete"
  }

  /** Each ADMIN_X maps to "admin:" + x and each ROLE_X to "management:" + x. */
  lemma AuthorityIsScopeAndAction(p: Permission)
    ensures Authority(p) == ScopeName(ScopeOf(p)) + ":" + ActionName(ActionOf(p))
    ensures ActionName(ActionOf(p)) in {"read", "update", "create", "delete"}
  {
  }

  /** Distinct constants carry distinct authority strings. */
  lemma AuthorityInjective(p: Permission, q: Permission)
    requires p != q
    ensures Authority(p) != Authority(q)
  {
    AuthorityIsScopeAndAction(p);
    AuthorityIsScopeAndAction(q);
  }
}
