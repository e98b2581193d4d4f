/** The closed role enumeration `UserRole` and the parsing of role
    literals that `UserServiceImplementation.isValidRole` and
    `convertToEntity` perform with `UserRole.valueOf(role.toUpperCase())`. */
module Roles {
  import opened Common

  datatype Role = Root | Admin | User

  /** `UserRole.name()`: the constant names, which are also the granted
      authority strings. */
  function Name(r: Role): string {
    match r
    case Root => "ROLE_ROOT"
    case Admin => "ROLE_ADMIN"
    case User => "ROLE_USER"
  }

  /** `UserRole.valueOf(s.toUpperCase())`, with `None` for the
      `IllegalArgumentException` that `valueOf` throws on an unknown name. */
  function ParseRole(s: string): (r: Option<Role>)
    ensures r.Some? ==> Upper(s) == Name(r.value)
    ensures r.None? ==> forall role: Role :: Upper(s) != Name(role)
  {
    var u := Upper(s);
    if u == Name(Root) then Some(Root)
    else if u == Name(Admin) then Some(Admin)
    else if u == Name(User) then Some(User)
    else None
  }

  /** `isValidRole`: `null` is invalid, otherwise the literal must parse. */
  predicate IsValidRole(role: Option<string>): (b: bool)
    ensures b <==> role.Some? && exists r: Role :: Upper(role.value) == Name(r)
  {
    role.Some? && ParseRole(role.value).Some?
  }

  /** Distinct roles have distinct names, so a name determines its role. */
  lemma NameInjective(a: Role, b: Role)
    ensures Name(a) == Name(b) <==> a == b
  {
    if a != b {
      assert Name(a)[5] != Name(b)[5];
    }
  }

  /** A literal parses to `r` exactly when its upper-cased form is the full
      constant name of `r`: `"role_admin"` is accepted, `"ADMIN"` is not. */
  lemma ParseRoleIff(s: string, r: Role)
    ensures ParseRole(s) == Some(r) <==> Upper(s) == Name(r)
  {
    if Upper(s) == Name(r) {
      match ParseRole(s)
      case Some(q) => NameInjective(q, r);
      case None =>
    }
  }

  /** The constant names are already upper case. */
  lemma UpperOfName(r: Role)
    ensures Upper(Name(r)) == Name(r)
  {
    var n := Name(r);
    assert forall i :: 0 <= i < |n| ==> UpperChar(n[i]) == n[i];
  }

  /** Every constant name parses back to its constant. */
  lemma {:induction false} NameParses(r: Role)
    ensures ParseRole(Name(r)) == Some(r)
  {
    UpperOfName(r);
    ParseRoleIff(Name(r), r);
  }

  /** The privilege order ROOT > ADMIN > USER. */
  function Rank(r: Role): nat {
    match r
    case Root => 2
    case Admin => 1
    case User => 0
  }

  /** The reference rule for managing another account: the requester must
      strictly outrank the target. */
  predicate Outranks(requester: Role, target: Role) {
    Rank(requester) > Rank(target)
  }

  /** What the strict order means for the three roles: a USER manages
      nobody, nobody manages ROOT or a peer, and only ROOT manages ADMIN. */
  lemma OutranksTable(q: Role, t: Role)
    ensures !Outranks(User, t) && !Outranks(q, Root) && !Outranks(q, q)
    ensures Outranks(q, Admin) <==> q == Root
    ensures Outranks(q, User) <==> q != User
  {
  }

  /** The short forms that the role set is usually written with are rejected. */
  lemma ShortNamesRejected()
    ensures ParseRole("ROOT").None? && ParseRole("ADMIN").None? && ParseRole("USER").None?
  {
    assert |Upper("ROOT")| == 4 && |Upper("ADMIN")| == 5 && |Upper("USER")| == 4;
  }
}
