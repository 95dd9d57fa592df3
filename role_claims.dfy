/** The claim set a token is issued with: the account's identity and its roles. */
module RoleClaimsExtension {
  import opened Wrappers
  import opened Models

  /** `ClaimTypes.Name` and `ClaimTypes.Role`. */
  datatype ClaimType = NameClaim | RoleClaim

  datatype Claim = Claim(kind: ClaimType, value: string)

  /** `roles.Select(role => new Claim(ClaimTypes.Role, role.Slug))`. */
  function RoleClaims(roles: seq<Role>): (r: seq<Claim>)
    ensures |r| == |roles|
    ensures forall i :: 0 <= i < |roles| ==> r[i] == Claim(RoleClaim, roles[i].slug)
  {
    if roles == [] then [] else [Claim(RoleClaim, roles[0].slug)] + RoleClaims(roles[1..])
  }

  /** The number of roles a user's association holds; none when it was not loaded. */
  function RoleCount(user: User): nat {
    if user.roles.Some? then |user.roles.value| else 0
  }

  /**
   * `GetClaims`: the Name claim for the e-mail first, then one Role claim per
   * role, in the association's order; just the Name claim when the roles are
   * null.
   */
  function GetClaims(user: User): (r: seq<Claim>)
    ensures |r| == 1 + RoleCount(user)
    ensures r[0] == Claim(NameClaim, user.email)
    ensures user.roles.None? ==> r == [Claim(NameClaim, user.email)]
    ensures user.roles.Some? ==>
              forall i :: 0 <= i < |user.roles.value| ==> r[i + 1] == Claim(RoleClaim, user.roles.value[i].slug)
  {
    var result := [Claim(NameClaim, user.email)];
    if user.roles.Some? then result + RoleClaims(user.roles.value) else result
  }

  /** Exactly one claim is a Name claim; every other one is a Role claim. */
  lemma ExactlyOneNameClaim(user: User)
    ensures forall i :: 0 < i < |GetClaims(user)| ==> GetClaims(user)[i].kind == RoleClaim
  {
    var r := GetClaims(user);
    forall i | 0 < i < |r| ensures r[i].kind == RoleClaim {
      assert r[(i - 1) + 1].kind == RoleClaim;
    }
  }

  /** Duplicate role slugs are kept: two roles with one slug give two equal Role claims. */
  lemma DuplicateRolesKept(email: string, name: string, slug: string, r1: Role, r2: Role)
    requires r1.slug == r2.slug
    ensures GetClaims(User(name, email, slug, None, Some([r1, r2]))) ==
              [Claim(NameClaim, email), Claim(RoleClaim, r1.slug), Claim(RoleClaim, r1.slug)]
  {
    var r := GetClaims(User(name, email, slug, None, Some([r1, r2])));
    assert r[1] == Claim(RoleClaim, [r1, r2][0].slug);
    assert r[2] == Claim(RoleClaim, [r1, r2][1].slug);
  }
}
