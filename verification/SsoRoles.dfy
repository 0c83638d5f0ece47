// auth.service.ts, rolesFromSsoGroups: the roles of an account created by an SSO login.
module SsoRoles {
  type Role = string

  /** What is added to the set, in order. */
  function Additions(groups: seq<string>, mapping: map<string, seq<Role>>): seq<Role> {
    if groups == [] then []
    else
      var g := groups[|groups| - 1];
      Additions(groups[..|groups| - 1], mapping) + (if g in mapping then mapping[g] else [])
  }

  /** What a set holds after these additions, in insertion order. */
  function Distinct(roles: seq<Role>): seq<Role> {
    if roles == [] then []
    else
      var before, r := Distinct(roles[..|roles| - 1]), roles[|roles| - 1];
      if r in before then before else before + [r]
  }

  function Defaults(defaultRoles: seq<Role>): seq<Role> {
    if |defaultRoles| > 0 then defaultRoles else ["EMPLOYEE"]
  }

  lemma DistinctMore(roles: seq<Role>, r: Role)
    ensures Distinct(roles + [r]) == if r in Distinct(roles) then Distinct(roles) else Distinct(roles) + [r]
  {
    assert (roles + [r])[..|roles|] == roles;
  }

  method AddAll(roles: seq<Role>, more: seq<Role>, ghost added: seq<Role>) returns (all: seq<Role>)
    requires roles == Distinct(added)
    ensures all == Distinct(added + more)
  {
    all := roles;
    assert added + more[..0] == added;
    for i := 0 to |more|
      invariant all == Distinct(added + more[..i])
    {
      DistinctMore(added + more[..i], more[i]);
      assert added + more[..i] + [more[i]] == added + more[..i + 1];
      if more[i] !in all {
        all := all + [more[i]];
      }
    }
    assert more[..|more|] == more;
  }

  lemma NothingDistinct()
    ensures Distinct([]) == []
  {
  }

  method RolesFromSsoGroups(groups: seq<string>, defaultRoles: seq<Role>, mapping: map<string, seq<Role>>)
    returns (roles: seq<Role>)
    ensures roles == Distinct(Defaults(defaultRoles) + Additions(groups, mapping))
  {
    hide Distinct;
    ghost var base := Defaults(defaultRoles);
    assert Distinct([]) == [] by { NothingDistinct(); }
    roles := AddAll([], Defaults(defaultRoles), []);
    assert [] + base == base;
    assert base + Additions(groups[..0], mapping) == base;
    for i := 0 to |groups|
      invariant roles == Distinct(base + Additions(groups[..i], mapping))
    {
      assert groups[..i + 1][..i] == groups[..i];
      var mapped := if groups[i] in mapping then mapping[groups[i]] else [];
      roles := AddAll(roles, mapped, base + Additions(groups[..i], mapping));
      assert base + Additions(groups[..i], mapping) + mapped == base + Additions(groups[..i + 1], mapping);
    }
    assert groups[..|groups|] == groups;
  }

  /** A role is granted exactly when it is a default or some group of the user maps to it, and
      it is granted once. */
  lemma GrantedIff(groups: seq<string>, defaultRoles: seq<Role>, mapping: map<string, seq<Role>>, r: Role)
    ensures var roles := Distinct(Defaults(defaultRoles) + Additions(groups, mapping));
            && (r in roles <==>
                  || (if defaultRoles == [] then r == "EMPLOYEE" else r in defaultRoles)
                  || exists g :: g in groups && g in mapping && r in mapping[g])
            && forall i, j :: 0 <= i < j < |roles| ==> roles[i] != roles[j]
  {
    DistinctIsSet(Defaults(defaultRoles) + Additions(groups, mapping), r);
    AdditionsIff(groups, mapping, r);
  }

  lemma {:induction false} DistinctIsSet(roles: seq<Role>, r: Role)
    ensures r in Distinct(roles) <==> r in roles
    ensures forall i, j :: 0 <= i < j < |Distinct(roles)| ==> Distinct(roles)[i] != Distinct(roles)[j]
    decreases |roles|
  {
    if roles != [] {
      DistinctIsSet(roles[..|roles| - 1], r);
      DistinctIsSet(roles[..|roles| - 1], roles[|roles| - 1]);
    }
  }

  lemma {:induction false} AdditionsIff(groups: seq<string>, mapping: map<string, seq<Role>>, r: Role)
    ensures r in Additions(groups, mapping) <==> exists g :: g in groups && g in mapping && r in mapping[g]
    decreases |groups|
  {
    if groups != [] {
      var before, last := groups[..|groups| - 1], groups[|groups| - 1];
      AdditionsIff(before, mapping, r);
      assert forall g :: g in groups <==> g in before || g == last;
    }
  }
}
