/** Discovery of the four reviewed resources by their CDK path. */
module Roles {
  import opened Text
  import opened Json

  datatype Role = WebTask | WorkerTask | WebService | WorkerService

  predicate IsTask(r: Role) { r.WebTask? || r.WorkerTask? }

  const AllRoles: set<Role> := {WebTask, WorkerTask, WebService, WorkerService}

  const STACK_SUFFIX := "-app-v2"

  /** `_stack_prefix` accepts the name. */
  predicate LegalStack(stack: string) {
    EndsWith(stack, STACK_SUFFIX) && stack != STACK_SUFFIX
  }

  function RoleSuffix(r: Role): string {
    match r
    case WebTask => "-web-td/Resource"
    case WorkerTask => "-worker-td/Resource"
    case WebService => "-web-svc/Service"
    case WorkerService => "-worker-svc/Service"
  }

  /** The CDK path of a role's resource. */
  function RolePath(stack: string, r: Role): string
    requires LegalStack(stack)
  {
    stack + "/" + DropRight(stack, |STACK_SUFFIX|) + RoleSuffix(r)
  }

  /** `_expected_paths`. */
  function ExpectedPaths(stack: string): map<string, Role>
    requires LegalStack(stack)
  {
    map[RolePath(stack, WebTask) := WebTask,
        RolePath(stack, WorkerTask) := WorkerTask,
        RolePath(stack, WebService) := WebService,
        RolePath(stack, WorkerService) := WorkerService]
  }

  /** No two roles share a path, so no entry of the path table is overwritten. */
  lemma RolePathsDistinct(stack: string, r: Role, r': Role)
    requires LegalStack(stack)
    ensures RolePath(stack, r) == RolePath(stack, r') ==> r == r'
    ensures RolePath(stack, r) in ExpectedPaths(stack) && ExpectedPaths(stack)[RolePath(stack, r)] == r
  {
    SuffixesDiffer(stack);
    hide RolePath, LegalStack;
  }

  lemma SuffixesDiffer(stack: string)
    requires LegalStack(stack)
    ensures forall r, r' :: r != r' ==> RolePath(stack, r) != RolePath(stack, r')
  {
    hide RoleSuffix;
    var lead := stack + "/" + DropRight(stack, |STACK_SUFFIX|);
    forall r, r' | r != r' ensures RolePath(stack, r) != RolePath(stack, r') {
      assert RolePath(stack, r)[|lead|..] == RoleSuffix(r) && RolePath(stack, r')[|lead|..] == RoleSuffix(r');
      SuffixesDistinct(r, r');
    }
  }

  lemma SuffixesDistinct(r: Role, r': Role)
    requires r != r'
    ensures RoleSuffix(r) != RoleSuffix(r')
  {
    assert "-web-td/Resource"[2] == 'e' && "-worker-td/Resource"[2] == 'o';
    assert "-web-svc/Service"[2] == 'e' && "-worker-svc/Service"[2] == 'o';
    assert "-web-td/Resource"[5] == 't' && "-web-svc/Service"[5] == 's';
    assert "-worker-td/Resource"[8] == 't' && "-worker-svc/Service"[8] == 's';
  }

  /** The role a resource's metadata claims, if any. */
  function ClaimedRole(resource: Json, stack: string): Option<Role>
    requires LegalStack(stack)
  {
    var path := Get(Get(resource, "Metadata"), "aws:cdk:path");
    if path.Str? && path.s in ExpectedPaths(stack) then Some(ExpectedPaths(stack)[path.s]) else None
  }

  function TypeOfRole(r: Role): string {
    if IsTask(r) then "AWS::ECS::TaskDefinition" else "AWS::ECS::Service"
  }

  predicate RightType(resource: Json, r: Role) {
    Get(resource, "Type") == Str(TypeOfRole(r))
  }

  /** The logical ids that claim a role. */
  function Claims(resources: map<string, Json>, stack: string): map<string, Role>
    requires LegalStack(stack)
  {
    map id | id in resources && ClaimedRole(resources[id], stack).Some? :: ClaimedRole(resources[id], stack).value
  }

  ghost predicate Injective(roles: map<string, Role>) {
    forall a, b :: a in roles && b in roles && roles[a] == roles[b] ==> a == b
  }

  /** What role discovery promises: all resources are objects, each role is claimed by
      exactly one of them, of the right type. */
  ghost predicate ResourcesIdentified(resources: map<string, Json>, stack: string)
    requires LegalStack(stack)
  {
    var claims := Claims(resources, stack);
    && (forall id <- resources :: resources[id].Obj?)
    && (forall id <- claims :: RightType(resources[id], claims[id]))
    && Injective(claims)
    && claims.Values == AllRoles
  }

  /** The roles of a template, by logical id; None where the program rejects. */
  ghost function RolesOf(template: Json, stack: string): (r: Option<map<string, Role>>)
    ensures r.Some? ==> Injective(r.value) && r.value.Values == AllRoles
  {
    var resources := Get(template, "Resources");
    if !resources.Obj? || resources.m == map[] || !LegalStack(stack) then None
    else if ResourcesIdentified(resources.m, stack) then Some(Claims(resources.m, stack))
    else None
  }

  /** The claims found among the first resources of a dict, as long as nothing was rejected. */
  ghost predicate FoundAmong(seen: seq<string>, m: map<string, Json>, claims: map<string, Role>,
                             found: map<string, Role>)
  {
    && (forall id <- seen :: id in m && m[id].Obj?)
    && (forall id :: id in found <==> id in seen && id in claims)
    && (forall id <- found :: found[id] == claims[id] && id in m && RightType(m[id], claims[id]))
    && Injective(found)
  }

  lemma ClaimOf(m: map<string, Json>, stack: string, id: string)
    requires LegalStack(stack) && id in m
    ensures var path := Get(Get(m[id], "Metadata"), "aws:cdk:path");
            if path.Str? && path.s in ExpectedPaths(stack)
            then id in Claims(m, stack) && Claims(m, stack)[id] == ExpectedPaths(stack)[path.s]
            else id !in Claims(m, stack)
  {
    hide ExpectedPaths, LegalStack;
  }

  lemma AllFound(order: seq<string>, m: map<string, Json>, stack: string, found: map<string, Role>)
    requires LegalStack(stack)
    requires forall id :: id in order <==> id in m
    requires FoundAmong(order, m, Claims(m, stack), found)
    ensures found == Claims(m, stack)
    ensures ResourcesIdentified(m, stack) <==> found.Values == AllRoles
  {
    hide ExpectedPaths, LegalStack, RightType, ClaimedRole;
    assert found.Keys == Claims(m, stack).Keys;
  }

  /** Each way the pass gives up is a way identification fails. */
  lemma Rejections(m: map<string, Json>, stack: string, id: string)
    requires LegalStack(stack) && id in m
    ensures !m[id].Obj? ==> !ResourcesIdentified(m, stack)
    ensures id in Claims(m, stack) && !RightType(m[id], Claims(m, stack)[id]) ==> !ResourcesIdentified(m, stack)
    ensures forall other ::
              (other in Claims(m, stack) && id in Claims(m, stack) && other != id &&
               Claims(m, stack)[id] == Claims(m, stack)[other]) ==> !ResourcesIdentified(m, stack)
  {
    hide Claims, LegalStack, RightType;
  }

  lemma FoundNext(seen: seq<string>, id: string, m: map<string, Json>, claims: map<string, Role>,
                  found: map<string, Role>)
    requires FoundAmong(seen, m, claims, found)
    requires id !in seen && id in m && m[id].Obj?
    ensures id !in claims ==> FoundAmong(seen + [id], m, claims, found)
    ensures id in claims && RightType(m[id], claims[id]) && claims[id] !in found.Values ==>
              FoundAmong(seen + [id], m, claims, found[id := claims[id]])
  {
    hide RightType;
  }

  /** `_roles_by_logical_id`: one pass over the resources in insertion order. */
  method FindRoles(template: Json, stack: string) returns (r: Option<map<string, Role>>)
    requires Wf(template)
    ensures r == RolesOf(template, stack)
  {
    hide ExpectedPaths, TypeOfRole, LegalStack, Claims, ClaimedRole, FoundAmong, ResourcesIdentified;
    var resources := Get(template, "Resources");
    if !resources.Obj? || resources.m == map[] { return None; }
    if !LegalStack(stack) { return None; }
    var m, order := resources.m, resources.order;
    var expected := ExpectedPaths(stack);
    var found: map<string, Role> := map[];
    ghost var claims := Claims(m, stack);
    NothingFound(m, claims);
    var n := 0;
    while n < |order|
      invariant 0 <= n <= |order|
      invariant FoundAmong(order[..n], m, claims, found)
    {
      var id := order[n];
      var resource := m[id];
      Rejections(m, stack, id);
      if !resource.Obj? { return None; }
      ClaimOf(m, stack, id);
      FoundNext(order[..n], id, m, claims, found);
      assert order[..n + 1] == order[..n] + [id];
      var path := Get(Get(resource, "Metadata"), "aws:cdk:path");
      if path.Str? && path.s in expected {
        var role := expected[path.s];
        if role in found.Values {
          FoundEarlier(order[..n], m, claims, found, role);
          return None;
        }
        if Get(resource, "Type") != Str(TypeOfRole(role)) { return None; }
        found := found[id := role];
      }
      n := n + 1;
    }
    assert order[..n] == order;
    AllFound(order, m, stack, found);
    if exists role :: role in AllRoles && role !in found.Values { return None; }
    OnlyFourRoles(found);
    r := Some(found);
  }

  lemma NothingFound(m: map<string, Json>, claims: map<string, Role>)
    ensures FoundAmong([], m, claims, map[])
  {
  }

  lemma FoundEarlier(seen: seq<string>, m: map<string, Json>, claims: map<string, Role>, found: map<string, Role>,
                     role: Role)
    requires FoundAmong(seen, m, claims, found) && role in found.Values
    ensures exists other :: other in claims && other in seen && claims[other] == role
  {
    var other :| other in found && found[other] == role;
  }

  lemma OnlyFourRoles(found: map<string, Role>)
    ensures (forall role <- AllRoles :: role in found.Values) <==> found.Values == AllRoles
  {
    forall role: Role ensures role in AllRoles {
      match role case WebTask => case WorkerTask => case WebService => case WorkerService =>
    }
  }

  // ---------------------------------------------------------------- the inverse table

  /** `{role: logical_id for logical_id, role in roles.items()}`. */
  function LogicalByRole(roles: map<string, Role>): map<Role, string>
    requires Injective(roles)
  {
    map id | id in roles :: roles[id] := id
  }

  lemma RolesAreClaims(template: Json, stack: string)
    requires RolesOf(template, stack).Some?
    ensures var resources := Get(template, "Resources");
            && LegalStack(stack) && resources.Obj? && RolesOf(template, stack).value == Claims(resources.m, stack)
            && ResourcesIdentified(resources.m, stack)
    ensures Injective(RolesOf(template, stack).value) && RolesOf(template, stack).value.Values == AllRoles
  {
    hide ExpectedPaths, TypeOfRole, LegalStack, Claims;
  }

  /** Role discovery yields a bijection with the four roles, and the inverse table is its
      inverse on both sides. */
  lemma RolesAreABijection(template: Json, stack: string)
    requires RolesOf(template, stack).Some?
    ensures var roles := RolesOf(template, stack).value;
            && Injective(roles)
            && LogicalByRole(roles).Keys == AllRoles
            && (forall id <- roles :: LogicalByRole(roles)[roles[id]] == id)
            && (forall r <- AllRoles :: LogicalByRole(roles)[r] in roles && roles[LogicalByRole(roles)[r]] == r)
  {
    hide RolesOf, LegalStack, ExpectedPaths, RightType, ClaimedRole, TypeOfRole;
    var roles := RolesOf(template, stack).value;
    RolesAreClaims(template, stack);
    var byRole := LogicalByRole(roles);
    assert byRole.Keys == roles.Values;
    forall r <- AllRoles ensures byRole[r] in roles && roles[byRole[r]] == r {
      assert r in byRole.Keys;
    }
  }

  // ---------------------------------------------------------------- key order

  lemma ClaimedRoleCanon(resource: Json, stack: string)
    requires LegalStack(stack)
    ensures ClaimedRole(Canon(resource), stack) == ClaimedRole(resource, stack)
    ensures forall r :: RightType(Canon(resource), r) == RightType(resource, r)
  {
    hide Canon, ExpectedPaths;
    GetCanon(resource, "Metadata");
    GetCanon(Get(resource, "Metadata"), "aws:cdk:path");
    GetCanon(resource, "Type");
    CanonFacts(Get(Get(resource, "Metadata"), "aws:cdk:path"));
    CanonFacts(Get(resource, "Type"));
  }

  /** Role discovery does not depend on the order of any dict's keys. */
  lemma RolesIgnoreOrder(template: Json, stack: string)
    ensures RolesOf(Canon(template), stack) == RolesOf(template, stack)
  {
    hide ExpectedPaths, TypeOfRole, LegalStack, ClaimedRole, RightType;
    GetCanon(template, "Resources");
    var resources := Get(template, "Resources");
    CanonFacts(resources);
    if resources.Obj? && resources.m != map[] && LegalStack(stack) {
      var m, n := resources.m, Canon(resources).m;
      forall id <- m
        ensures n[id].Obj? == m[id].Obj? && ClaimedRole(n[id], stack) == ClaimedRole(m[id], stack)
        ensures forall r :: RightType(n[id], r) == RightType(m[id], r)
      {
        assert n[id] == Canon(m[id]);
        CanonFacts(m[id]);
        ClaimedRoleCanon(m[id], stack);
      }
      SameResources(m, n, stack);
    }
  }

  lemma SameResources(m: map<string, Json>, n: map<string, Json>, stack: string)
    requires LegalStack(stack) && m.Keys == n.Keys
    requires forall id <- m :: n[id].Obj? == m[id].Obj? && ClaimedRole(n[id], stack) == ClaimedRole(m[id], stack)
    requires forall id <- m, r :: RightType(n[id], r) == RightType(m[id], r)
    ensures Claims(m, stack) == Claims(n, stack)
    ensures ResourcesIdentified(m, stack) == ResourcesIdentified(n, stack)
  {
    hide ClaimedRole, LegalStack, RightType;
  }
}
