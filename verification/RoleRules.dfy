/** Role discovery against the texts it looks for, written out. */
module RoleRules {
  import opened Text
  import opened Json
  import opened Roles

  /** The CDK path of a role's resource in the stack `{p}-app-v2`. */
  function WrittenPath(p: string, r: Role): string {
    match r
    case WebTask => p + "-app-v2/" + p + "-web-td/Resource"
    case WorkerTask => p + "-app-v2/" + p + "-worker-td/Resource"
    case WebService => p + "-app-v2/" + p + "-web-svc/Service"
    case WorkerService => p + "-app-v2/" + p + "-worker-svc/Service"
  }

  function WrittenType(r: Role): string {
    match r
    case WebTask => "AWS::ECS::TaskDefinition"
    case WorkerTask => "AWS::ECS::TaskDefinition"
    case WebService => "AWS::ECS::Service"
    case WorkerService => "AWS::ECS::Service"
  }

  /** The names a stack may have: something, then `-app-v2`. */
  lemma StackNames(stack: string)
    ensures LegalStack(stack) <==> exists p :: p != "" && stack == p + "-app-v2"
  {
    if p :| p != "" && stack == p + "-app-v2" {
      EndsWithConcat(p, "-app-v2");
      assert |stack| > 7;
    }
    if LegalStack(stack) {
      var p := stack[..|stack| - 7];
      assert stack == p + "-app-v2";
      assert p != "";
    }
  }

  /** What stands before `-app-v2`. */
  function PrefixOf(stack: string): string
    requires LegalStack(stack)
  {
    stack[..|stack| - 7]
  }

  lemma PrefixIsBefore(stack: string)
    requires LegalStack(stack)
    ensures PrefixOf(stack) != "" && stack == PrefixOf(stack) + "-app-v2"
  {
  }

  lemma PathsWritten(p: string, r: Role)
    requires p != ""
    ensures LegalStack(p + "-app-v2") && RolePath(p + "-app-v2", r) == WrittenPath(p, r)
    ensures TypeOfRole(r) == WrittenType(r)
  {
    hide LegalStack;
    var stack := p + "-app-v2";
    StackNames(stack);
    assert DropRight(stack, 7) == p;
    assert stack + "/" + p == p + "-app-v2/" + p;
    match r
    case WebTask => assert p + "-app-v2/" + p + "-web-td/Resource" == (p + "-app-v2/" + p) + RoleSuffix(r);
    case WorkerTask => assert p + "-app-v2/" + p + "-worker-td/Resource" == (p + "-app-v2/" + p) + RoleSuffix(r);
    case WebService => assert p + "-app-v2/" + p + "-web-svc/Service" == (p + "-app-v2/" + p) + RoleSuffix(r);
    case WorkerService => assert p + "-app-v2/" + p + "-worker-svc/Service" == (p + "-app-v2/" + p) + RoleSuffix(r);
  }

  /** The resource carries the CDK path of this role. */
  ghost predicate Carries(resource: Json, p: string, r: Role) {
    Get(Get(resource, "Metadata"), "aws:cdk:path") == Str(WrittenPath(p, r))
  }

  lemma ClaimIff(resource: Json, p: string, r: Role)
    requires p != ""
    ensures LegalStack(p + "-app-v2")
    ensures ClaimedRole(resource, p + "-app-v2") == Some(r) <==> Carries(resource, p, r)
  {
    hide RolePath, LegalStack, WrittenPath;
    var stack := p + "-app-v2";
    PathsWritten(p, r);
    forall q: Role
      ensures LegalStack(stack) && RolePath(stack, q) == WrittenPath(p, q)
      ensures RolePath(stack, q) in ExpectedPaths(stack) && ExpectedPaths(stack)[RolePath(stack, q)] == q
    {
      PathsWritten(p, q);
      RolePathsDistinct(stack, q, q);
    }
  }

  /** The resource holds the role whose path it carries, and none if it carries none. */
  ghost predicate HeldAsCarried(m: map<string, Json>, p: string, roles: map<string, Role>, id: string)
    requires id in m
  {
    forall r :: Carries(m[id], p, r) <==> id in roles && roles[id] == r
  }

  /** These roles are what the resources say: each resource that carries a role's path holds that
      role and has its type, and every role is held by exactly one. */
  ghost predicate WrittenRoles(resources: Json, p: string, roles: map<string, Role>) {
    && resources.Obj?
    && (forall id <- resources.m :: resources.m[id].Obj?)
    && roles.Keys <= resources.m.Keys
    && (forall id <- resources.m :: HeldAsCarried(resources.m, p, roles, id))
    && (forall id <- roles :: Get(resources.m[id], "Type") == Str(WrittenType(roles[id])))
    && (forall r: Role :: r in roles.Values)
    && (forall a, b :: a in roles && b in roles && roles[a] == roles[b] ==> a == b)
  }

  lemma ClaimsIff(m: map<string, Json>, p: string, roles: map<string, Role>)
    requires p != ""
    ensures LegalStack(p + "-app-v2")
    ensures Claims(m, p + "-app-v2") == roles <==>
            roles.Keys <= m.Keys && forall id <- m :: HeldAsCarried(m, p, roles, id)
  {
    hide LegalStack, Carries, ClaimedRole;
    var stack := p + "-app-v2";
    PathsWritten(p, WebTask);
    var claims := Claims(m, stack);
    forall id <- m
      ensures HeldAsCarried(m, p, roles, id) <==>
              (id in claims <==> id in roles) && (id in roles && id in claims ==> claims[id] == roles[id])
    {
      forall r ensures ClaimedRole(m[id], stack) == Some(r) <==> Carries(m[id], p, r) { ClaimIff(m[id], p, r); }
      if HeldAsCarried(m, p, roles, id) {
        if id in claims { assert Carries(m[id], p, claims[id]); }
        if id in roles { assert Carries(m[id], p, roles[id]); }
      }
    }
    if roles.Keys <= m.Keys && forall id <- m :: HeldAsCarried(m, p, roles, id) {
      assert claims.Keys == roles.Keys;
    }
  }

  lemma EveryRole(roles: map<string, Role>)
    ensures roles.Values == AllRoles <==> forall r: Role :: r in roles.Values
  {
    forall r: Role ensures r in AllRoles {
      match r case WebTask => case WorkerTask => case WebService => case WorkerService =>
    }
  }

  /** Discovery in the stack `{p}-app-v2` finds exactly these roles if and only if they are what
      the resources say, in the words of the CDK paths and types themselves. */
  lemma RolesWritten(template: Json, p: string, roles: map<string, Role>)
    requires p != ""
    ensures RolesOf(template, p + "-app-v2") == Some(roles) <==> WrittenRoles(Get(template, "Resources"), p, roles)
  {
    hide LegalStack, HeldAsCarried, ClaimedRole, WrittenPath, TypeOfRole, WrittenType, Claims;
    var stack, resources := p + "-app-v2", Get(template, "Resources");
    forall r: Role ensures LegalStack(stack) && TypeOfRole(r) == WrittenType(r) { PathsWritten(p, r); }
    EveryRole(roles);
    if resources.Obj? {
      ClaimsIff(resources.m, p, roles);
      if resources.m == map[] { assert roles.Keys <= resources.m.Keys ==> WebTask !in roles.Values; }
    }
  }

  /** No other stack name finds anything. */
  lemma OtherStacksRefused(template: Json, stack: string)
    requires !exists p :: p != "" && stack == p + "-app-v2"
    ensures RolesOf(template, stack) == None
  {
    StackNames(stack);
  }
}
