/** The permission snapshot (resource/biz/casbin_rule.go, resource/biz/base_tenant.go, the phases of
    resource/resource.go).

    Roles name menus, menus name API operations, operations are looked up among the APIs. The rule
    snapshot is the join of the three. At start-up the menus of the template role are first copied to
    every role with its code. `PermissionCase` goes through the steps on its fields; the functions
    above it say what each step does, and the lemmas below what the result means. */
module Permissions {
  import opened Common

  const SUPER: string := "super"
  const TENANT: string := "tenant"

  datatype Role = Role(id: int, tenantId: int, code: string, menus: string)
  datatype Tenant = Tenant(id: int, code: string)
  datatype Menu = Menu(id: int, api: string)
  datatype Api = Api(operation: string, verb: string)
  datatype Policy = Policy(ptype: string, v0: string, v1: string, v2: string, v3: string, v4: string)

  /** The JSON columns: a role's menu ids and a menu's operations. */
  datatype Decode = Decode(menuIds: string -> seq<int>, operations: string -> seq<string>)

  // ----- the three indexes, each over the first n records -----

  /** A later tenant of the same id replaces an earlier one. */
  function TenantCode(tenants: seq<Tenant>, n: nat, id: int): Option<string>
    requires n <= |tenants|
  {
    if n == 0 then None
    else if tenants[n - 1].id == id then Some(tenants[n - 1].code)
    else TenantCode(tenants, n - 1, id)
  }

  /** A later menu of the same id replaces an earlier one; an unknown menu has no operations. */
  function MenuOperations(de: Decode, menus: seq<Menu>, n: nat, id: int): seq<string>
    requires n <= |menus|
  {
    if n == 0 then []
    else if menus[n - 1].id == id then de.operations(menus[n - 1].api)
    else MenuOperations(de, menus, n - 1, id)
  }

  /** The first API with the operation counts. */
  function FirstApi(apis: seq<Api>, n: nat, operation: string): Option<Api>
    requires n <= |apis|
  {
    if n == 0 then None
    else if FirstApi(apis, n - 1, operation).Some? then FirstApi(apis, n - 1, operation)
    else if apis[n - 1].operation == operation then Some(apis[n - 1])
    else None
  }

  // ----- the rules -----

  function Rule(tenant: string, role: string, api: Api): Policy {
    Policy("p", tenant, role, api.operation, api.verb, "*")
  }

  function RuleKey(p: Policy): string { p.v0 + [NUL] + p.v1 + [NUL] + p.v2 + [NUL] + p.v3 }

  /** What the program keeps while it builds the list: the rules and the keys it has seen. */
  datatype Built = Built(rules: seq<Policy>, keys: set<string>)

  function Add(b: Built, p: Policy): Built {
    if RuleKey(p) in b.keys then b else Built(b.rules + [p], b.keys + {RuleKey(p)})
  }

  function AddOperations(b: Built, tenant: string, role: Role, operations: seq<string>, n: nat, apis: seq<Api>): Built
    requires n <= |operations|
  {
    if n == 0 then b
    else
      var before := AddOperations(b, tenant, role, operations, n - 1, apis);
      match FirstApi(apis, |apis|, operations[n - 1])
      case None => before
      case Some(api) => Add(before, Rule(tenant, role.code, api))
  }

  function AddMenus(b: Built, de: Decode, tenant: string, role: Role, menuIds: seq<int>, n: nat, menus: seq<Menu>,
                    apis: seq<Api>): Built
    requires n <= |menuIds|
  {
    if n == 0 then b
    else
      var before := AddMenus(b, de, tenant, role, menuIds, n - 1, menus, apis);
      var operations := MenuOperations(de, menus, |menus|, menuIds[n - 1]);
      AddOperations(before, tenant, role, operations, |operations|, apis)
  }

  function AddRoles(b: Built, de: Decode, roles: seq<Role>, n: nat, tenants: seq<Tenant>, menus: seq<Menu>,
                    apis: seq<Api>): Built
    requires n <= |roles|
  {
    if n == 0 then b
    else
      var before := AddRoles(b, de, roles, n - 1, tenants, menus, apis);
      var role := roles[n - 1];
      var menuIds := de.menuIds(role.menus);
      match TenantCode(tenants, |tenants|, role.tenantId)
      case None => before
      case Some(code) => AddMenus(before, de, code, role, menuIds, |menuIds|, menus, apis)
  }

  const NOTHING := Built([], {})

  function RuleList(de: Decode, roles: seq<Role>, tenants: seq<Tenant>, menus: seq<Menu>, apis: seq<Api>): seq<Policy> {
    AddRoles(NOTHING, de, roles, |roles|, tenants, menus, apis).rules
  }

  method BuildCasbinRuleList(de: Decode, roles: seq<Role>, tenants: seq<Tenant>, menus: seq<Menu>, apis: seq<Api>)
    returns (rules: seq<Policy>)
    ensures rules == RuleList(de, roles, tenants, menus, apis)
  {
    var tenantCodeById: map<int, string> := map[];
    for i := 0 to |tenants|
      invariant forall id :: TenantCode(tenants, i, id) == if id in tenantCodeById then Some(tenantCodeById[id])
              else None
    {
      tenantCodeById := tenantCodeById[tenants[i].id := tenants[i].code];
    }
    var menuOperationsById: map<int, seq<string>> := map[];
    for i := 0 to |menus|
      invariant forall id :: MenuOperations(de, menus, i, id) == if id in menuOperationsById then
              menuOperationsById[id] else []
    {
      menuOperationsById := menuOperationsById[menus[i].id := de.operations(menus[i].api)];
    }
    var apiByOperation: map<string, Api> := map[];
    for i := 0 to |apis|
      invariant forall operation ::
          FirstApi(apis, i, operation) == if operation in apiByOperation then Some(apiByOperation[operation]) else None
    {
      if apis[i].operation !in apiByOperation {
        apiByOperation := apiByOperation[apis[i].operation := apis[i]];
      }
    }

    rules := [];
    var ruleSet: set<string> := {};
    for r := 0 to |roles|
      invariant Built(rules, ruleSet) == AddRoles(NOTHING, de, roles, r, tenants, menus, apis)
    {
      var role := roles[r];
      if role.tenantId !in tenantCodeById {
        continue;
      }
      var tenantCode := tenantCodeById[role.tenantId];
      var menuIds := de.menuIds(role.menus);
      ghost var b := Built(rules, ruleSet);
      for m := 0 to |menuIds|
        invariant Built(rules, ruleSet) == AddMenus(b, de, tenantCode, role, menuIds, m, menus, apis)
      {
        var operations := if menuIds[m] in menuOperationsById then menuOperationsById[menuIds[m]] else [];
        ghost var c := Built(rules, ruleSet);
        for o := 0 to |operations|
          invariant Built(rules, ruleSet) == AddOperations(c, tenantCode, role, operations, o, apis)
        {
          if operations[o] !in apiByOperation {
            continue;
          }
          var api := apiByOperation[operations[o]];
          var rule := Rule(tenantCode, role.code, api);
          var ruleKey := RuleKey(rule);
          if ruleKey in ruleSet {
            continue;
          }
          ruleSet := ruleSet + {ruleKey};
          rules := rules + [rule];
        }
      }
    }
  }

  // ----- the rule list is the join -----

  /** The last of the first `n` tenants with the id, or menus. */
  ghost predicate IsTenant(tenants: seq<Tenant>, n: nat, t: nat, id: int) {
    t < n <= |tenants| && tenants[t].id == id && forall k :: t < k < n ==> tenants[k].id != id
  }

  ghost predicate IsMenu(menus: seq<Menu>, n: nat, m: nat, id: int) {
    m < n <= |menus| && menus[m].id == id && forall k :: m < k < n ==> menus[k].id != id
  }

  /** The first of the first `n` APIs with the operation. */
  ghost predicate IsApi(apis: seq<Api>, n: nat, a: nat, operation: string) {
    a < n <= |apis| && apis[a].operation == operation && forall k :: 0 <= k < a ==> apis[k].operation != operation
  }

  lemma {:induction false} TenantCodeAt(tenants: seq<Tenant>, n: nat, id: int) returns (t: nat)
    requires n <= |tenants| && TenantCode(tenants, n, id).Some?
    ensures IsTenant(tenants, n, t, id) && tenants[t].code == TenantCode(tenants, n, id).value
  {
    t := n - 1;
    if tenants[n - 1].id != id {
      t := TenantCodeAt(tenants, n - 1, id);
    }
  }

  lemma {:induction false} TenantCodeOf(tenants: seq<Tenant>, n: nat, t: nat, id: int)
    requires IsTenant(tenants, n, t, id)
    ensures TenantCode(tenants, n, id) == Some(tenants[t].code)
  {
    if t < n - 1 {
      TenantCodeOf(tenants, n - 1, t, id);
    }
  }

  lemma {:induction false} MenuOperationsAt(de: Decode, menus: seq<Menu>, n: nat, id: int) returns (m: nat)
    requires n <= |menus| && MenuOperations(de, menus, n, id) != []
    ensures IsMenu(menus, n, m, id) && de.operations(menus[m].api) == MenuOperations(de, menus, n, id)
  {
    m := n - 1;
    if menus[n - 1].id != id {
      m := MenuOperationsAt(de, menus, n - 1, id);
    }
  }

  lemma {:induction false} MenuOperationsOf(de: Decode, menus: seq<Menu>, n: nat, m: nat, id: int)
    requires IsMenu(menus, n, m, id)
    ensures MenuOperations(de, menus, n, id) == de.operations(menus[m].api)
  {
    if m < n - 1 {
      MenuOperationsOf(de, menus, n - 1, m, id);
    }
  }

  lemma {:induction false} FirstApiAt(apis: seq<Api>, n: nat, operation: string) returns (a: nat)
    requires n <= |apis| && FirstApi(apis, n, operation).Some?
    ensures IsApi(apis, n, a, operation) && apis[a] == FirstApi(apis, n, operation).value
  {
    if FirstApi(apis, n - 1, operation).Some? {
      a := FirstApiAt(apis, n - 1, operation);
    } else {
      a := n - 1;
      NoApi(apis, n - 1, operation);
    }
  }

  lemma {:induction false} NoApi(apis: seq<Api>, n: nat, operation: string)
    requires n <= |apis|
    ensures FirstApi(apis, n, operation).None? <==> forall k :: 0 <= k < n ==> apis[k].operation != operation
  {
    if n > 0 {
      NoApi(apis, n - 1, operation);
    }
  }

  lemma {:induction false} FirstApiOf(apis: seq<Api>, n: nat, a: nat, operation: string)
    requires IsApi(apis, n, a, operation)
    ensures FirstApi(apis, n, operation) == Some(apis[a])
  {
    if a < n - 1 {
      FirstApiOf(apis, n - 1, a, operation);
    } else {
      NoApi(apis, a, operation);
    }
  }

  /** The role, of a tenant that is known, has the menu, the menu names the operation of the API, and the rule says
      so. */
  ghost predicate Joined(de: Decode, tenants: seq<Tenant>, menus: seq<Menu>, apis: seq<Api>,
                         role: Role, t: nat, m: nat, a: nat, p: Policy) {
    && IsTenant(tenants, |tenants|, t, role.tenantId)
    && m < |menus| && IsMenu(menus, |menus|, m, menus[m].id) && menus[m].id in de.menuIds(role.menus)
    && a < |apis| && IsApi(apis, |apis|, a, apis[a].operation) && apis[a].operation in de.operations(menus[m].api)
    && p == Policy("p", tenants[t].code, role.code, apis[a].operation, apis[a].verb, "*")
  }

  ghost predicate Granted(de: Decode, roles: seq<Role>, tenants: seq<Tenant>, menus: seq<Menu>, apis: seq<Api>,
                          p: Policy) {
    exists role, t: nat, m: nat, a: nat :: role in roles && Joined(de, tenants, menus, apis, role, t, m, a, p)
  }

  /** The keys are those of the rules, and no two rules share one. */
  ghost predicate Sound(b: Built) {
    && (forall p :: p in b.rules ==> RuleKey(p) in b.keys)
    && (forall key :: key in b.keys ==> exists p :: p in b.rules && RuleKey(p) == key)
    && (forall i, j :: 0 <= i < j < |b.rules| ==> RuleKey(b.rules[i]) != RuleKey(b.rules[j]))
  }

  /** `c` has every rule of `b`, and its other rules satisfy `more`, whose keys it all has. */
  ghost predicate Extends(b: Built, c: Built, more: Policy -> bool) {
    && Sound(c)
    && b.keys <= c.keys
    && (forall p :: p in b.rules ==> p in c.rules)
    && (forall p :: p in c.rules ==> p in b.rules || more(p))
    && (forall p :: more(p) ==> RuleKey(p) in c.keys)
  }

  lemma {:induction false} AddExtends(b: Built, p: Policy)
    requires Sound(b)
    ensures Extends(b, Add(b, p), q => q == p)
  {
    if RuleKey(p) !in b.keys {
      assert p in Add(b, p).rules;
      forall key | key in Add(b, p).keys
        ensures exists q :: q in Add(b, p).rules && RuleKey(q) == key
      {
        if key in b.keys {
          var q :| q in b.rules && RuleKey(q) == key;
          assert q in Add(b, p).rules;
        }
      }
    }
  }

  ghost predicate FromOperation(tenant: string, role: Role, operations: seq<string>, n: nat, apis: seq<Api>, p: Policy)
    requires n <= |operations|
  {
    exists o :: 0 <= o < n && FirstApi(apis, |apis|, operations[o]).Some?
                && p == Rule(tenant, role.code, FirstApi(apis, |apis|, operations[o]).value)
  }

  lemma {:induction false} OperationsExtend(b: Built, tenant: string, role: Role, operations: seq<string>, n: nat,
                                            apis: seq<Api>)
    requires Sound(b) && n <= |operations|
    ensures Extends(b, AddOperations(b, tenant, role, operations, n, apis),
                    p => FromOperation(tenant, role, operations, n, apis, p))
  {
    hide Sound, RuleKey;
    if n > 0 {
      OperationsExtend(b, tenant, role, operations, n - 1, apis);
      var before := AddOperations(b, tenant, role, operations, n - 1, apis);
      match FirstApi(apis, |apis|, operations[n - 1])
      case None =>
      case Some(api) =>
        AddExtends(before, Rule(tenant, role.code, api));
        assert FromOperation(tenant, role, operations, n, apis, Rule(tenant, role.code, api));
    }
  }

  ghost predicate FromMenu(de: Decode, tenant: string, role: Role, menuIds: seq<int>, n: nat, menus: seq<Menu>,
                           apis: seq<Api>, p: Policy)
    requires n <= |menuIds|
  {
    exists m :: 0 <= m < n && FromMenuId(de, tenant, role, menuIds[m], menus, apis, p)
  }

  ghost predicate FromMenuId(de: Decode, tenant: string, role: Role, menuId: int, menus: seq<Menu>, apis: seq<Api>,
                             p: Policy) {
    var operations := MenuOperations(de, menus, |menus|, menuId);
    FromOperation(tenant, role, operations, |operations|, apis, p)
  }

  lemma {:induction false} MenusExtend(b: Built, de: Decode, tenant: string, role: Role, menuIds: seq<int>, n: nat,
                                       menus: seq<Menu>, apis: seq<Api>)
    requires Sound(b) && n <= |menuIds|
    ensures Extends(b, AddMenus(b, de, tenant, role, menuIds, n, menus, apis),
                    p => FromMenu(de, tenant, role, menuIds, n, menus, apis, p))
  {
    hide Sound, RuleKey, FromOperation, FirstApi;
    if n > 0 {
      MenusExtend(b, de, tenant, role, menuIds, n - 1, menus, apis);
      var before := AddMenus(b, de, tenant, role, menuIds, n - 1, menus, apis);
      var operations := MenuOperations(de, menus, |menus|, menuIds[n - 1]);
      OperationsExtend(before, tenant, role, operations, |operations|, apis);
    }
  }

  ghost predicate FromRole(de: Decode, role: Role, tenants: seq<Tenant>, menus: seq<Menu>, apis: seq<Api>, p: Policy) {
    match TenantCode(tenants, |tenants|, role.tenantId)
    case None => false
    case Some(code) =>
      var menuIds := de.menuIds(role.menus);
      FromMenu(de, code, role, menuIds, |menuIds|, menus, apis, p)
  }

  lemma {:induction false} RolesExtend(de: Decode, roles: seq<Role>, n: nat, tenants: seq<Tenant>, menus: seq<Menu>,
                                       apis: seq<Api>)
    requires n <= |roles|
    ensures Extends(NOTHING, AddRoles(NOTHING, de, roles, n, tenants, menus, apis),
                    p => exists r :: 0 <= r < n && FromRole(de, roles[r], tenants, menus, apis, p))
  {
    if n > 0 {
      RolesExtend(de, roles, n - 1, tenants, menus, apis);
      var before := AddRoles(NOTHING, de, roles, n - 1, tenants, menus, apis);
      var menuIds := de.menuIds(roles[n - 1].menus);
      match TenantCode(tenants, |tenants|, roles[n - 1].tenantId)
      case None =>
      case Some(code) => MenusExtend(before, de, code, roles[n - 1], menuIds, |menuIds|, menus, apis);
    }
  }

  lemma {:induction false} GrantedIsFromRole(de: Decode, roles: seq<Role>, tenants: seq<Tenant>, menus: seq<Menu>,
                                             apis: seq<Api>, p: Policy)
    ensures Granted(de, roles, tenants, menus, apis, p)
            <==> exists r :: 0 <= r < |roles| && FromRole(de, roles[r], tenants, menus, apis, p)
  {
    if Granted(de, roles, tenants, menus, apis, p) {
      var role, t: nat, m: nat, a: nat :| role in roles && Joined(de, tenants, menus, apis, role, t, m, a, p);
      var r :| 0 <= r < |roles| && roles[r] == role;
      JoinedIsFromRole(de, role, t, m, a, tenants, menus, apis, p);
    }
    if r :| 0 <= r < |roles| && FromRole(de, roles[r], tenants, menus, apis, p) {
      var t, m, a := FromRoleIsJoined(de, roles[r], tenants, menus, apis, p);
    }
  }

  lemma {:induction false} JoinedIsFromRole(de: Decode, role: Role, t: nat, m: nat, a: nat, tenants: seq<Tenant>,
                                            menus: seq<Menu>, apis: seq<Api>, p: Policy)
    requires Joined(de, tenants, menus, apis, role, t, m, a, p)
    ensures FromRole(de, role, tenants, menus, apis, p)
  {
    TenantCodeOf(tenants, |tenants|, t, role.tenantId);
    MenuOperationsOf(de, menus, |menus|, m, menus[m].id);
    FirstApiOf(apis, |apis|, a, apis[a].operation);
    var menuIds, operations := de.menuIds(role.menus), de.operations(menus[m].api);
    var i :| 0 <= i < |menuIds| && menuIds[i] == menus[m].id;
    var o :| 0 <= o < |operations| && operations[o] == apis[a].operation;
    assert FromMenuId(de, tenants[t].code, role, menuIds[i], menus, apis, p);
  }

  lemma {:induction false} FromRoleIsJoined(de: Decode, role: Role, tenants: seq<Tenant>, menus: seq<Menu>,
                                            apis: seq<Api>, p: Policy)
    returns (t: nat, m: nat, a: nat)
    requires FromRole(de, role, tenants, menus, apis, p)
    ensures Joined(de, tenants, menus, apis, role, t, m, a, p)
  {
    t := TenantCodeAt(tenants, |tenants|, role.tenantId);
    var menuIds := de.menuIds(role.menus);
    var i :| 0 <= i < |menuIds| && FromMenuId(de, tenants[t].code, role, menuIds[i], menus, apis, p);
    var operations := MenuOperations(de, menus, |menus|, menuIds[i]);
    var o :| 0 <= o < |operations| && FirstApi(apis, |apis|, operations[o]).Some?
             && p == Rule(tenants[t].code, role.code, FirstApi(apis, |apis|, operations[o]).value);
    m := MenuOperationsAt(de, menus, |menus|, menuIds[i]);
    a := FirstApiAt(apis, |apis|, operations[o]);
  }

  /** Codes and operations hold no NUL, the separator of the rule keys. */
  ghost predicate NamesNulFree(roles: seq<Role>, tenants: seq<Tenant>, apis: seq<Api>) {
    && (forall r :: r in roles ==> NulFree(r.code))
    && (forall t :: t in tenants ==> NulFree(t.code))
    && (forall a :: a in apis ==> NulFree(a.operation))
  }

  lemma {:induction false} RuleKeysDiffer(p: Policy, q: Policy)
    requires NulFree(p.v0) && NulFree(p.v1) && NulFree(p.v2) && NulFree(q.v0) && NulFree(q.v1) && NulFree(q.v2)
    requires RuleKey(p) == RuleKey(q)
    ensures p.v0 == q.v0 && p.v1 == q.v1 && p.v2 == q.v2 && p.v3 == q.v3
  {
    assert forall x: Policy :: RuleKey(x) == x.v0 + [NUL] + (x.v1 + [NUL] + (x.v2 + [NUL] + x.v3));
    assert forall x: Policy :: x.v1 + [NUL] + (x.v2 + [NUL] + x.v3) == x.v1 + ([NUL] + x.v2 + [NUL] + x.v3);
    JoinedKeysDiffer(p.v0, p.v1 + [NUL] + (p.v2 + [NUL] + p.v3), q.v0, q.v1 + [NUL] + (q.v2 + [NUL] + q.v3));
    JoinedKeysDiffer(p.v1, p.v2 + [NUL] + p.v3, q.v1, q.v2 + [NUL] + q.v3);
    JoinedKeysDiffer(p.v2, p.v3, q.v2, q.v3);
  }

  lemma {:induction false} GrantedNulFree(de: Decode, roles: seq<Role>, tenants: seq<Tenant>, menus: seq<Menu>,
                                          apis: seq<Api>, p: Policy)
    requires NamesNulFree(roles, tenants, apis) && Granted(de, roles, tenants, menus, apis, p)
    ensures NulFree(p.v0) && NulFree(p.v1) && NulFree(p.v2) && p.ptype == "p" && p.v4 == "*"
  {
    var role, t: nat, m: nat, a: nat :| role in roles && Joined(de, tenants, menus, apis, role, t, m, a, p);
    assert tenants[t] in tenants && apis[a] in apis;
  }

  /** The rule list holds no rule twice, and exactly the rules that some role is granted. */
  lemma {:induction false} RuleListIsJoin(de: Decode, roles: seq<Role>, tenants: seq<Tenant>, menus: seq<Menu>,
                                          apis: seq<Api>, p: Policy)
    requires NamesNulFree(roles, tenants, apis)
    ensures p in RuleList(de, roles, tenants, menus, apis) <==> Granted(de, roles, tenants, menus, apis, p)
  {
    hide FromRole, NamesNulFree, RuleKey;
    var b := AddRoles(NOTHING, de, roles, |roles|, tenants, menus, apis);
    RolesExtend(de, roles, |roles|, tenants, menus, apis);
    GrantedIsFromRole(de, roles, tenants, menus, apis, p);
    if Granted(de, roles, tenants, menus, apis, p) {
      var more := q => exists r :: 0 <= r < |roles| && FromRole(de, roles[r], tenants, menus, apis, q);
      assert more(p) && RuleKey(p) in b.keys;
      var q :| q in b.rules && RuleKey(q) == RuleKey(p);
      GrantedIsFromRole(de, roles, tenants, menus, apis, q);
      GrantedNulFree(de, roles, tenants, menus, apis, p);
      GrantedNulFree(de, roles, tenants, menus, apis, q);
      RuleKeysDiffer(p, q);
    }
  }

  /** No rule appears twice, whatever the names. */
  lemma {:induction false} RuleListDistinct(de: Decode, roles: seq<Role>, tenants: seq<Tenant>, menus: seq<Menu>,
                                            apis: seq<Api>, i: nat, j: nat)
    requires i < j < |RuleList(de, roles, tenants, menus, apis)|
    ensures RuleList(de, roles, tenants, menus, apis)[i] != RuleList(de, roles, tenants, menus, apis)[j]
  {
    RolesExtend(de, roles, |roles|, tenants, menus, apis);
  }

  lemma {:induction false} OperationsAppend(b: Built, tenant: string, role: Role, operations: seq<string>, n: nat,
                                            apis: seq<Api>)
    requires n <= |operations|
    ensures b.rules <= AddOperations(b, tenant, role, operations, n, apis).rules
  {
    hide RuleKey, FirstApi;
    if n > 0 {
      OperationsAppend(b, tenant, role, operations, n - 1, apis);
    }
  }

  lemma {:induction false} MenusAppend(b: Built, de: Decode, tenant: string, role: Role, menuIds: seq<int>, n: nat,
                                       menus: seq<Menu>, apis: seq<Api>)
    requires n <= |menuIds|
    ensures b.rules <= AddMenus(b, de, tenant, role, menuIds, n, menus, apis).rules
  {
    hide AddOperations, MenuOperations;
    if n > 0 {
      var before := AddMenus(b, de, tenant, role, menuIds, n - 1, menus, apis);
      var operations := MenuOperations(de, menus, |menus|, menuIds[n - 1]);
      MenusAppend(b, de, tenant, role, menuIds, n - 1, menus, apis);
      OperationsAppend(before, tenant, role, operations, |operations|, apis);
    }
  }

  /** Rules go in the order of the roles: more roles only add rules at the end. */
  lemma {:induction false} RolesAppend(de: Decode, roles: seq<Role>, m: nat, n: nat, tenants: seq<Tenant>,
                                       menus: seq<Menu>, apis: seq<Api>)
    requires m <= n <= |roles|
    ensures AddRoles(NOTHING, de, roles, m, tenants, menus, apis).rules <=
            AddRoles(NOTHING, de, roles, n, tenants, menus, apis).rules
  {
    hide AddMenus, TenantCode;
    if m < n {
      RolesAppend(de, roles, m, n - 1, tenants, menus, apis);
      var before, role := AddRoles(NOTHING, de, roles, n - 1, tenants, menus, apis), roles[n - 1];
      var menuIds := de.menuIds(role.menus);
      match TenantCode(tenants, |tenants|, role.tenantId)
      case None =>
      case Some(code) => MenusAppend(before, de, code, role, menuIds, |menuIds|, menus, apis);
    }
  }

  // ----- fetching only the menus that some role refers to -----

  function Elements(ids: seq<int>): set<int> { set id | id in ids }

  function ReferredMenus(de: Decode, roles: seq<Role>, n: nat): set<int>
    requires n <= |roles|
  {
    if n == 0 then {} else ReferredMenus(de, roles, n - 1) + Elements(de.menuIds(roles[n - 1].menus))
  }

  /** The stored menus with one of the ids. */
  function MenusByIds(menus: seq<Menu>, n: nat, ids: set<int>): seq<Menu>
    requires n <= |menus|
  {
    if n == 0 then [] else MenusByIds(menus, n - 1, ids) + (if menus[n - 1].id in ids then [menus[n - 1]] else [])
  }

  /** The fetched menus are the stored ones that some role names. */
  lemma {:induction false} FetchedAre(de: Decode, roles: seq<Role>, menus: seq<Menu>, menu: Menu)
    ensures menu in MenusByIds(menus, |menus|, ReferredMenus(de, roles, |roles|)) <==>
            menu in menus && exists r :: 0 <= r < |roles| && menu.id in de.menuIds(roles[r].menus)
  {
    ReferredAre(de, roles, |roles|, menu.id);
    MenusByIdsAre(menus, |menus|, ReferredMenus(de, roles, |roles|), menu);
    assert menus[..|menus|] == menus;
  }

  lemma {:induction false} ReferredAre(de: Decode, roles: seq<Role>, n: nat, id: int)
    requires n <= |roles|
    ensures id in ReferredMenus(de, roles, n) <==> exists r :: 0 <= r < n && id in de.menuIds(roles[r].menus)
  {
    if n > 0 {
      ReferredAre(de, roles, n - 1, id);
    }
  }

  lemma {:induction false} MenusByIdsAre(menus: seq<Menu>, n: nat, ids: set<int>, menu: Menu)
    requires n <= |menus|
    ensures menu in MenusByIds(menus, n, ids) <==> menu in menus[..n] && menu.id in ids
  {
    if n > 0 {
      MenusByIdsAre(menus, n - 1, ids, menu);
      assert menus[..n] == menus[..n - 1] + [menus[n - 1]];
    }
  }

  lemma {:induction false} MenuOperationsPrefix(de: Decode, menus: seq<Menu>, more: seq<Menu>, n: nat, id: int)
    requires n <= |menus|
    ensures MenuOperations(de, menus + more, n, id) == MenuOperations(de, menus, n, id)
  {
    if n > 0 {
      MenuOperationsPrefix(de, menus, more, n - 1, id);
    }
  }

  lemma {:induction false} FetchedOperations(de: Decode, menus: seq<Menu>, n: nat, ids: set<int>, id: int)
    requires n <= |menus| && id in ids
    ensures MenuOperations(de, MenusByIds(menus, n, ids), |MenusByIds(menus, n, ids)|, id) ==
            MenuOperations(de, menus, n, id)
  {
    if n > 0 {
      FetchedOperations(de, menus, n - 1, ids, id);
      if menus[n - 1].id in ids {
        var before, fetched := MenusByIds(menus, n - 1, ids), MenusByIds(menus, n, ids);
        MenuOperationsPrefix(de, before, [menus[n - 1]], |before|, id);
        assert fetched == before + [menus[n - 1]];
      } else {
        assert MenusByIds(menus, n, ids) == MenusByIds(menus, n - 1, ids);
      }
    }
  }

  lemma {:induction false} MenusAgree(b: Built, de: Decode, tenant: string, role: Role, menuIds: seq<int>, n: nat,
                                      menus: seq<Menu>, fetched: seq<Menu>, apis: seq<Api>)
    requires n <= |menuIds|
    requires forall m :: 0 <= m < n ==>
            MenuOperations(de, fetched, |fetched|, menuIds[m]) == MenuOperations(de, menus, |menus|, menuIds[m])
    ensures AddMenus(b, de, tenant, role, menuIds, n, fetched, apis) ==
            AddMenus(b, de, tenant, role, menuIds, n, menus, apis)
  {
    if n > 0 {
      MenusAgree(b, de, tenant, role, menuIds, n - 1, menus, fetched, apis);
    }
  }

  lemma {:induction false} ReferredGrow(de: Decode, roles: seq<Role>, n: nat, r: nat)
    requires r < n <= |roles|
    ensures forall id :: id in de.menuIds(roles[r].menus) ==> id in ReferredMenus(de, roles, n)
  {
    if r < n - 1 {
      ReferredGrow(de, roles, n - 1, r);
    }
  }

  lemma {:induction false} RolesAgree(de: Decode, roles: seq<Role>, n: nat, tenants: seq<Tenant>, menus: seq<Menu>,
                                      apis: seq<Api>)
    requires n <= |roles|
    ensures var fetched := MenusByIds(menus, |menus|, ReferredMenus(de, roles, |roles|));
      AddRoles(NOTHING, de, roles, n, tenants, fetched, apis) == AddRoles(NOTHING, de, roles, n, tenants, menus, apis)
  {
    if n > 0 {
      var ids := ReferredMenus(de, roles, |roles|);
      var fetched := MenusByIds(menus, |menus|, ids);
      RolesAgree(de, roles, n - 1, tenants, menus, apis);
      var role := roles[n - 1];
      var menuIds := de.menuIds(role.menus);
      ReferredGrow(de, roles, |roles|, n - 1);
      forall m | 0 <= m < |menuIds|
        ensures MenuOperations(de, fetched, |fetched|, menuIds[m]) == MenuOperations(de, menus, |menus|, menuIds[m])
      {
        FetchedOperations(de, menus, |menus|, ids, menuIds[m]);
      }
      match TenantCode(tenants, |tenants|, role.tenantId)
      case None =>
      case Some(code) =>
        MenusAgree(AddRoles(NOTHING, de, roles, n - 1, tenants, menus, apis), de, code, role, menuIds, |menuIds|,
            menus, fetched, apis);
    }
  }

  /** Fetching only the menus that roles refer to gives the same rules, in the same order, as all menus. */
  lemma {:induction false} FetchedMenusSuffice(de: Decode, roles: seq<Role>, tenants: seq<Tenant>, menus: seq<Menu>,
                                               apis: seq<Api>)
    ensures RuleList(de, roles, tenants, MenusByIds(menus, |menus|, ReferredMenus(de, roles, |roles|)), apis)
            == RuleList(de, roles, tenants, menus, apis)
  {
    RolesAgree(de, roles, |roles|, tenants, menus, apis);
  }

  // ----- the start-up synchronisation -----

  /** The database and the policies in the memory of the authorization engine. */
  datatype State = State(roles: seq<Role>, tenants: seq<Tenant>, menus: seq<Menu>, apis: seq<Api>,
                         policies: seq<Policy>, memory: seq<Policy>)

  function FindTenant(tenants: seq<Tenant>, code: string): Option<Tenant> {
    if tenants == [] then None else if tenants[0].code == code then Some(tenants[0]) else FindTenant(tenants[1..], code)
  }

  function FindRole(roles: seq<Role>, tenantId: int, code: string): Option<Role> {
    if roles == [] then None
    else if roles[0].tenantId == tenantId && roles[0].code == code then Some(roles[0])
    else FindRole(roles[1..], tenantId, code)
  }

  /** The administrator role of the default tenant, whose menus the other tenants' administrators get. */
  function Template(s: State, defaultTenant: string): Option<Role> {
    match FindTenant(s.tenants, defaultTenant)
    case None => None
    case Some(t) => FindRole(s.roles, t.id, TENANT)
  }

  function WithMenus(role: Role, menus: string): Role { if role.code == TENANT then role.(menus := menus) else role }

  function SyncedRoles(s: State, defaultTenant: string): seq<Role> {
    match Template(s, defaultTenant)
    case None => s.roles
    case Some(template) => seq(|s.roles|, i requires 0 <= i < |s.roles| => WithMenus(s.roles[i], template.menus))
  }

  function SuperRules(apis: seq<Api>, n: nat, defaultTenant: string): seq<Policy>
    requires n <= |apis|
  {
    if n == 0 then [] else SuperRules(apis, n - 1, defaultTenant) + [Rule(defaultTenant, SUPER, apis[n - 1])]
  }

  predicate Complete(p: Policy) { p.ptype != "" && p.v0 != "" && p.v1 != "" && p.v2 != "" && p.v3 != "" && p.v4 != "" }

  function CompleteRules(policies: seq<Policy>, n: nat): seq<Policy>
    requires n <= |policies|
  {
    if n == 0 then []
    else CompleteRules(policies, n - 1) + (if Complete(policies[n - 1]) then [policies[n - 1]] else [])
  }

  function Refreshed(s: State, defaultTenant: string): seq<Policy> {
    SuperRules(s.apis, |s.apis|, defaultTenant) + CompleteRules(s.policies, |s.policies|)
  }

  /** The database after the transaction of a synchronisation. */
  function Committed(de: Decode, s: State, apis: seq<Api>, defaultTenant: string): State {
    var roles := SyncedRoles(s, defaultTenant);
    s.(apis := apis, roles := roles, policies := RuleList(de, roles, s.tenants, s.menus, apis))
  }

  /** Which call the database refuses: replacing the APIs, looking up the template, updating a role,
      replacing the rules, or reading them back after the commit. */
  datatype Faults = Faults(replaceApis: bool, lookup: bool, update: nat -> bool, replacePolicies: bool, refresh: bool)

  ghost predicate DistinctIds(roles: seq<Role>) {
    forall i, j :: 0 <= i < j < |roles| ==> roles[i].id != roles[j].id
  }

  class PermissionCase {
    var roles: seq<Role>
    var tenants: seq<Tenant>
    var menus: seq<Menu>
    var apis: seq<Api>
    var policies: seq<Policy>
    var memory: seq<Policy>

    function View(): State
      reads this
    {
      State(roles, tenants, menus, apis, policies, memory)
    }

    /** The row with the id gets the menus. */
    method UpdateRoleMenus(id: int, menus': string)
      requires DistinctIds(roles)
      modifies this`roles
      ensures |roles| == |old(roles)|
      ensures forall i :: 0 <= i < |roles| ==>
                roles[i] == if old(roles)[i].id == id then old(roles)[i].(menus := menus') else old(roles)[i]
    {
      for i := 0 to |roles|
        invariant |roles| == |old(roles)|
        invariant forall k :: 0 <= k < |roles| ==>
            roles[k] == if k < i && old(roles)[k].id == id then old(roles)[k].(menus := menus') else old(roles)[k]
      {
        if roles[i].id == id {
          roles := roles[i := roles[i].(menus := menus')];
        }
      }
    }

    method SyncTenantRoleMenus(defaultTenant: string, f: Faults) returns (ok: bool)
      requires DistinctIds(roles)
      modifies this`roles
      ensures ok ==> roles == SyncedRoles(old(View()), defaultTenant)
      ensures !f.lookup && (forall i :: !f.update(i)) ==> ok
    {
      if f.lookup {
        return false;
      }
      var tenant := FindTenant(tenants, defaultTenant);
      if tenant.None? {
        return true;
      }
      var template := FindRole(roles, tenant.value.id, TENANT);
      if template.None? {
        return true;
      }
      var baseRoleList := roles;
      for i := 0 to |baseRoleList|
        invariant |roles| == |baseRoleList|
        invariant forall k :: 0 <= k < |roles| ==>
            roles[k] == if k < i then WithMenus(baseRoleList[k], template.value.menus) else baseRoleList[k]
        invariant baseRoleList == old(roles) && DistinctIds(roles)
      {
        var item := baseRoleList[i];
        if item.code != TENANT {
          continue;
        }
        if item.id == template.value.id || item.menus == template.value.menus {
          TemplateRow(old(View()), defaultTenant, i);
          continue;
        }
        if f.update(i) {
          return false;
        }
        UpdateRoleMenus(item.id, template.value.menus);
      }
      return true;
    }

    method RebuildPolicyData(de: Decode, f: Faults) returns (ok: bool)
      modifies this`policies
      ensures ok <==> !f.replacePolicies
      ensures policies == if ok then RuleList(de, roles, tenants, menus, apis) else old(policies)
    {
      var menuIdSet: set<int> := {};
      for i := 0 to |roles|
        invariant menuIdSet == ReferredMenus(de, roles, i)
      {
        menuIdSet := menuIdSet + Elements(de.menuIds(roles[i].menus));
      }
      FetchedMenusSuffice(de, roles, tenants, menus, apis);
      var rules := BuildCasbinRuleList(de, roles, tenants, MenusByIds(menus, |menus|, menuIdSet), apis);
      if f.replacePolicies {
        return false;
      }
      policies := rules;
      return true;
    }

    method RefreshPolicy(defaultTenant: string, f: Faults) returns (ok: bool)
      modifies this`memory
      ensures ok <==> !f.refresh
      ensures memory == if ok then Refreshed(View(), defaultTenant) else old(memory)
    {
      if f.refresh {
        return false;
      }
      var policyRule: seq<Policy> := [];
      for i := 0 to |apis|
        invariant policyRule == SuperRules(apis, i, defaultTenant)
      {
        policyRule := policyRule + [Rule(defaultTenant, SUPER, apis[i])];
      }
      for i := 0 to |policies|
        invariant policyRule == SuperRules(apis, |apis|, defaultTenant) + CompleteRules(policies, i)
      {
        if !Complete(policies[i]) {
          continue;
        }
        policyRule := policyRule + [policies[i]];
      }
      memory := policyRule;
      return true;
    }

    /** The phases of a synchronisation. A refusal inside the transaction leaves everything as it was;
        one after the commit leaves the old policies in memory. */
    method Sync(de: Decode, newApis: seq<Api>, defaultTenant: string, f: Faults) returns (ok: bool)
      requires DistinctIds(roles)
      modifies this
      ensures var committed := Committed(de, old(View()), newApis, defaultTenant);
        if ok then View() == committed.(memory := Refreshed(committed, defaultTenant))
        else View() == old(View()) || (f.refresh && View() == committed)
      ensures !f.replaceApis && !f.lookup && (forall i :: !f.update(i)) && !f.replacePolicies ==> ok == !f.refresh
    {
      var roles0, apis0, policies0 := roles, apis, policies;
      if f.replaceApis {
        return false;
      }
      apis := newApis;
      ok := SyncTenantRoleMenus(defaultTenant, f);
      if ok {
        ok := RebuildPolicyData(de, f);
      }
      if !ok {
        roles, apis, policies := roles0, apis0, policies0;
        return false;
      }
      ok := RefreshPolicy(defaultTenant, f);
    }
  }

  /** The first role of the code TENANT in the first tenant of the code. */
  ghost predicate IsTemplate(s: State, defaultTenant: string, t: nat, r: nat) {
    && t < |s.tenants| && s.tenants[t].code == defaultTenant
    && (forall k :: 0 <= k < t ==> s.tenants[k].code != defaultTenant)
    && r < |s.roles| && s.roles[r].tenantId == s.tenants[t].id && s.roles[r].code == "tenant"
    && (forall k :: 0 <= k < r ==> s.roles[k].tenantId != s.tenants[t].id || s.roles[k].code != "tenant")
  }

  lemma {:induction false} FindTenantIs(tenants: seq<Tenant>, code: string)
    ensures match FindTenant(tenants, code)
            case None => forall k :: 0 <= k < |tenants| ==> tenants[k].code != code
            case Some(found) => exists t :: 0 <= t < |tenants| && tenants[t] == found && found.code == code
                                            && forall k :: 0 <= k < t ==> tenants[k].code != code
  {
    if tenants != [] && tenants[0].code != code {
      var rest := tenants[1..];
      FindTenantIs(rest, code);
      if FindTenant(rest, code).Some? {
        var t :| 0 <= t < |rest| && rest[t] == FindTenant(rest, code).value
                 && forall k :: 0 <= k < t ==> rest[k].code != code;
        assert tenants[t + 1] == rest[t] && forall k :: 1 <= k < t + 1 ==> tenants[k] == rest[k - 1];
      } else {
        assert forall k :: 1 <= k < |tenants| ==> tenants[k] == rest[k - 1];
      }
    }
  }

  lemma {:induction false} FindRoleIs(roles: seq<Role>, tenantId: int, code: string)
    ensures match FindRole(roles, tenantId, code)
            case None => forall k :: 0 <= k < |roles| ==> roles[k].tenantId != tenantId || roles[k].code != code
            case Some(found) =>
              exists r :: 0 <= r < |roles| && roles[r] == found && found.tenantId == tenantId && found.code == code
                          && forall k :: 0 <= k < r ==> roles[k].tenantId != tenantId || roles[k].code != code
  {
    if roles != [] && !(roles[0].tenantId == tenantId && roles[0].code == code) {
      var rest := roles[1..];
      FindRoleIs(rest, tenantId, code);
      if FindRole(rest, tenantId, code).Some? {
        var r :| 0 <= r < |rest| && rest[r] == FindRole(rest, tenantId, code).value
                 && forall k :: 0 <= k < r ==> rest[k].tenantId != tenantId || rest[k].code != code;
        assert roles[r + 1] == rest[r] && forall k :: 1 <= k < r + 1 ==> roles[k] == rest[k - 1];
      } else {
        assert forall k :: 1 <= k < |roles| ==> roles[k] == rest[k - 1];
      }
    }
  }

  /** There is a template exactly if the default tenant is stored and has an administrator role. */
  lemma {:induction false} TemplateIs(s: State, defaultTenant: string)
    ensures match Template(s, defaultTenant)
            case None => forall t: nat, r: nat :: !IsTemplate(s, defaultTenant, t, r)
            case Some(template) => exists t: nat, r: nat :: IsTemplate(s, defaultTenant, t, r) && s.roles[r] == template
  {
    FindTenantIs(s.tenants, defaultTenant);
    if FindTenant(s.tenants, defaultTenant).Some? {
      var found := FindTenant(s.tenants, defaultTenant).value;
      var t: nat :| t < |s.tenants| && s.tenants[t] == found && found.code == defaultTenant
               && forall k :: 0 <= k < t ==> s.tenants[k].code != defaultTenant;
      FindRoleIs(s.roles, found.id, TENANT);
      if FindRole(s.roles, found.id, TENANT).Some? {
        var role := FindRole(s.roles, found.id, TENANT).value;
        var r: nat :| r < |s.roles| && s.roles[r] == role && role.tenantId == found.id && role.code == TENANT
                 && forall k :: 0 <= k < r ==> s.roles[k].tenantId != found.id || s.roles[k].code != TENANT;
        assert IsTemplate(s, defaultTenant, t, r);
      }
    }
  }

  /** A synchronisation gives the template's menus to every administrator role and touches nothing else of the roles;
      without a template it touches none. */
  lemma {:induction false} SyncedRolesAre(s: State, defaultTenant: string, i: nat)
    requires i < |s.roles|
    ensures |SyncedRoles(s, defaultTenant)| == |s.roles|
    ensures forall t: nat, r: nat :: IsTemplate(s, defaultTenant, t, r) ==>
              SyncedRoles(s, defaultTenant)[i] ==
              Role(s.roles[i].id, s.roles[i].tenantId, s.roles[i].code,
                   if s.roles[i].code == "tenant" then s.roles[r].menus else s.roles[i].menus)
    ensures (forall t: nat, r: nat :: !IsTemplate(s, defaultTenant, t, r)) ==>
            SyncedRoles(s, defaultTenant)[i] == s.roles[i]
  {
    TemplateIs(s, defaultTenant);
    forall t: nat, r: nat | IsTemplate(s, defaultTenant, t, r)
      ensures Template(s, defaultTenant) == Some(s.roles[r])
    {
      var t': nat, r': nat :| IsTemplate(s, defaultTenant, t', r') &&
                              s.roles[r'] == Template(s, defaultTenant).value;
      assert t == t' && r == r';
    }
  }

  /** The template row needs no update. */
  lemma {:induction false} TemplateRow(s: State, defaultTenant: string, i: nat)
    requires DistinctIds(s.roles) && i < |s.roles| && s.roles[i].code == TENANT
    requires Template(s, defaultTenant).Some?
    requires s.roles[i].id == Template(s, defaultTenant).value.id ||
            s.roles[i].menus == Template(s, defaultTenant).value.menus
    ensures s.roles[i] == WithMenus(s.roles[i], Template(s, defaultTenant).value.menus)
  {
    var template := Template(s, defaultTenant).value;
    FindRoleIs(s.roles, FindTenant(s.tenants, defaultTenant).value.id, TENANT);
    var k :| 0 <= k < |s.roles| && s.roles[k] == template;
    if s.roles[i].id == template.id {
      assert i == k;
    }
  }

  // ----- what holds in memory after a synchronisation -----

  lemma {:induction false} SuperRulesAre(apis: seq<Api>, n: nat, defaultTenant: string, p: Policy)
    requires n <= |apis|
    ensures p in SuperRules(apis, n, defaultTenant)
            <==> exists a :: 0 <= a < n && p == Rule(defaultTenant, SUPER, apis[a])
  {
    if n > 0 {
      SuperRulesAre(apis, n - 1, defaultTenant, p);
    }
  }

  lemma {:induction false} CompleteRulesAre(policies: seq<Policy>, n: nat, p: Policy)
    requires n <= |policies|
    ensures p in CompleteRules(policies, n) <==> p in policies[..n] && Complete(p)
  {
    if n > 0 {
      CompleteRulesAre(policies, n - 1, p);
      assert policies[..n] == policies[..n - 1] + [policies[n - 1]];
    }
  }

  /** What is in memory: a rule of the super role of the default tenant for each API, and each stored rule that has all
      its parts. */
  lemma {:induction false} MemoryIs(s: State, defaultTenant: string, p: Policy)
    ensures p in Refreshed(s, defaultTenant) <==>
            || (exists a :: 0 <= a < |s.apis| &&
                  p == Policy("p", defaultTenant, "super", s.apis[a].operation, s.apis[a].verb, "*"))
            || (p in s.policies && "" !in [p.ptype, p.v0, p.v1, p.v2, p.v3, p.v4])
  {
    SuperRulesAre(s.apis, |s.apis|, defaultTenant, p);
    CompleteRulesAre(s.policies, |s.policies|, p);
    assert s.policies[..|s.policies|] == s.policies;
    var parts := [p.ptype, p.v0, p.v1, p.v2, p.v3, p.v4];
    assert parts[0] == p.ptype && parts[1] == p.v0 && parts[2] == p.v1 && parts[3] == p.v2 && parts[4] == p.v3
           && parts[5] == p.v4;
  }

  /** The rules of the super role come first, in the order of the APIs, then the stored ones in theirs. */
  lemma {:induction false} MemoryInOrder(s: State, defaultTenant: string, m: nat, n: nat)
    requires m <= n <= |s.policies|
    ensures |s.apis| <= |Refreshed(s, defaultTenant)|
    ensures forall a :: 0 <= a < |s.apis| ==>
              Refreshed(s, defaultTenant)[a] ==
              Policy("p", defaultTenant, "super", s.apis[a].operation, s.apis[a].verb, "*")
    ensures Refreshed(s, defaultTenant)[|s.apis|..] == CompleteRules(s.policies, |s.policies|)
    ensures CompleteRules(s.policies, m) <= CompleteRules(s.policies, n)
  {
    SuperRulesInOrder(s.apis, |s.apis|, defaultTenant);
    CompleteRulesGrow(s.policies, m, n);
  }

  lemma {:induction false} SuperRulesInOrder(apis: seq<Api>, n: nat, defaultTenant: string)
    requires n <= |apis|
    ensures |SuperRules(apis, n, defaultTenant)| == n
    ensures forall a :: 0 <= a < n ==> SuperRules(apis, n, defaultTenant)[a] == Rule(defaultTenant, SUPER, apis[a])
  {
    if n > 0 {
      SuperRulesInOrder(apis, n - 1, defaultTenant);
    }
  }

  lemma {:induction false} CompleteRulesGrow(policies: seq<Policy>, m: nat, n: nat)
    requires m <= n <= |policies|
    ensures CompleteRules(policies, m) <= CompleteRules(policies, n)
  {
    if m < n {
      CompleteRulesGrow(policies, m, n - 1);
    }
  }

  /** What the menus allow. */
  ghost predicate Allowed(de: Decode, menus: seq<Menu>, apis: seq<Api>, menuIds: string, operation: string,
                          verb: string) {
    && operation != "" && verb != ""
    && exists m: nat, a: nat ::
         && m < |menus| && IsMenu(menus, |menus|, m, menus[m].id) && menus[m].id in de.menuIds(menuIds)
         && operation in de.operations(menus[m].api)
         && IsApi(apis, |apis|, a, operation) && apis[a].verb == verb
  }

  /** After a successful synchronisation with a template, every administrator role of every tenant with
      a code may, in memory, do exactly what the template's menus allow: they all may do the same. */
  lemma {:induction false} AdministratorsMatchTemplate(de: Decode, before: State, apis: seq<Api>, defaultTenant: string,
                                                       t: nat, r: nat, role: Role, tenant: nat, operation: string,
                                                       verb: string)
    requires IsTemplate(before, defaultTenant, t, r)
    requires NamesNulFree(before.roles, before.tenants, apis)
    requires role in before.roles && role.code == "tenant"
    requires IsTenant(before.tenants, |before.tenants|, tenant, role.tenantId) && before.tenants[tenant].code != ""
    ensures var memory := Refreshed(Committed(de, before, apis, defaultTenant), defaultTenant);
      Policy("p", before.tenants[tenant].code, "tenant", operation, verb, "*") in memory
      <==> Allowed(de, before.menus, apis, before.roles[r].menus, operation, verb)
  {
    hide SyncedRoles, RuleList, Refreshed, NamesNulFree, Granted;
    var s := Committed(de, before, apis, defaultTenant);
    var p := Policy("p", before.tenants[tenant].code, "tenant", operation, verb, "*");
    SyncedRolesNulFree(before, apis, defaultTenant);
    MemoryIs(s, defaultTenant, p);
    RuleListIsJoin(de, s.roles, s.tenants, s.menus, s.apis, p);
    assert p in Refreshed(s, defaultTenant) <==>
           Granted(de, s.roles, s.tenants, s.menus, s.apis, p) && operation != "" && verb != "" by {
      var parts := [p.ptype, p.v0, p.v1, p.v2, p.v3, p.v4];
      assert parts[3] == operation && parts[4] == verb;
    }
    GrantedIffAllowed(de, before, s, defaultTenant, t, r, role, tenant, operation, verb);
  }

  lemma {:induction false} GrantedIffAllowed(de: Decode, before: State, s: State, defaultTenant: string, t: nat, r: nat,
                                             role: Role, tenant: nat, operation: string, verb: string)
    requires IsTemplate(before, defaultTenant, t, r)
    requires s.roles == SyncedRoles(before, defaultTenant) && s.tenants == before.tenants && s.menus == before.menus
    requires role in before.roles && role.code == "tenant"
    requires IsTenant(before.tenants, |before.tenants|, tenant, role.tenantId)
    ensures var p := Policy("p", before.tenants[tenant].code, "tenant", operation, verb, "*");
      Granted(de, s.roles, s.tenants, s.menus, s.apis, p) && operation != "" && verb != ""
      <==> Allowed(de, before.menus, s.apis, before.roles[r].menus, operation, verb)
  {
    hide SyncedRoles;
    var p := Policy("p", before.tenants[tenant].code, "tenant", operation, verb, "*");
    SyncedRolesAre(before, defaultTenant, 0);
    if Granted(de, s.roles, s.tenants, s.menus, s.apis, p) {
      var x, t': nat, m: nat, a: nat :| x in s.roles && Joined(de, s.tenants, s.menus, s.apis, x, t', m, a, p);
      var i: nat :| i < |s.roles| && s.roles[i] == x;
      SyncedRolesAre(before, defaultTenant, i);
      assert x.menus == before.roles[r].menus;
    }
    if Allowed(de, before.menus, s.apis, before.roles[r].menus, operation, verb) {
      var m: nat, a: nat :|
        && m < |s.menus| && IsMenu(s.menus, |s.menus|, m, s.menus[m].id)
        && s.menus[m].id in de.menuIds(before.roles[r].menus)
        && operation in de.operations(s.menus[m].api)
        && IsApi(s.apis, |s.apis|, a, operation) && s.apis[a].verb == verb;
      var i: nat :| i < |before.roles| && before.roles[i] == role;
      SyncedRolesAre(before, defaultTenant, i);
      assert Joined(de, s.tenants, s.menus, s.apis, s.roles[i], tenant, m, a, p);
    }
  }

  lemma {:induction false} SyncedRolesNulFree(s: State, apis: seq<Api>, defaultTenant: string)
    requires NamesNulFree(s.roles, s.tenants, apis)
    ensures NamesNulFree(SyncedRoles(s, defaultTenant), s.tenants, apis)
    ensures forall r :: r in SyncedRoles(s, defaultTenant) && r.code == TENANT && Template(s, defaultTenant).Some? ==>
              r.menus == Template(s, defaultTenant).value.menus
  {
    forall r | r in SyncedRoles(s, defaultTenant)
      ensures NulFree(r.code)
    {
      var i :| 0 <= i < |SyncedRoles(s, defaultTenant)| && SyncedRoles(s, defaultTenant)[i] == r;
      assert s.roles[i] in s.roles;
    }
  }

  /** The super role of the default tenant may do everything. */
  lemma {:induction false} SuperHoldsEveryApi(de: Decode, before: State, apis: seq<Api>, defaultTenant: string, a: nat)
    requires a < |apis|
    ensures Policy("p", defaultTenant, "super", apis[a].operation, apis[a].verb, "*") in
            Refreshed(Committed(de, before, apis, defaultTenant), defaultTenant)
  {
    SuperRulesAre(apis, |apis|, defaultTenant, Rule(defaultTenant, SUPER, apis[a]));
  }
}
