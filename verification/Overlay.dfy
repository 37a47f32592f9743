/** Effective plugin variables of a host (webpanel/app/plugins.py, resolve_config):
    defaults < global < groups < host, the secret variables dropped at the end. */
module Overlay {
  import opened Options
  import opened Graph
  import opened Groups

  /** A variable assignment: parsed JSON values are kept as opaque strings. */
  type Vars = map<string, string>

  datatype Field = Field(varName: string, default: Option<string>, secret: bool)

  datatype Scope = Global | Group(group: nat) | Host(server: nat)

  /** The stored rows of one plugin, by scope. */
  type Configs = map<Scope, Vars>

  /** `{f.var: f.default for f in fields if f.default is not None}`: a later field of the same variable wins. */
  function Defaults(fields: seq<Field>): Vars {
    if fields == [] then map[]
    else
      var rest, f := Defaults(fields[..|fields| - 1]), fields[|fields| - 1];
      if f.default.Some? then rest[f.varName := f.default.value] else rest
  }

  function SecretVars(fields: seq<Field>): set<string> {
    set f | f in fields && f.secret :: f.varName
  }

  ghost predicate Sets(configs: Configs, scope: Scope, v: string) {
    scope in configs && v in configs[scope]
  }

  ghost predicate GroupSets(es: Edges, members: set<(nat, nat)>, configs: Configs, server: nat, v: string, g: nat) {
    g in EffectiveGroups(es, members, server) && Sets(configs, Group(g), v)
  }

  /** The scope whose value for `v` the host gets, if any scope sets it. */
  ghost predicate Supplies(es: Edges, members: set<(nat, nat)>, configs: Configs, server: Option<nat>, v: string, scope: Scope) {
    && Sets(configs, scope, v)
    && match scope
       case Host(s) => server == Some(s)
       case Group(g) =>
         && server.Some? && !Sets(configs, Host(server.value), v)
         && g in EffectiveGroups(es, members, server.value)
         && forall h :: GroupSets(es, members, configs, server.value, v, h) && h != g ==> OverlaysBefore(es, h, g)
       case Global =>
         server.Some? ==>
           !Sets(configs, Host(server.value), v) && forall h :: !GroupSets(es, members, configs, server.value, v, h)
  }

  method ApplyScope(configs: Configs, scope: Scope, values: Vars) returns (r: Vars)
    ensures forall v :: if Sets(configs, scope, v) then v in r && r[v] == configs[scope][v]
                        else (v in r <==> v in values) && (v in r ==> r[v] == values[v])
  {
    r := if scope in configs then values + configs[scope] else values;
  }

  /** `plugin` is None when no such plugin is loaded, `registered` whether it has a row in the database. */
  method ResolveConfig(plugin: Option<seq<Field>>, registered: bool, configs: Configs,
                       rows: Edges, members: set<(nat, nat)>, server: Option<nat>) returns (values: Vars)
    ensures plugin.None? ==> values == map[]
    ensures plugin.Some? && !registered ==> values == Defaults(plugin.value)
    ensures plugin.Some? && registered ==>
              && (forall v :: v in SecretVars(plugin.value) ==> v !in values)
              && (forall v, scope :: v !in SecretVars(plugin.value) && Supplies(rows, members, configs, server, v, scope)
                    ==> v in values && values[v] == configs[scope][v])
              && (forall v :: v !in SecretVars(plugin.value) && (forall scope :: !Supplies(rows, members, configs, server, v, scope))
                    ==> (v in values <==> v in Defaults(plugin.value))
                        && (v in values ==> values[v] == Defaults(plugin.value)[v]))
  {
    if plugin.None? { return map[]; }
    values := Defaults(plugin.value);
    if !registered { return; }
    ghost var defaults := values;
    values := ApplyScope(configs, Global, values);
    ghost var base := values;
    if server.Some? {
      var order := EffectiveGroupIdsForHost(rows, members, server.value);
      var i := 0;
      while i < |order|
        invariant 0 <= i <= |order|
        invariant forall v :: Layered(configs, base, order[..i], v, values)
      {
        ghost var before := values;
        values := ApplyScope(configs, Group(order[i]), values);
        ghost var done := order[..i + 1];
        forall v ensures Layered(configs, base, done, v, values) {
          assert Layered(configs, base, order[..i], v, before);
          LayerGroup(configs, base, order, i, v, before, values);
        }
        i := i + 1;
      }
      assert order[..i] == order;
      ghost var grouped := values;
      values := ApplyScope(configs, Host(server.value), values);
      forall v, scope | Supplies(rows, members, configs, server, v, scope)
        ensures v in values && values[v] == configs[scope][v]
      {
        assert Layered(configs, base, order, v, grouped);
        SuppliedValue(rows, members, configs, server.value, order, base, v, scope, grouped);
      }
      forall v | forall scope :: !Supplies(rows, members, configs, server, v, scope)
        ensures (v in values <==> v in defaults) && (v in values ==> values[v] == defaults[v])
      {
        assert Layered(configs, base, order, v, grouped);
        UnsuppliedValue(rows, members, configs, server.value, order, v);
      }
    } else {
      forall v | forall scope :: !Supplies(rows, members, configs, server, v, scope)
        ensures !Sets(configs, Global, v)
      {
        assert !Supplies(rows, members, configs, server, v, Global);
      }
    }
    values := values - SecretVars(plugin.value);
  }

  /** The value of `v` after the groups of `order` were laid over `base`: that of the last one setting it. */
  ghost predicate Layered(configs: Configs, base: Vars, order: seq<nat>, v: string, values: Vars) {
    if exists k :: LastSetter(configs, order, v, k)
    then forall k :: LastSetter(configs, order, v, k) ==> v in values && values[v] == configs[Group(order[k])][v]
    else (v in values <==> v in base) && (v in values ==> values[v] == base[v])
  }

  ghost predicate LastSetter(configs: Configs, order: seq<nat>, v: string, k: int) {
    && 0 <= k < |order| && Sets(configs, Group(order[k]), v)
    && forall j :: k < j < |order| ==> !Sets(configs, Group(order[j]), v)
  }

  lemma LayerGroup(configs: Configs, base: Vars, order: seq<nat>, i: nat, v: string, before: Vars, after: Vars)
    requires i < |order| && Layered(configs, base, order[..i], v, before)
    requires if Sets(configs, Group(order[i]), v) then v in after && after[v] == configs[Group(order[i])][v]
             else (v in after <==> v in before) && (v in after ==> after[v] == before[v])
    ensures Layered(configs, base, order[..i + 1], v, after)
  {
    if Sets(configs, Group(order[i]), v) {
      assert LastSetter(configs, order[..i + 1], v, i);
    } else {
      var done, all := order[..i], order[..i + 1];
      assert all == done + [order[i]];
      forall k ensures LastSetter(configs, all, v, k) <==> LastSetter(configs, done, v, k) {
      }
    }
  }

  lemma FindLastSetter(configs: Configs, order: seq<nat>, v: string, k: nat) returns (last: nat)
    requires k < |order| && Sets(configs, Group(order[k]), v)
    ensures LastSetter(configs, order, v, last)
  {
    last := |order| - 1;
    while !Sets(configs, Group(order[last]), v)
      invariant k <= last < |order|
      decreases last
      invariant forall j :: last < j < |order| ==> !Sets(configs, Group(order[j]), v)
    {
      last := last - 1;
    }
  }

  lemma SuppliedValue(es: Edges, members: set<(nat, nat)>, configs: Configs, server: nat, order: seq<nat>,
                      base: Vars, v: string, scope: Scope, grouped: Vars)
    requires Supplies(es, members, configs, Some(server), v, scope)
    requires Elements(order) == EffectiveGroups(es, members, server) && OverlayOrder(es, order)
    requires Layered(configs, base, order, v, grouped)
    requires if Sets(configs, Global, v) then v in base && base[v] == configs[Global][v] else true
    ensures !scope.Host? ==> v in grouped && grouped[v] == configs[scope][v] && !Sets(configs, Host(server), v)
  {
    match scope
    case Host(s) =>
    case Group(g) =>
      var k :| 0 <= k < |order| && order[k] == g;
      var last := FindLastSetter(configs, order, v, k);
      assert order[last] in Elements(order);
      if order[last] != g { assert OverlaysBefore(es, order[last], g); }
    case Global =>
      forall k ensures !LastSetter(configs, order, v, k) {
        if 0 <= k < |order| {
          assert order[k] in Elements(order);
          assert !GroupSets(es, members, configs, server, v, order[k]);
        }
      }
  }

  lemma LastSetterSupplies(es: Edges, members: set<(nat, nat)>, configs: Configs, server: nat, order: seq<nat>, v: string, k: nat)
    requires k < |order| && !Sets(configs, Host(server), v)
    requires Elements(order) == EffectiveGroups(es, members, server) && OverlayOrder(es, order)
    ensures LastSetter(configs, order, v, k) ==> Supplies(es, members, configs, Some(server), v, Group(order[k]))
  {
    if LastSetter(configs, order, v, k) {
      assert order[k] in Elements(order);
      forall h | GroupSets(es, members, configs, server, v, h) && h != order[k] ensures OverlaysBefore(es, h, order[k]) {
        assert h in Elements(order);
      }
    }
  }

  lemma UnsuppliedValue(es: Edges, members: set<(nat, nat)>, configs: Configs, server: nat, order: seq<nat>, v: string)
    requires forall scope :: !Supplies(es, members, configs, Some(server), v, scope)
    requires Elements(order) == EffectiveGroups(es, members, server) && OverlayOrder(es, order)
    ensures !Sets(configs, Host(server), v) && !Sets(configs, Global, v)
    ensures forall k :: !LastSetter(configs, order, v, k)
  {
    assert !Supplies(es, members, configs, Some(server), v, Host(server));
    forall k ensures !LastSetter(configs, order, v, k) {
      if 0 <= k < |order| { LastSetterSupplies(es, members, configs, server, order, v, k); }
    }
    forall h ensures !GroupSets(es, members, configs, server, v, h) {
      if GroupSets(es, members, configs, server, v, h) {
        assert h in Elements(order);
        var k :| 0 <= k < |order| && order[k] == h;
        var last := FindLastSetter(configs, order, v, k);
      }
    }
    assert !Supplies(es, members, configs, Some(server), v, Global);
  }

  // ---------------------------------------------------------------- what the precedence means

  /** On an acyclic group graph the supplying group is a most specific one: no effective group below it sets the variable. */
  lemma MostSpecificGroupWins(es: Edges, members: set<(nat, nat)>, configs: Configs, server: nat, v: string, g: nat, h: nat)
    requires Acyclic(es)
    requires Supplies(es, members, configs, Some(server), v, Group(g))
    requires GroupSets(es, members, configs, server, v, h)
    ensures !Above(es, g, h)
  {
    if Above(es, g, h) { AncestorsGrow(es, g, h); }
  }

  /** At most one scope supplies a variable, so the rules leave nothing open. */
  lemma SupplierIsUnique(es: Edges, members: set<(nat, nat)>, configs: Configs, server: Option<nat>, v: string, s: Scope, t: Scope)
    requires Supplies(es, members, configs, server, v, s) && Supplies(es, members, configs, server, v, t)
    ensures s == t
  {
    assert s.Group? ==> GroupSets(es, members, configs, server.value, v, s.group);
    assert t.Group? ==> GroupSets(es, members, configs, server.value, v, t.group);
  }

  /** The early return for a plugin without a database row skips the final drop, so a variable listed both with a
      default and as secret leaks there; it is kept out exactly when no secret variable has a default. */
  lemma UnregisteredLeaksIffSecretHasDefault(fields: seq<Field>)
    ensures (forall v :: v in SecretVars(fields) ==> v !in Defaults(fields)) <==>
            (forall i, j :: 0 <= i < |fields| && 0 <= j < |fields| && fields[i].secret && fields[j].varName == fields[i].varName
               ==> fields[j].default.None?)
  {
    if i, j :| 0 <= i < |fields| && 0 <= j < |fields| && fields[i].secret && fields[j].varName == fields[i].varName && fields[j].default.Some? {
      DefaultsKeys(fields, fields[j].varName);
      assert fields[i] in fields && fields[i].varName in SecretVars(fields);
    }
    if v :| v in SecretVars(fields) && v in Defaults(fields) {
      DefaultsKeys(fields, v);
    }
  }

  /** Such a list of fields: a variable given a default among the fields and listed as secret besides. */
  lemma SecretDefaultCanLeak()
    ensures var fields := [Field("token", Some("changeme"), false), Field("token", None, true)];
      "token" in SecretVars(fields) && "token" in Defaults(fields)
  {
    var fields := [Field("token", Some("changeme"), false), Field("token", None, true)];
    assert fields[0].varName == "token" && fields[1] in fields;
    DefaultsKeys(fields, "token");
  }

  lemma {:induction false} DefaultsKeys(fields: seq<Field>, v: string)
    ensures v in Defaults(fields) <==> exists j :: 0 <= j < |fields| && fields[j].varName == v && fields[j].default.Some?
  {
    if fields != [] {
      var n := |fields| - 1;
      DefaultsKeys(fields[..n], v);
      assert forall j :: 0 <= j < n ==> fields[..n][j] == fields[j];
    }
  }

  /** The default of a variable is the one of the last field that gives it one. */
  lemma {:induction false} DefaultsLaw(fields: seq<Field>, i: nat)
    requires i < |fields| && fields[i].default.Some?
    requires forall j :: i < j < |fields| && fields[j].varName == fields[i].varName ==> fields[j].default.None?
    ensures fields[i].varName in Defaults(fields) && Defaults(fields)[fields[i].varName] == fields[i].default.value
  {
    var n := |fields| - 1;
    if i < n {
      assert forall j :: 0 <= j < n ==> fields[..n][j] == fields[j];
      DefaultsLaw(fields[..n], i);
    }
  }
}
