/**
 * Group ids and table rows in `add_group` of engine.py: the id a group
 * name gets, the table as `add_group` and `param_RIPO` leave it, and the
 * intended mapping in which group id `k` reads row `k` of the table.
 */
module GroupIds {

  import opened Enums
  import opened GroupParams
  import opened Decode
  import opened Kernel

  /** `names.index(x)` when `x` is present, else `len(names)`: the group id a name gets. */
  function GroupIndex(names: seq<string>, x: string): (k: nat)
    ensures k <= |names|
    ensures k < |names| <==> x in names
    ensures k < |names| ==> names[k] == x
    ensures forall m :: 0 <= m < k ==> names[m] != x
  {
    if names == [] then 0
    else if names[0] == x then 0
    else 1 + GroupIndex(names[1..], x)
  }

  /** Appending a name that is absent keeps the names distinct. */
  lemma AppendKeepsDistinct(names: seq<string>, x: string)
    requires Distinct(names) && x !in names
    ensures Distinct(names + [x])
  {
    var r := names + [x];
    forall i, j | 0 <= i < j < |r|
      ensures r[i] != r[j]
    {
      if j == |names| {
        assert r[i] == names[i];
      }
    }
  }

  /** One `add_group` call as the group tables see it: type, group name, RIPO configuration, agent count. */
  datatype Registration = Registration(gtype: AgentKind, name: string, c: RipoConfig, n: nat)

  /**
   * The group side of the engine: names, types and configurations by group
   * id, the parameter table, and the type and group id of every agent.
   */
  datatype Registry = Registry(names: seq<string>, types: seq<AgentKind>, configs: seq<RipoConfig>,
                               table: seq<seq<real>>, atype: seq<AgentKind>, group: seq<int>)

  const NoGroups: Registry := Registry([], [], [], [], [], [])

  /**
   * The part of `add_group` both mappings share: the name gets the id
   * `names.index(name)`, is recorded if new, and the new agents get its id;
   * the table becomes `table`.
   */
  function Enrol(g: Registry, r: Registration, table: seq<seq<real>>): (h: Registry)
    ensures h.names == if r.name in g.names then g.names else g.names + [r.name]
    ensures h.atype == g.atype + seq(r.n, _ => r.gtype)
    ensures h.group == g.group + seq(r.n, _ => GroupIndex(g.names, r.name))
  {
    var isNew := r.name !in g.names;
    Registry(if isNew then g.names + [r.name] else g.names,
             if isNew then g.types + [r.gtype] else g.types,
             if isNew then g.configs + [r.c] else g.configs,
             table,
             g.atype + seq(r.n, _ => r.gtype),
             g.group + seq(r.n, _ => GroupIndex(g.names, r.name)))
  }

  /**
   * `add_group` AS WRITTEN: the agents' group id is the index of the name,
   * but only a RIPO group adds a row (through `param_RIPO`), so after a
   * fixed group the ids and the row numbers disagree.
   */
  function RegisterAsWritten(g: Registry, r: Registration): (h: Registry)
    requires TableShape(g.table)
    ensures TableShape(h.table)
    ensures r.gtype != Ripo ==> h.table == g.table
  {
    Enrol(g, r, if r.gtype == Ripo then AddRowAsWritten(g.table, RipoRow(2, r.c)) else g.table)
  }

  /**
   * `add_group` as evidently intended: a new name adds exactly one row, so
   * that group id `k` reads row `k`; a known name adds none.
   */
  function Register(g: Registry, r: Registration): (h: Registry)
    requires TableShape(g.table)
    ensures TableShape(h.table)
  {
    Enrol(g, r, if r.name in g.names then g.table else AddRow(g.table, GroupRow(2, r.gtype, r.c)))
  }

  /**
   * Every group has one row, which is its own row padded to the table
   * width, and every agent's group id is a group.
   */
  predicate Coherent(g: Registry) {
    && |g.types| == |g.configs| == |g.table| == |g.names|
    && Distinct(g.names) && TableShape(g.table)
    && |g.atype| == |g.group|
    && (forall i :: 0 <= i < |g.group| ==> 0 <= g.group[i] < |g.names|)
    && RowsMatch(g.table, g.types, g.configs)
  }

  /** Row `k` of the table is the row of group `k`, padded to the table width. */
  predicate RowsMatch(table: seq<seq<real>>, types: seq<AgentKind>, configs: seq<RipoConfig>)
    requires |table| <= |types| && |table| <= |configs|
  {
    forall k :: 0 <= k < |table| ==> table[k] == Pad(GroupRow(2, types[k], configs[k]), Width(table))
  }

  /** Appending the row of a new group keeps every row that of its group. */
  lemma AddRowKeepsRowsMatch(table: seq<seq<real>>, types: seq<AgentKind>, configs: seq<RipoConfig>,
                             gtype: AgentKind, c: RipoConfig)
    requires TableShape(table) && |table| == |types| == |configs| && RowsMatch(table, types, configs)
    ensures RowsMatch(AddRow(table, GroupRow(2, gtype, c)), types + [gtype], configs + [c])
  {
    var t := AddRow(table, GroupRow(2, gtype, c));
    var types', configs' := types + [gtype], configs + [c];
    forall k | 0 <= k < |t|
      ensures t[k] == Pad(GroupRow(2, types'[k], configs'[k]), Width(t))
    {
      if k < |table| {
        assert types'[k] == types[k] && configs'[k] == configs[k];
        PadTwice(GroupRow(2, types[k], configs[k]), Width(table), Width(t));
      } else {
        assert types'[k] == gtype && configs'[k] == c;
      }
    }
  }

  /** Every agent has the type its group was first registered with. */
  predicate TypesAgree(g: Registry)
    requires Coherent(g)
  {
    forall i :: 0 <= i < |g.atype| ==> g.atype[i] == g.types[g.group[i]]
  }

  /** A registration under a known name repeats the type that name was registered with. */
  predicate Consistent(g: Registry, r: Registration)
    requires Coherent(g)
  {
    r.name in g.names ==> g.types[GroupIndex(g.names, r.name)] == r.gtype
  }

  /** Every RIPO group's configuration can be read back with the final number of groups. */
  predicate ReadableGroups(g: Registry)
    requires Coherent(g)
  {
    forall k :: 0 <= k < |g.types| && g.types[k] == Ripo ==> Readable(2, |g.names|, g.configs[k])
  }

  /** The intended registration keeps one padded row per group. */
  lemma RegisterKeepsCoherent(g: Registry, r: Registration)
    requires Coherent(g)
    ensures Coherent(Register(g, r))
  {
    var h := Register(g, r);
    var id := GroupIndex(g.names, r.name);
    if r.name !in g.names {
      AppendKeepsDistinct(g.names, r.name);
      AddRowKeepsRowsMatch(g.table, g.types, g.configs, r.gtype, r.c);
    }
    forall i | 0 <= i < |h.group|
      ensures 0 <= h.group[i] < |h.names|
    {
      if i >= |g.group| {
        assert h.group[i] == id;
      }
    }
  }

  /** A consistent registration keeps every agent's type that of its group. */
  lemma RegisterKeepsTypes(g: Registry, r: Registration)
    requires Coherent(g) && TypesAgree(g) && Consistent(g, r)
    ensures Coherent(Register(g, r)) && TypesAgree(Register(g, r))
  {
    RegisterKeepsCoherent(g, r);
    var h := Register(g, r);
    forall i | 0 <= i < |h.atype|
      ensures h.atype[i] == h.types[h.group[i]]
    {
      if i >= |g.atype| {
        assert h.atype[i] == r.gtype && h.group[i] == GroupIndex(g.names, r.name);
      } else {
        assert h.atype[i] == g.atype[i] && h.group[i] == g.group[i];
      }
    }
  }

  /** The decoded row of a readable configuration passes the kernel's checks. */
  lemma ExpectedRowOk(nG: nat, c: RipoConfig)
    requires Readable(2, nG, c)
    ensures RowOk(Expected(2, nG, c))
  {
    var e := Expected(2, nG, c);
    if PresenceTerms(e.slots) > 0 {
      assert c.inputs != [];
      assert Coefficients(c.inputs) == c.inputs[0].coefficients + Coefficients(c.inputs[1..]);
    }
  }

  /**
   * With one row per group, agents typed as their groups and readable RIPO
   * configurations, every RIPO agent finds and decodes its group's row.
   */
  lemma CoherentWellFormed(g: Registry, arena: Arena2, aparam: seq<AgentParam>)
    requires Coherent(g) && TypesAgree(g) && ReadableGroups(g) && |aparam| == |g.atype|
    ensures WellFormed(World(arena, g.atype, g.group, aparam, g.table), |g.atype|)
  {
    var w := World(arena, g.atype, g.group, aparam, g.table);
    forall i | 0 <= i < |g.atype| && g.atype[i] == Ripo
      ensures 0 <= w.group[i] < |w.gparam| && RowOf(w, i).Some? && RowOk(RowOf(w, i).value)
    {
      var k := g.group[i];
      var c := g.configs[k];
      assert g.types[k] == Ripo;
      assert g.table[k] == Pad(RipoRow(2, c), Width(g.table));
      DecodeRipoRow(2, |g.table|, c, Width(g.table));
      ExpectedRowOk(|g.table|, c);
    }
  }

  /** A fixed group then a RIPO group (one agent each, different names), as written. */
  lemma RegisterAsWrittenTwo(f: Registration, r: Registration)
    requires f.gtype == Fixed && r.gtype == Ripo && f.name != r.name && f.n == 1 && r.n == 1
    ensures var g := RegisterAsWritten(RegisterAsWritten(NoGroups, f), r);
            && g.atype == [Fixed, Ripo] && g.group == [0, 1] && |g.table| == 1
  {
    var g1 := RegisterAsWritten(NoGroups, f);
    assert GroupIndex([], f.name) == 0;
    assert seq(1, _ => f.gtype) == [Fixed];
    assert g1.names == [f.name] && g1.table == [] && g1.atype == [Fixed] && g1.group == [0];
    assert GroupIndex(g1.names, r.name) == 1;
    assert seq(1, _ => r.gtype) == [Ripo];
  }

  /**
   * As written, that order leaves the RIPO agent with group id 1 in a
   * one-row table: the kernel reads past the end of `gparam`.
   */
  lemma FixedBeforeRipoHasNoRow(f: Registration, r: Registration, arena: Arena2, aparam: seq<AgentParam>)
    requires f.gtype == Fixed && r.gtype == Ripo && f.name != r.name && f.n == 1 && r.n == 1
    requires |aparam| == 2
    ensures var g := RegisterAsWritten(RegisterAsWritten(NoGroups, f), r);
            && g.atype == [Fixed, Ripo] && g.group == [0, 1] && |g.table| == 1
            && !WellFormed(World(arena, g.atype, g.group, aparam, g.table), 2)
  {
    RegisterAsWrittenTwo(f, r);
    var g := RegisterAsWritten(RegisterAsWritten(NoGroups, f), r);
    var w := World(arena, g.atype, g.group, aparam, g.table);
    assert w.atype[1] == Ripo && w.group[1] == |w.gparam|;
  }

  /** Registering one agent under a new name gives that name the next id and the next row. */
  lemma RegisterNewName(g: Registry, r: Registration)
    requires TableShape(g.table) && r.name !in g.names && r.n == 1
    ensures var h := Register(g, r);
            && h.names == g.names + [r.name] && h.types == g.types + [r.gtype] && h.configs == g.configs + [r.c]
            && h.atype == g.atype + [r.gtype] && h.group == g.group + [|g.names|]
  {
    assert GroupIndex(g.names, r.name) == |g.names|;
    assert seq(1, _ => r.gtype) == [r.gtype];
    assert seq(1, _ => GroupIndex(g.names, r.name)) == [|g.names|];
  }

  /** Two groups of one agent each under different names, registered as intended. */
  lemma RegisterTwo(f: Registration, r: Registration)
    requires f.name != r.name && f.n == 1 && r.n == 1
    ensures var h := Register(Register(NoGroups, f), r);
            && h.names == [f.name, r.name] && h.types == [f.gtype, r.gtype] && h.configs == [f.c, r.c]
            && h.atype == [f.gtype, r.gtype] && h.group == [0, 1]
  {
    RegisterNewName(NoGroups, f);
    RegisterNewName(Register(NoGroups, f), r);
  }

  /** The same two registrations keep one row per group and every agent typed as its group. */
  lemma RegisterTwoCoherent(f: Registration, r: Registration)
    requires f.name != r.name && f.n == 1 && r.n == 1
    ensures Coherent(Register(Register(NoGroups, f), r)) && TypesAgree(Register(Register(NoGroups, f), r))
  {
    RegisterNewName(NoGroups, f);
    RegisterKeepsTypes(NoGroups, f);
    RegisterKeepsTypes(Register(NoGroups, f), r);
  }

  /**
   * The intended mapping gives the same RIPO agent row 1, which decodes
   * when its configuration is readable with two groups.
   */
  lemma FixedBeforeRipoIntended(f: Registration, r: Registration, arena: Arena2, aparam: seq<AgentParam>)
    requires f.gtype == Fixed && r.gtype == Ripo && f.name != r.name && f.n == 1 && r.n == 1
    requires |aparam| == 2 && Readable(2, 2, r.c)
    ensures var h := Register(Register(NoGroups, f), r);
            && h.atype == [Fixed, Ripo] && h.group == [0, 1] && |h.table| == 2
            && WellFormed(World(arena, h.atype, h.group, aparam, h.table), 2)
  {
    RegisterTwo(f, r);
    RegisterTwoCoherent(f, r);
    TwoGroupsWellFormed(Register(Register(NoGroups, f), r), r.c, arena, aparam);
  }

  /** A coherent fixed group and RIPO group whose configuration is readable with two groups. */
  lemma TwoGroupsWellFormed(h: Registry, c: RipoConfig, arena: Arena2, aparam: seq<AgentParam>)
    requires Coherent(h) && TypesAgree(h) && |h.names| == 2 && h.types == [Fixed, Ripo] && h.configs[1] == c
    requires Readable(2, 2, c) && |aparam| == |h.atype|
    ensures |h.table| == 2 && WellFormed(World(arena, h.atype, h.group, aparam, h.table), |h.atype|)
  {
    CoherentWellFormed(h, arena, aparam);
  }

  /** One agent of a fixed group, then one of a RIPO group with the example configuration. */
  lemma FixedThenRipoExample(arena: Arena2, aparam: seq<AgentParam>)
    requires |aparam| == 2
    ensures var f, r := Registration(Fixed, "FIXED", ExampleConfig(), 1), Registration(Ripo, "RIPO", ExampleConfig(), 1);
            && |RegisterAsWritten(RegisterAsWritten(NoGroups, f), r).table| == 1
            && WellFormed(World(arena, [Fixed, Ripo], [0, 1], aparam, Register(Register(NoGroups, f), r).table), 2)
  {
    var f, r := Registration(Fixed, "FIXED", ExampleConfig(), 1), Registration(Ripo, "RIPO", ExampleConfig(), 1);
    assert f.name != r.name by { assert "RIPO"[0] != "FIXED"[0]; }
    assert Readable(2, 2, ExampleConfig());
    FixedBeforeRipoHasNoRow(f, r, arena, aparam);
    FixedBeforeRipoIntended(f, r, arena, aparam);
  }

}
